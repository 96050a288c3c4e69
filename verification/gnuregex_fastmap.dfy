/** `re_compile_fastmap`: the characters that can begin a match, by one walk over the program that
    does not go round loops. */
module RegexFastmap {
  import opened RegexLanguage
  import opened RegexCode
  import opened RegexMeaning
  import opened RegexEdges
  import opened RegexIdle
  import opened RegexLoops
  import opened RegexPlaces

  type Fastmap = seq<bool>

  /** Every string of the pattern is nonempty and begins with a character of the map. */
  ghost predicate Covers(alts: Alts, fast: Fastmap)
    requires |fast| == 256
  {
    forall w: Text {:trigger Denotes(MeansAlts(alts), w)} :: Denotes(MeansAlts(alts), w) ==> w != [] && fast[w[0]]
  }

  /** The pattern matches the empty string. */
  ghost predicate Nullable(alts: Alts) {
    Denotes(MeansAlts(alts), [])
  }

  // ---- what is known in the midst of the walk ----

  /** The instruction at v reads a character. */
  predicate Reads(c: Code, v: int)
    requires 0 <= v < |c|
  {
    c[v] == EXACTN || c[v] == ANYCHAR
  }

  /** A step that reads nothing leads from v to q. */
  ghost predicate Slips(c: Code, v: int, q: int) {
    Fits(c, v) && !Reads(c, v) && Move(c, [], v, 0, q, 0)
  }

  lemma SlipIsMove(c: Code, s: Text, v: int, d: int, q: int, e: int)
    requires Move(c, s, v, d, q, e) && !Reads(c, v)
    ensures Slips(c, v, q) && e == d
  {
  }

  ghost predicate AllSet(fast: Fastmap)
    requires |fast| == 256
  {
    forall b: Byte :: fast[b]
  }

  /** What the instruction at v can read is in the map. */
  ghost predicate Eaten(c: Code, v: int, fast: Fastmap)
    requires |fast| == 256
  {
    Fits(c, v)
    && (c[v] == EXACTN ==> fast[c[v + 2]])
    && (c[v] == ANYCHAR ==> AllSet(fast))
  }

  ghost predicate Handled(c: Code, seen: set<int>, front: set<int>, nullable: bool, q: int) {
    q in seen || q in front || (q == |c| && nullable)
  }

  ghost predicate Explored(c: Code, seen: set<int>, front: set<int>, nullable: bool, fast: Fastmap)
    requires |fast| == 256
  {
    && (forall v {:trigger v in seen} :: v in seen ==> Eaten(c, v, fast))
    && (forall v, q {:trigger Slips(c, v, q)} :: v in seen && Slips(c, v, q) ==> Handled(c, seen, front, nullable, q))
  }

  /** A loop whose inside has been reached was entered at its first instruction. */
  ghost predicate Entered(alts: Alts, seen: set<int>, front: set<int>) {
    forall t, l, y {:trigger Within(t, l, y), IsAltLoop(alts, t, l)} ::
      IsAltLoop(alts, t, l) && Within(t, l, y) && (y in seen || y in front) ==> t + 3 in seen
  }

  /** The walk gets to the instruction at v without reading anything. */
  ghost predicate Found(alts: Alts, v: int) {
    IsAltStart(alts, v) && Reaches(AltBytes(alts), [], 0, 0, v, 0)
  }

  ghost predicate Walk(alts: Alts, seen: set<int>, front: set<int>, nullable: bool, fast: Fastmap)
    requires |fast| == 256
  {
    && (forall v {:trigger v in seen} :: v in seen ==> Found(alts, v))
    && (forall v {:trigger v in front} :: v in front ==> Found(alts, v))
    && Handled(AltBytes(alts), seen, front, nullable, 0)
    && Explored(AltBytes(alts), seen, front, nullable, fast) && Entered(alts, seen, front)
  }

  ghost predicate Good(alts: Alts) {
    WellFormedAlts(alts) && |AltBytes(alts)| < REACH
  }

  lemma WalkStart(alts: Alts, fast: Fastmap)
    requires Good(alts) && |fast| == 256
    ensures var c := AltBytes(alts);
      (c == [] ==> Walk(alts, {}, {}, true, fast)) && (c != [] ==> Walk(alts, {}, {0}, false, fast))
  {
    hide IsAltStart, AltBytes, IsAltLoop, Slips, Eaten, Found;
    var c := AltBytes(alts);
    ZeroIsFound(alts);
    forall t, l {:trigger IsAltLoop(alts, t, l)} | IsAltLoop(alts, t, l)
      ensures !Within(t, l, 0)
    {
      AltLoopRange(alts, t, l);
    }
  }

  lemma ZeroIsFound(alts: Alts)
    requires Good(alts)
    ensures AltBytes(alts) != [] ==> Found(alts, 0)
  {
    hide IsAltStart, Runs, Denotes;
    ReachesSelf(AltBytes(alts), [], 0, 0);
    RunPlace(alts, [], 0, 0, 0);
  }

  /** An instruction that reads a character ends its path. */
  lemma ReadStep(alts: Alts, seen: set<int>, front: set<int>, nullable: bool, fast: Fastmap, fast': Fastmap, front': set<int>, v: int)
    requires Good(alts) && |fast| == 256 && |fast'| == 256 && Walk(alts, seen, front, nullable, fast)
    requires v in front && front' <= front <= front' + {v}
    requires forall b: Byte {:trigger fast'[b]} :: fast[b] ==> fast'[b]
    requires Fits(AltBytes(alts), v) && Reads(AltBytes(alts), v) && Eaten(AltBytes(alts), v, fast')
    ensures Walk(alts, seen + {v}, front', nullable, fast')
  {
    hide IsAltStart, AltBytes, IsAltLoop, Fits, Move, Within, Found;
    var c := AltBytes(alts);
    forall u {:trigger u in seen + {v}} | u in seen + {v}
      ensures Eaten(c, u, fast')
    {
      if u != v {
        EatenMore(c, u, fast, fast');
      }
    }
    forall u, q {:trigger Slips(c, u, q)} | u in seen + {v} && Slips(c, u, q)
      ensures Handled(c, seen + {v}, front', nullable, q)
    {
      assert u != v;
      assert Handled(c, seen, front, nullable, q);
    }
  }

  /** An instruction that reads nothing hands on to all its successors. */
  lemma SlipStep(alts: Alts, seen: set<int>, front: set<int>, nullable: bool, fast: Fastmap, front': set<int>, nullable': bool, v: int)
    requires Good(alts) && |fast| == 256 && Walk(alts, seen, front, nullable, fast) && v in front && (nullable ==> nullable')
    requires front <= front' + {v} && Fits(AltBytes(alts), v) && !Reads(AltBytes(alts), v)
    requires forall q {:trigger Slips(AltBytes(alts), v, q)} :: Slips(AltBytes(alts), v, q) ==> Handled(AltBytes(alts), seen + {v}, front', nullable', q)
    requires forall q {:trigger q in front'} :: q in front' && q !in front ==> Slips(AltBytes(alts), v, q) && q < |AltBytes(alts)|
    ensures Walk(alts, seen + {v}, front', nullable', fast)
  {
    hide IsAltStart, AltBytes, IsAltLoop, Fits, Move, Within, Slips, Found;
    var c := AltBytes(alts);
    forall u, q {:trigger Slips(c, u, q)} | u in seen + {v} && Slips(c, u, q)
      ensures Handled(c, seen + {v}, front', nullable', q)
    {
      if u != v {
        assert Handled(c, seen, front, nullable, q);
      }
    }
    forall q {:trigger q in front'} | q in front'
      ensures Found(alts, q)
    {
      if q !in front {
        SlipToStart(alts, v, q);
      }
    }
    forall t, l, y {:trigger Within(t, l, y), IsAltLoop(alts, t, l)} |
      IsAltLoop(alts, t, l) && Within(t, l, y) && (y in seen + {v} || y in front')
      ensures t + 3 in seen + {v}
    {
      if y !in seen && y !in front {
        SlipEnters(alts, v, y, t, l);
        if v != t + 3 {
          assert Within(t, l, v);
        }
      }
    }
    EatenAnyway(c, v, fast);
  }

  lemma EatenMore(c: Code, v: int, fast: Fastmap, fast': Fastmap)
    requires |fast| == 256 && |fast'| == 256 && Eaten(c, v, fast)
    requires forall b: Byte {:trigger fast'[b]} :: fast[b] ==> fast'[b]
    ensures Eaten(c, v, fast')
  {
  }

  lemma EatenAnyway(c: Code, v: int, fast: Fastmap)
    requires |fast| == 256 && Fits(c, v) && !Reads(c, v)
    ensures Eaten(c, v, fast)
  {
  }

  lemma SlipToStart(alts: Alts, v: int, q: int)
    requires Good(alts) && Found(alts, v) && Slips(AltBytes(alts), v, q)
    ensures 0 <= q <= |AltBytes(alts)| && (if q < |AltBytes(alts)| then Found(alts, q) else Nullable(alts))
  {
    hide IsAltStart, AltBytes, Move, Fits, Reaches, Denotes;
    var c := AltBytes(alts);
    ReachesMove(c, [], v, 0, q, 0);
    ReachesJoin(c, [], 0, 0, v, 0, q, 0);
    RunPlace(alts, [], 0, q, 0);
    StartsInside(alts, q);
  }

  lemma SlipEnters(alts: Alts, v: int, q: int, t: int, l: int)
    requires Good(alts) && Found(alts, v) && Slips(AltBytes(alts), v, q) && IsAltLoop(alts, t, l) && Within(t, l, q)
    ensures v == t + 3 || Within(t, l, v)
  {
    hide IsAltStart, AltBytes, IsAltLoop, Move, Fits;
    AtAll(AltBytes(alts));
    SingleEntryAlts(alts, AltBytes(alts), 0, [], v, 0, q, 0, t, l);
  }

  /** The jump back at v: the walk goes on behind the loop, whose inside it has been through. */
  lemma LoopStep(alts: Alts, seen: set<int>, front: set<int>, nullable: bool, fast: Fastmap, front': set<int>, nullable': bool, v: int, t: int)
    requires Good(alts) && |fast| == 256 && Walk(alts, seen, front, nullable, fast) && v in front && (nullable ==> nullable')
    requires IsAltLoop(alts, t, v) && Found(alts, t) && Fits(AltBytes(alts), v) && AltBytes(alts)[v] == MAYBE_POP_JUMP
    requires Target(AltBytes(alts), v) == t
    requires front <= front' + {v} && Handled(AltBytes(alts), seen + {v, t}, front', nullable', v + 3)
    requires forall q {:trigger q in front'} :: q in front' && q !in front ==> q == v + 3 && v + 3 < |AltBytes(alts)|
    ensures Walk(alts, seen + {v, t}, front', nullable', fast)
  {
    hide IsAltStart, AltBytes, IsAltLoop, Fits, Move, Within, Slips, Eaten, Found;
    var c := AltBytes(alts);
    LoopMoves(alts, t, v);
    InsideEntered(alts, seen, front, nullable, fast, v, t);
    var seen' := seen + {v, t};
    forall u, q {:trigger Slips(c, u, q)} | u in seen' && Slips(c, u, q)
      ensures Handled(c, seen', front', nullable', q)
    {
      if u == v {
        LoopSlips(alts, t, v, q);
      } else if u == t {
        LoopSlips(alts, t, v, q);
      } else {
        assert Handled(c, seen, front, nullable, q);
      }
    }
    forall q {:trigger q in front'} | q in front'
      ensures Found(alts, q)
    {
      if q !in front {
        SlipToStart(alts, t, q);
      }
    }
    forall t', l', y {:trigger Within(t', l', y), IsAltLoop(alts, t', l')} |
      IsAltLoop(alts, t', l') && Within(t', l', y) && (y in seen' || y in front')
      ensures t' + 3 in seen'
    {
      if y !in seen && y !in front {
        LoopEntered(alts, seen, front, nullable, fast, v, t, t', l', y);
      }
    }
  }

  /** The steps of a loop's two ends. */
  lemma LoopMoves(alts: Alts, t: int, l: int)
    requires Good(alts) && IsAltLoop(alts, t, l) && Found(alts, t) && Fits(AltBytes(alts), l) && AltBytes(alts)[l] == MAYBE_POP_JUMP
    requires Target(AltBytes(alts), l) == t
    ensures var c := AltBytes(alts);
      && Fits(c, t) && c[t] == ON_FAILURE_JUMP && t + 3 <= l && Slips(c, l, t) && Slips(c, t, l + 3) && Slips(c, t, t + 3)
      && (forall fast: Fastmap | |fast| == 256 :: Eaten(c, t, fast) && Eaten(c, l, fast))
  {
    var c := AltBytes(alts);
    AtAll(c);
    hide AltBytes, IsAltStart, IsAltLoop;
    AltLoopHasEnds(alts, c, 0, t, l);
    StartsInside(alts, t);
  }

  lemma LoopSlips(alts: Alts, t: int, l: int, q: int)
    requires Good(alts) && IsAltLoop(alts, t, l) && Found(alts, t) && Fits(AltBytes(alts), l) && AltBytes(alts)[l] == MAYBE_POP_JUMP
    requires Target(AltBytes(alts), l) == t
    ensures Slips(AltBytes(alts), l, q) ==> q == t
    ensures Slips(AltBytes(alts), t, q) ==> q == t + 3 || q == l + 3
  {
    var c := AltBytes(alts);
    AtAll(c);
    hide AltBytes, IsAltStart, IsAltLoop;
    AltLoopHasEnds(alts, c, 0, t, l);
  }

  lemma InsideEntered(alts: Alts, seen: set<int>, front: set<int>, nullable: bool, fast: Fastmap, v: int, t: int)
    requires Good(alts) && |fast| == 256 && Walk(alts, seen, front, nullable, fast) && v in front && IsAltLoop(alts, t, v)
    ensures t + 3 == v || t + 3 in seen
  {
    hide IsAltStart, AltBytes, IsAltLoop, Fits, Move, Slips, Eaten;
    AltLoopRange(alts, t, v);
    if t + 3 != v {
      assert Within(t, v, v);
    }
  }

  lemma LoopEntered(alts: Alts, seen: set<int>, front: set<int>, nullable: bool, fast: Fastmap, v: int, t: int, t': int, l': int, y: int)
    requires Good(alts) && |fast| == 256 && Walk(alts, seen, front, nullable, fast) && v in front
    requires IsAltLoop(alts, t, v) && Found(alts, t) && Fits(AltBytes(alts), v) && AltBytes(alts)[v] == MAYBE_POP_JUMP
    requires Target(AltBytes(alts), v) == t
    requires IsAltLoop(alts, t', l') && Within(t', l', y) && (y == t || y == v + 3)
    ensures t' + 3 in seen + {v, t}
  {
    hide IsAltStart, AltBytes, IsAltLoop, Fits, Move, Slips, Eaten, Within;
    LoopMoves(alts, t, v);
    if y == v + 3 {
      SlipEnters(alts, t, y, t', l');
    }
    if t != t' + 3 {
      SlipEnters(alts, v, t, t', l');
      if v != t' + 3 {
        assert Within(t', l', v);
      }
    }
  }

  // ---- what the finished walk says ----

  lemma {:induction false} FirstByte(alts: Alts, seen: set<int>, nullable: bool, fast: Fastmap, w: Text, v: int, n: nat)
    requires Good(alts) && |fast| == 256 && Walk(alts, seen, {}, nullable, fast) && !nullable
    requires v in seen && Runs(AltBytes(alts), w, v, 0, |AltBytes(alts)|, |w|, n)
    ensures w != [] && fast[w[0]]
    decreases n
  {
    hide IsAltStart, AltBytes, IsAltLoop, Slips, Within;
    var c := AltBytes(alts);
    assert Found(alts, v) && Eaten(c, v, fast);
    if n > 0 {
      var q, e := FirstMove(c, w, v, 0, |c|, |w|, n);
      if Reads(c, v) {
        ReadsFirst(c, w, v, q, e, fast);
      } else {
        SlipIsMove(c, w, v, 0, q, e);
        assert Handled(c, seen, {}, nullable, q);
        FirstByte(alts, seen, nullable, fast, w, q, n - 1);
      }
    }
  }

  lemma ReadsFirst(c: Code, w: Text, v: int, q: int, e: int, fast: Fastmap)
    requires |fast| == 256 && Move(c, w, v, 0, q, e) && Reads(c, v) && Eaten(c, v, fast)
    ensures w != [] && fast[w[0]]
  {
    if c[v] == EXACTN {
      assert w[0..e][0] == c[v + 2..q][0];
    }
  }

  lemma WalkCovers(alts: Alts, seen: set<int>, fast: Fastmap)
    requires Good(alts) && |fast| == 256 && Walk(alts, seen, {}, false, fast)
    ensures Covers(alts, fast)
  {
    hide IsAltStart, AltBytes, IsAltLoop, Explored, Entered, Denotes, Runs;
    forall w: Text {:trigger Denotes(MeansAlts(alts), w)} | Denotes(MeansAlts(alts), w)
      ensures w != [] && fast[w[0]]
    {
      AcceptsWhatItMeans(alts, w);
      var n := ReachesRuns(AltBytes(alts), w, 0, 0, |AltBytes(alts)|, |w|);
      FirstByte(alts, seen, false, fast, w, 0, n);
    }
  }

  // ---- the walk itself ----

  /** The places that are still to be visited: the current one, unless its path has ended, and
      those on the stack. */
  ghost function Front(p: int, stack: seq<int>, used: nat): set<int> {
    (if p < used then {p} else {}) + (set q | q in stack)
  }

  function Power(n: nat): nat
  {
    if n == 0 then 1 else 3 * Power(n - 1)
  }

  /** Every place weighs more than two places behind it. */
  function Weight(stack: seq<int>, used: nat): nat {
    if stack == [] then 0
    else Weight(stack[..|stack| - 1], used) + (var q := stack[|stack| - 1]; if q < used then Power(if q < 0 then 0 else used - q) else 1)
  }

  lemma {:induction false} PowerGrows(a: nat, b: nat)
    requires a < b
    ensures 3 * Power(a) <= Power(b) && 1 <= Power(a)
    decreases b
  {
    if a < b - 1 {
      PowerGrows(a, b - 1);
    } else if a > 0 {
      PowerGrows(a - 1, a);
    }
  }

  lemma WeightPush(stack: seq<int>, q: int, used: nat)
    requires 0 <= q < used
    ensures Weight(stack + [q], used) == Weight(stack, used) + Power(used - q)
  {
    assert (stack + [q])[..|stack|] == stack;
  }

  ghost function Measure(p: nat, stack: seq<int>, used: nat): nat
    requires p <= used
  {
    Power(used - p) + Weight(stack, used)
  }

  datatype Walker = Walker(p: nat, stack: seq<int>, pathNull: bool, canBeNull: bool)

  ghost predicate OnWay(alts: Alts, c: Code, k: Walker, seen: set<int>, fast: Fastmap)
    requires |fast| == 256
  {
    && Program(alts, c) && k.p <= |c| && (forall i :: 0 <= i < |k.stack| ==> 0 <= k.stack[i] < |c|)
    && (k.p < |c| ==> k.pathNull) && (k.canBeNull || (k.p == |c| && k.pathNull) ==> Nullable(alts))
    && Walk(alts, seen, Front(k.p, k.stack, |c|), k.canBeNull || (k.p == |c| && k.pathNull), fast)
  }

  lemma OnWayStart(alts: Alts, c: Code, fast: Fastmap)
    requires Program(alts, c) && |fast| == 256
    ensures OnWay(alts, c, Walker(0, [], true, false), {}, fast)
  {
    hide Walk, IsAltStart, AltBytes, Rewritten;
    RewrittenLength(alts, c);
    WalkStart(alts, fast);
    EmptyIsNullable(alts);
    assert Front(0, [], |c|) == if c == [] then {} else {0};
  }

  lemma EmptyIsNullable(alts: Alts)
    requires Good(alts)
    ensures AltBytes(alts) == [] ==> Nullable(alts)
  {
    hide IsAltStart, Runs, Denotes;
    ReachesSelf(AltBytes(alts), [], 0, 0);
    RunPlace(alts, [], 0, 0, 0);
    if AltBytes(alts) == [] && IsAltStart(alts, 0) {
      StartsInside(alts, 0);
    }
  }

  /** A path has ended: the next one is taken from the stack. */
  lemma OnWayPop(alts: Alts, c: Code, k: Walker, seen: set<int>, fast: Fastmap)
    requires |fast| == 256 && OnWay(alts, c, k, seen, fast) && k.p == |c| && k.stack != []
    ensures var n := |k.stack| - 1;
      && 0 <= k.stack[n] < |c|
      && OnWay(alts, c, Walker(k.stack[n], k.stack[..n], true, k.canBeNull || k.pathNull), seen, fast)
      && Measure(k.stack[n], k.stack[..n], |c|) < Measure(k.p, k.stack, |c|)
  {
    hide Walk, Program;
    var n := |k.stack| - 1;
    assert k.stack == k.stack[..n] + [k.stack[n]];
    assert Front(k.p, k.stack, |c|) == Front(k.stack[n], k.stack[..n], |c|);
  }

  lemma OnWayFacts(alts: Alts, c: Code, k: Walker, seen: set<int>, fast: Fastmap)
    requires |fast| == 256 && OnWay(alts, c, k, seen, fast) && k.p < |c|
    ensures var c0 := AltBytes(alts);
      && |c| == |c0| && Fits(c, k.p) && Fits(c0, k.p) && IsAltStart(alts, k.p) && Program(alts, c)
      && (c[k.p] == c0[k.p] || (c0[k.p] == MAYBE_POP_JUMP && (c[k.p] == POP_FAILURE_JUMP || c[k.p] == JUMP)))
      && (c[k.p] == START_MEMORY || c[k.p] == STOP_MEMORY || c[k.p] == ON_FAILURE_JUMP || IsJump(c[k.p]) ==> Number(c, k.p + 1) == Number(c0, k.p + 1))
      && (c[k.p] == EXACTN ==> c[k.p + 2] == c0[k.p + 2])
  {
    hide IsAltStart, Rewritten, AltBytes, Fits, Explored, Entered;
    assert k.p in Front(k.p, k.stack, |c|);
    assert Found(alts, k.p);
    SameInstruction(alts, c, k.p);
    RewrittenLength(alts, c);
    ExactArgument(alts, c, k.p);
  }

  lemma ExactArgument(alts: Alts, c: Code, p: int)
    requires Program(alts, c) && IsAltStart(alts, p)
    ensures 0 <= p < |c| && (c[p] == EXACTN ==> p + 2 < |c| && c[p + 2] == AltBytes(alts)[p + 2])
  {
    hide IsAltStart, Rewritten;
    ArgumentsKept(alts, c, p, p + 2);
    RewrittenLength(alts, c);
    OpcodeKept(alts, c, p);
  }

  /** A character is read: the path ends there. */
  lemma OnWayRead(alts: Alts, c: Code, k: Walker, seen: set<int>, fast: Fastmap, fast': Fastmap)
    requires |fast| == 256 == |fast'| && OnWay(alts, c, k, seen, fast) && k.p < |c|
    requires c[k.p] == EXACTN || c[k.p] == ANYCHAR
    requires forall b: Byte {:trigger fast'[b]} :: fast[b] ==> fast'[b]
    requires c[k.p] == EXACTN ==> k.p + 2 < |c| && fast'[c[k.p + 2]]
    requires c[k.p] == ANYCHAR ==> AllSet(fast')
    ensures OnWay(alts, c, Walker(|c|, k.stack, false, k.canBeNull), seen + {k.p}, fast')
    ensures Measure(|c|, k.stack, |c|) < Measure(k.p, k.stack, |c|)
  {
    OnWayFacts(alts, c, k, seen, fast);
    PowerGrows(0, |c| - k.p);
    hide Walk, Program, IsAltStart;
    ReadStep(alts, seen, Front(k.p, k.stack, |c|), k.canBeNull, fast, fast', Front(|c|, k.stack, |c|), k.p);
  }

  /** An instruction with one successor. */
  lemma OnWaySlip(alts: Alts, c: Code, k: Walker, seen: set<int>, fast: Fastmap, q: int)
    requires |fast| == 256 && OnWay(alts, c, k, seen, fast) && k.p < |c| && !Reads(c, k.p) && c[k.p] != ON_FAILURE_JUMP
    requires Fits(c, k.p) && Move(c, [], k.p, 0, q, 0) && k.p < q
    ensures q <= |c| && OnWay(alts, c, k.(p := q), seen + {k.p}, fast)
    ensures Measure(q, k.stack, |c|) < Measure(k.p, k.stack, |c|)
  {
    OnWayFacts(alts, c, k, seen, fast);
    OnlySlip(alts, c, k.p, q);
    FoundHere(alts, c, k, seen, fast);
    SlipToStart(alts, k.p, q);
    PowerGrows(|c| - q, |c| - k.p);
    hide Walk, Program, IsAltStart, Move, Slips, AltBytes, Fits;
    SlipStep(alts, seen, Front(k.p, k.stack, |c|), k.canBeNull, fast, Front(q, k.stack, |c|), k.canBeNull || q == |c|, k.p);
  }

  lemma OnWayParts(alts: Alts, c: Code, k: Walker, seen: set<int>, fast: Fastmap)
    requires |fast| == 256 && OnWay(alts, c, k, seen, fast)
    ensures Program(alts, c) && k.p <= |c| && forall i :: 0 <= i < |k.stack| ==> 0 <= k.stack[i] < |c|
    ensures k.p < |c| ==> k.pathNull
    ensures k.canBeNull || (k.p == |c| && k.pathNull) ==> Nullable(alts)
    ensures Walk(alts, seen, Front(k.p, k.stack, |c|), k.canBeNull || (k.p == |c| && k.pathNull), fast)
    ensures k.p < |c| ==> k.p in Front(k.p, k.stack, |c|)
  {
    hide Walk, Program;
  }

  lemma OnWayFrom(alts: Alts, c: Code, k: Walker, seen: set<int>, fast: Fastmap)
    requires |fast| == 256 && Program(alts, c) && k.p <= |c| && (forall i :: 0 <= i < |k.stack| ==> 0 <= k.stack[i] < |c|) && k.pathNull
    requires k.canBeNull || k.p == |c| ==> Nullable(alts)
    requires Walk(alts, seen, Front(k.p, k.stack, |c|), k.canBeNull || k.p == |c|, fast)
    ensures OnWay(alts, c, k, seen, fast)
  {
    hide Walk, Program;
  }

  lemma FrontMoves(p: int, stack: seq<int>, used: nat, p': int, stack': seq<int>)
    requires p < used && p' <= used
    ensures stack' == stack ==> Front(p, stack, used) <= Front(p', stack', used) + {p}
    ensures stack' == stack && p' < used ==> p' in Front(p', stack', used)
    ensures stack' == stack ==> forall q {:trigger q in Front(p', stack', used)} ::
      q in Front(p', stack', used) && q !in Front(p, stack, used) ==> q == p' && p' < used
    ensures stack != [] && stack[|stack| - 1] == p' && stack' == stack[..|stack| - 1] && p' < used ==>
      Front(p, stack, used) <= Front(p', stack', used) + {p} && p' in Front(p', stack', used) && Front(p', stack', used) <= Front(p, stack, used)
  {
    if stack != [] && stack' == stack[..|stack| - 1] {
      assert stack == stack' + [stack[|stack| - 1]];
    }
  }

  lemma FrontPushes(p: int, stack: seq<int>, used: nat, p': int, q': int)
    requires p < used && p' <= used && 0 <= q' < used
    ensures Front(p, stack, used) <= Front(p', stack + [q'], used) + {p} && q' in Front(p', stack + [q'], used)
    ensures p' < used ==> p' in Front(p', stack + [q'], used)
    ensures forall q {:trigger q in Front(p', stack + [q'], used)} ::
      q in Front(p', stack + [q'], used) && q !in Front(p, stack, used) ==> (q == p' && p' < used) || q == q'
  {
  }

  lemma FoundHere(alts: Alts, c: Code, k: Walker, seen: set<int>, fast: Fastmap)
    requires |fast| == 256 && OnWay(alts, c, k, seen, fast) && k.p < |c|
    ensures Found(alts, k.p) && Good(alts)
  {
    hide Explored, Entered, IsAltStart, Reaches;
    assert k.p in Front(k.p, k.stack, |c|);
  }

  lemma OnlySlip(alts: Alts, c: Code, p: int, q: int)
    requires Program(alts, c) && IsAltStart(alts, p) && Fits(c, p) && !Reads(c, p) && c[p] != ON_FAILURE_JUMP && Move(c, [], p, 0, q, 0)
    ensures var c0 := AltBytes(alts); Fits(c0, p) && !Reads(c0, p) && Slips(c0, p, q) && forall q' :: Slips(c0, p, q') ==> q' == q
  {
    hide IsAltStart, Rewritten, AltBytes;
    SameInstruction(alts, c, p);
  }

  /** An `on_failure_jump`: the target waits on the stack, or is the end of the program. */
  lemma OnWayFailure(alts: Alts, c: Code, k: Walker, seen: set<int>, fast: Fastmap, target: int)
    requires |fast| == 256 && OnWay(alts, c, k, seen, fast) && k.p < |c| && c[k.p] == ON_FAILURE_JUMP
    requires k.p + 2 < |c| && target == k.p + 3 + Number(c, k.p + 1)
    ensures k.p < target <= |c|
    ensures var k' := if target < |c| then k.(p := k.p + 3, stack := k.stack + [target]) else k.(p := k.p + 3, canBeNull := true);
      && OnWay(alts, c, k', seen + {k.p}, fast)
      && Measure(k'.p, k'.stack, |c|) < Measure(k.p, k.stack, |c|)
  {
    hide *;
    OnWayFacts(alts, c, k, seen, fast);
    FailureSlips(alts, c, k.p, target);
    FoundHere(alts, c, k, seen, fast);
    SlipToStart(alts, k.p, target);
    SlipToStart(alts, k.p, k.p + 3);
    FailureForward(alts, c, k.p);
    OnWayParts(alts, c, k, seen, fast);
    var p', front := k.p + 3, Front(k.p, k.stack, |c|);
    MeasureFalls(k.p, p', k.stack, |c|);
    if target < |c| {
      MeasurePush(k.p, p', k.stack, target, |c|);
      var front' := Front(p', k.stack + [target], |c|);
      FrontPushes(k.p, k.stack, |c|, p', target);
      AllHandled(alts, c, k.p, seen, front', k.canBeNull || p' == |c|, p', target);
      SlipStep(alts, seen, front, k.canBeNull, fast, front', k.canBeNull || p' == |c|, k.p);
      OnWayFrom(alts, c, k.(p := p', stack := k.stack + [target]), seen + {k.p}, fast);
    } else {
      var front' := Front(p', k.stack, |c|);
      FrontMoves(k.p, k.stack, |c|, p', k.stack);
      AllHandled(alts, c, k.p, seen, front', true, p', target);
      SlipStep(alts, seen, front, k.canBeNull, fast, front', true, k.p);
      OnWayFrom(alts, c, k.(p := p', canBeNull := true), seen + {k.p}, fast);
    }
  }

  lemma AllHandled(alts: Alts, c: Code, v: int, seen: set<int>, front: set<int>, nullable: bool, p: int, q: int)
    requires |c| == |AltBytes(alts)| && (p in front || (p == |c| && nullable)) && (q in front || (q == |c| && nullable))
    requires forall u :: Slips(AltBytes(alts), v, u) ==> u == p || u == q
    ensures forall u {:trigger Slips(AltBytes(alts), v, u)} :: Slips(AltBytes(alts), v, u) ==> Handled(AltBytes(alts), seen + {v}, front, nullable, u)
  {
    hide Slips, AltBytes;
  }

  lemma MeasureFalls(p: nat, p': nat, stack: seq<int>, used: nat)
    requires p < p' <= used
    ensures Measure(p', stack, used) < Measure(p, stack, used)
  {
    PowerGrows(used - p', used - p);
  }

  lemma MeasurePush(p: nat, p': nat, stack: seq<int>, q: nat, used: nat)
    requires p < p' <= used && p < q < used
    ensures Measure(p', stack + [q], used) < Measure(p, stack, used)
  {
    PowerGrows(used - p', used - p);
    PowerGrows(used - q, used - p);
    WeightPush(stack, q, used);
  }

  lemma MeasurePop(p: nat, p': nat, stack: seq<int>, used: nat)
    requires p < p' <= used && stack != []
    ensures Measure(p', stack[..|stack| - 1], used) < Measure(p, stack, used)
  {
    PowerGrows(used - p', used - p);
  }

  lemma FailureSlips(alts: Alts, c: Code, p: int, target: int)
    requires Program(alts, c) && IsAltStart(alts, p) && Fits(c, p) && c[p] == ON_FAILURE_JUMP && target == p + 3 + Number(c, p + 1)
    ensures var c0 := AltBytes(alts);
      Fits(c0, p) && !Reads(c0, p) && Slips(c0, p, p + 3) && Slips(c0, p, target) && forall q :: Slips(c0, p, q) ==> q == p + 3 || q == target
  {
    hide IsAltStart, Rewritten, AltBytes;
    SameInstruction(alts, c, p);
  }

  lemma FailureForward(alts: Alts, c: Code, p: int)
    requires Program(alts, c) && IsAltStart(alts, p) && Fits(c, p) && c[p] == ON_FAILURE_JUMP
    ensures Number(c, p + 1) >= 0
  {
    hide IsAltStart, Rewritten, AltBytes, IsAltLoop;
    SameInstruction(alts, c, p);
    AtAll(AltBytes(alts));
    BackwardAlts(alts, AltBytes(alts), 0, p);
  }

  /** A jump that does not go forward is the jump back of a loop, or leads to no failure jump. */
  lemma BackJump(alts: Alts, c: Code, p: int)
    requires Program(alts, c) && IsAltStart(alts, p) && Fits(c, p) && IsJump(c[p]) && Number(c, p + 1) <= 0
    ensures var c0 := AltBytes(alts);
      var t := p + 3 + Number(c, p + 1);
      && |c| == |c0| && Fits(c0, p)
      && (if c0[p] == MAYBE_POP_JUMP then IsAltLoop(alts, t, p) && LoopEnds(c0, t, p) && Target(c0, p) == t
          else t == p + 3 && (t == |c| || DummyAt(c0, t)))
  {
    hide IsAltStart, Rewritten, AltBytes, IsAltLoop;
    SameInstruction(alts, c, p);
    AtAll(AltBytes(alts));
    BackwardAlts(alts, AltBytes(alts), 0, p);
    NoPopJump(alts, p);
    if AltBytes(alts)[p] == MAYBE_POP_JUMP {
      AltLoopHasEnds(alts, AltBytes(alts), 0, p + 3 + Number(c, p + 1), p);
    }
  }

  /** At the jump back of a loop, the walk goes on behind the loop. */
  lemma OnWayLoop(alts: Alts, c: Code, k: Walker, seen: set<int>, fast: Fastmap, stack': seq<int>)
    requires |fast| == 256 && OnWay(alts, c, k, seen, fast) && k.p < |c|
    requires Fits(c, k.p) && IsJump(c[k.p]) && Number(c, k.p + 1) <= 0 && AltBytes(alts)[k.p] == MAYBE_POP_JUMP
    requires stack' == k.stack || (k.stack != [] && k.stack[|k.stack| - 1] == k.p + 3 && stack' == k.stack[..|k.stack| - 1])
    ensures k.p + 3 <= |c|
    ensures OnWay(alts, c, k.(p := k.p + 3, stack := stack'), seen + {k.p, k.p + 3 + Number(c, k.p + 1)}, fast)
    ensures Measure(k.p + 3, stack', |c|) < Measure(k.p, k.stack, |c|)
  {
    hide *;
    OnWayFacts(alts, c, k, seen, fast);
    BackJump(alts, c, k.p);
    FoundHere(alts, c, k, seen, fast);
    OnWayParts(alts, c, k, seen, fast);
    FitsInside(c, k.p);
    var t, p' := k.p + 3 + Number(c, k.p + 1), k.p + 3;
    LoopStart(alts, t, k.p);
    LoopMoves(alts, t, k.p);
    SlipToStart(alts, t, p');
    LoopInside(AltBytes(alts), t, k.p);
    MeasureFalls(k.p, p', k.stack, |c|);
    FrontMoves(k.p, k.stack, |c|, p', stack');
    var front, front' := Front(k.p, k.stack, |c|), Front(p', stack', |c|);
    if stack' != k.stack {
      MeasurePop(k.p, p', k.stack, |c|);
      StackInside(k.stack, |c|);
    }
    HandledAtExit(alts, c, seen + {k.p, t}, front', k.canBeNull || p' == |c|, p');
    LoopStep(alts, seen, front, k.canBeNull, fast, front', k.canBeNull || p' == |c|, k.p, t);
    OnWayFrom(alts, c, k.(p := p', stack := stack'), seen + {k.p, t}, fast);
  }

  lemma HandledAtExit(alts: Alts, c: Code, seen: set<int>, front: set<int>, nullable: bool, p: int)
    requires |c| == |AltBytes(alts)| && (p in front || (p == |c| && nullable))
    ensures Handled(AltBytes(alts), seen, front, nullable, p)
  {
  }

  lemma LoopInside(c: Code, t: int, l: int)
    requires LoopEnds(c, t, l)
    ensures 0 <= t && t + 3 <= l && l + 3 <= |c|
  {
  }

  lemma StackInside(stack: seq<int>, used: nat)
    requires stack != [] && forall i :: 0 <= i < |stack| ==> 0 <= stack[i] < used
    ensures 0 <= stack[|stack| - 1] < used
    ensures var rest := stack[..|stack| - 1]; forall i :: 0 <= i < |rest| ==> 0 <= rest[i] < used
  {
  }

  lemma LoopStart(alts: Alts, t: int, l: int)
    requires Good(alts) && Found(alts, l) && IsAltLoop(alts, t, l) && Fits(AltBytes(alts), l) && AltBytes(alts)[l] == MAYBE_POP_JUMP
    requires Target(AltBytes(alts), l) == t && LoopEnds(AltBytes(alts), t, l)
    ensures Found(alts, t)
  {
    hide IsAltStart, AltBytes, IsAltLoop, Reaches;
    assert Slips(AltBytes(alts), l, t);
    SlipToStart(alts, l, t);
  }

  // ---- the byte behind the code ----

  /** The jump that reads it: it ends the code, and leads there. */
  lemma IdleHere(alts: Alts, c: Code, p: int)
    requires Program(alts, c) && IsAltStart(alts, p) && Fits(c, p)
    ensures EmptyEnd(alts) && p == |c| - 3 ==> c[p] == JUMP_PAST_ALT && p + 2 < |c| && Number(c, p + 1) == 0
    ensures IsJump(c[p]) && p + 2 < |c| && Number(c, p + 1) <= 0 && p + 3 + Number(c, p + 1) == |c| ==> EmptyEnd(alts) && p == |c| - 3
  {
    hide IsAltStart, AltBytes, Rewritten, IsAltLoop, EndsIdle;
    SameInstruction(alts, c, p);
    var c0 := AltBytes(alts);
    if EmptyEnd(alts) && p == |c| - 3 {
      PastIsIdle(alts);
      EndOfIdle(alts, p);
    }
    if IsJump(c[p]) && p + 2 < |c| && Number(c, p + 1) <= 0 && p + 3 + Number(c, p + 1) == |c| {
      var t := p + 3 + Number(c, p + 1);
      BackJump(alts, c, p);
      LoopIsShort(alts, t, p);
      if c0[p] != MAYBE_POP_JUMP {
        EndsIdleFrom(c0, p);
        EmptyEndIsIdle(alts, p);
        EndOfIdle(alts, p);
      }
    }
  }

  lemma LoopIsShort(alts: Alts, t: int, l: int)
    ensures IsAltLoop(alts, t, l) ==> t < l
  {
    hide *;
    if IsAltLoop(alts, t, l) {
      AltLoopRange(alts, t, l);
    }
  }

  lemma EndOfIdle(alts: Alts, p: int)
    requires EmptyEnd(alts)
    ensures |AltBytes(alts)| == |FrontBytes(alts.front)| + 3
    ensures EndsIdle(AltBytes(alts), p) ==> p + 3 == |AltBytes(alts)| && p + 2 < |AltBytes(alts)| && Number(AltBytes(alts), p + 1) == 0
  {
  }

  lemma EndsIdleFrom(c: Code, p: int)
    requires Fits(c, p) && IsJump(c[p]) && p + 3 == |c| && Number(c, p + 1) == 0
    ensures EndsIdle(c, p)
  {
  }

  /** Where the walk has seen everything, it has seen every place that is reached without reading. */
  lemma {:induction false} SeenAlong(alts: Alts, seen: set<int>, nullable: bool, fast: Fastmap, v: int, q: int, n: nat)
    requires Good(alts) && |fast| == 256 && Explored(AltBytes(alts), seen, {}, nullable, fast)
    requires v in seen && Runs(AltBytes(alts), [], v, 0, q, 0, n)
    ensures q in seen || q == |AltBytes(alts)|
    decreases n
  {
    hide AltBytes, Eaten;
    var c := AltBytes(alts);
    if n > 0 {
      var x, e := FirstMove(c, [], v, 0, q, 0, n);
      SlipIsMove(c, [], v, 0, x, e);
      assert Handled(c, seen, {}, nullable, x);
      if x == |c| && x !in seen {
        Stuck(c, [], 0, q, 0, n - 1);
      } else {
        SeenAlong(alts, seen, nullable, fast, x, q, n - 1);
      }
    }
  }

  /** So it has come to the jump behind the alternatives exactly when one before the last matches nothing. */
  lemma IdleSeen(alts: Alts, seen: set<int>, nullable: bool, fast: Fastmap)
    requires Good(alts) && |fast| == 256 && Walk(alts, seen, {}, nullable, fast) && EmptyEnd(alts)
    ensures |AltBytes(alts)| - 3 in seen <==> Denotes(MeansFront(alts.front), [])
  {
    hide AltBytes, FrontBytes, Denotes, IsAltStart, Explored, Entered, Runs, IsAltLoop;
    var c, k := AltBytes(alts), |FrontBytes(alts.front)|;
    EndOfIdle(alts, k);
    FrontReached(alts);
    if k in seen {
      assert Found(alts, k);
    }
    if Reaches(c, [], 0, 0, k, 0) {
      var n := ReachesRuns(c, [], 0, 0, k, 0);
      assert 0 in seen;
      SeenAlong(alts, seen, nullable, fast, 0, k, n);
    }
  }

  /** `Stray`: the byte behind the code was taken for the failure jump of a loop, and the walk has left
      the code. */
  datatype Walked = Done | NoStack | Stray

  /** `re_compile_fastmap`.  It says whether the pattern matches the empty string; when it does not,
      every match begins with a character of the map.  Pushing may find no memory.  The byte behind the
      code is `next`, left over in the buffer or outside of it; `over` tells that it is read, and `cut`
      that the walk stops early because the map does not matter any more. */
  method CompileFastmap(buffer: array<Byte>, used: nat, next: Byte, fastmap: array<bool>, ghost alts: Alts)
      returns (out: Walked, canBeNull: bool, ghost over: bool, ghost cut: bool)
    requires used <= buffer.Length && Program(alts, buffer[..used]) && fastmap.Length == 256
    requires used < buffer.Length ==> next == buffer[used]
    modifies fastmap
    ensures out == Done ==> (canBeNull <==> Nullable(alts))
    ensures out == Done && !canBeNull ==> Covers(alts, fastmap[..])
    ensures over ==> EmptyEnd(alts) && Denotes(MeansFront(alts.front), [])
    ensures out == Done && !cut ==> (over <==> EmptyEnd(alts) && Denotes(MeansFront(alts.front), []))
    ensures out == Stray <==> over && next == ON_FAILURE_JUMP
    ensures cut ==> out == Done && canBeNull
  {
    hide *;
    ghost var c, seen := buffer[..used], {};
    forall i | 0 <= i < 256 {
      fastmap[i] := false;
    }
    assert buffer[..used] == c;
    var k := Walker(0, [], true, false);
    over, cut := false, false;
    OnWayStart(alts, c, fastmap[..]);
    while k.p != used || k.stack != []
      invariant k.p <= used && buffer[..used] == c && OnWay(alts, c, k, seen, fastmap[..]) && !cut
      invariant over <==> EmptyEnd(alts) && used - 3 in seen
      invariant over ==> next != ON_FAILURE_JUMP
      decreases Measure(k.p, k.stack, used)
    {
      if k.p == used {
        OnWayPop(alts, c, k, seen, fastmap[..]);
        k := Walker(k.stack[|k.stack| - 1], k.stack[..|k.stack| - 1], true, k.canBeNull || k.pathNull);
      }
      OverIsNullable(alts, c, k, seen, fastmap[..]);
      if k.p < used && buffer[k.p] == ON_FAILURE_JUMP {
        var room: bool := *;
        if !room {
          return NoStack, k.canBeNull, over, cut;
        }
      }
      OnWayParts(alts, c, k, seen, fastmap[..]);
      ReadNow(alts, c, k, seen, fastmap[..]);
      var done, stray;
      ghost var read;
      k, done, stray, read, seen := Visit(buffer, used, next, fastmap, k, alts, seen);
      over := over || read;
      if stray {
        return Stray, k.canBeNull, over, cut;
      }
      if done {
        cut := true;
        return Done, true, over, cut;
      }
    }
    canBeNull := k.canBeNull || k.pathNull;
    out := Done;
    OnWayParts(alts, c, k, seen, fastmap[..]);
    if !canBeNull {
      AllSeen(alts, c, k, seen, fastmap[..]);
      CoveredIsNotNullable(alts, fastmap[..]);
    }
    OverAtEnd(alts, c, k, seen, fastmap[..]);
  }

  /** The jump has been come to, so the alternatives before it can match nothing. */
  lemma OverIsNullable(alts: Alts, c: Code, k: Walker, seen: set<int>, fast: Fastmap)
    requires |fast| == 256 && OnWay(alts, c, k, seen, fast)
    ensures EmptyEnd(alts) && |c| - 3 in seen ==> Denotes(MeansFront(alts.front), [])
  {
    hide AltBytes, FrontBytes, Denotes, IsAltStart, Explored, Entered, Runs, IsAltLoop, Rewritten;
    if EmptyEnd(alts) && |c| - 3 in seen {
      RewrittenLength(alts, c);
      EndOfIdle(alts, 0);
      FrontReached(alts);
      assert Found(alts, |c| - 3);
    }
  }

  /** And if it is come to now. */
  lemma ReadNow(alts: Alts, c: Code, k: Walker, seen: set<int>, fast: Fastmap)
    requires |fast| == 256 && OnWay(alts, c, k, seen, fast) && k.p < |c|
    ensures EmptyEnd(alts) && k.p == |c| - 3 ==> Denotes(MeansFront(alts.front), [])
  {
    hide AltBytes, FrontBytes, Denotes, IsAltStart, Explored, Entered, Runs, IsAltLoop, Rewritten;
    if EmptyEnd(alts) && k.p == |c| - 3 {
      RewrittenLength(alts, c);
      EndOfIdle(alts, 0);
      FrontReached(alts);
      FoundHere(alts, c, k, seen, fast);
    }
  }

  lemma OverAtEnd(alts: Alts, c: Code, k: Walker, seen: set<int>, fast: Fastmap)
    requires |fast| == 256 && OnWay(alts, c, k, seen, fast) && k.p == |c| && k.stack == []
    ensures EmptyEnd(alts) ==> (|c| - 3 in seen <==> Denotes(MeansFront(alts.front), []))
  {
    hide Walk, Denotes, Rewritten, AltBytes;
    if EmptyEnd(alts) {
      RewrittenLength(alts, c);
      assert Front(k.p, k.stack, |c|) == {};
      IdleSeen(alts, seen, k.canBeNull || k.pathNull, fast);
    }
  }

  lemma CoveredIsNotNullable(alts: Alts, fast: Fastmap)
    requires |fast| == 256 && Covers(alts, fast)
    ensures !Nullable(alts)
  {
    hide Denotes;
  }

  lemma AllSeen(alts: Alts, c: Code, k: Walker, seen: set<int>, fast: Fastmap)
    requires |fast| == 256 && OnWay(alts, c, k, seen, fast) && k.p == |c| && k.stack == [] && !k.canBeNull && !k.pathNull
    ensures Covers(alts, fast)
  {
    hide Walk, Covers, Rewritten;
    assert Front(k.p, k.stack, |c|) == {};
    WalkCovers(alts, seen, fast);
  }

  /** One instruction of the walk.  `done` is the early return of `anychar` when the map no longer
      matters. */
  method Visit(buffer: array<Byte>, used: nat, next: Byte, fastmap: array<bool>, k: Walker, ghost alts: Alts, ghost seen: set<int>)
    returns (k': Walker, done: bool, stray: bool, ghost read: bool, ghost seen': set<int>)
    requires used <= buffer.Length && fastmap.Length == 256 && k.p < used && OnWay(alts, buffer[..used], k, seen, fastmap[..])
    modifies fastmap
    ensures done ==> k.canBeNull && !read
    ensures read <==> EmptyEnd(alts) && k.p == used - 3
    ensures stray <==> read && next == ON_FAILURE_JUMP
    ensures EmptyEnd(alts) ==> (used - 3 in seen' <==> used - 3 in seen || k.p == used - 3)
    ensures !done && !stray ==> k'.p <= used && OnWay(alts, buffer[..used], k', seen', fastmap[..])
    ensures !done && !stray ==> Measure(k'.p, k'.stack, used) < Measure(k.p, k.stack, used)
  {
    hide *;
    ghost var c, was := buffer[..used], fastmap[..];
    var p := k.p;
    OnWayFacts(alts, c, k, seen, was);
    FitsInside(c, p);
    KnownVisit(alts, c, p);
    IdleHere(alts, c, p);
    Opcodes();
    seen', done, k' := seen + {p}, false, k;
    stray, read := false, false;
    var op := buffer[p];
    if op == EXACTN {
      fastmap[buffer[p + 2]] := true;
      OnWayRead(alts, c, k, seen, was, fastmap[..]);
      k' := Walker(used, k.stack, false, k.canBeNull);
    } else if op == ANYCHAR {
      forall i | 0 <= i < 256 {
        fastmap[i] := true;
      }
      if k.canBeNull {
        done := true;
        return;
      }
      IsAllSet(fastmap[..]);
      OnWayRead(alts, c, k, seen, was, fastmap[..]);
      k' := Walker(used, k.stack, false, k.canBeNull);
    } else if op == PUSH_DUMMY_FAILURE {
      DummyMove(c, [], p, 0);
      OnWaySlip(alts, c, k, seen, was, p + 1);
      k' := k.(p := p + 1);
    } else if op == START_MEMORY || op == STOP_MEMORY {
      SkipMove(c, [], p, 0);
      OnWaySlip(alts, c, k, seen, was, p + 3);
      k' := k.(p := p + 3);
    } else if op == ON_FAILURE_JUMP {
      var target := p + 3 + Number(buffer[..used], p + 1);
      OnWayFailure(alts, c, k, seen, was, target);
      if target < used {
        k' := k.(p := p + 3, stack := k.stack + [target]);
      } else {
        k' := k.(p := p + 3, canBeNull := true);
      }
    } else {
      k', stray, read, seen' := VisitJump(buffer, used, next, k, alts, seen, was);
    }
    assert buffer[..used] == c;
  }

  lemma FitsInside(c: Code, p: int)
    requires Fits(c, p)
    ensures 0 <= p < |c| && (c[p] == EXACTN || c[p] == START_MEMORY || c[p] == STOP_MEMORY || c[p] == ON_FAILURE_JUMP || IsJump(c[p]) ==> p + 2 < |c|)
    ensures (Reads(c, p) <==> c[p] == EXACTN || c[p] == ANYCHAR) && EXACTN != ANYCHAR
    ensures c[p] == EXACTN || c[p] == ANYCHAR || c[p] == PUSH_DUMMY_FAILURE || c[p] == START_MEMORY || c[p] == STOP_MEMORY
      || c[p] == ON_FAILURE_JUMP || IsJump(c[p])
    ensures c[p] == PUSH_DUMMY_FAILURE || c[p] == START_MEMORY || c[p] == STOP_MEMORY ==> c[p] != ON_FAILURE_JUMP && !Reads(c, p)
    ensures IsJump(c[p]) ==> c[p] != ON_FAILURE_JUMP && !Reads(c, p)
  {
  }

  lemma IsAllSet(fast: Fastmap)
    requires |fast| == 256 && forall i :: 0 <= i < 256 ==> fast[i]
    ensures AllSet(fast)
  {
  }

  lemma KnownVisit(alts: Alts, c: Code, p: int)
    requires Program(alts, c)
    ensures Good(alts)
  {
  }

  lemma Opcodes()
    ensures IsJump(JUMP_PAST_ALT) && !IsJump(ON_FAILURE_JUMP)
    ensures JUMP_PAST_ALT != EXACTN && JUMP_PAST_ALT != ANYCHAR && JUMP_PAST_ALT != PUSH_DUMMY_FAILURE && JUMP_PAST_ALT != START_MEMORY
    ensures JUMP_PAST_ALT != STOP_MEMORY && JUMP_PAST_ALT != ON_FAILURE_JUMP
  {
  }

  /** A jump, or the jump back of a loop, after which the loop's own waiting exit is dropped.  The byte
      at the target is looked at even behind the code. */
  method VisitJump(buffer: array<Byte>, used: nat, next: Byte, k: Walker, ghost alts: Alts, ghost seen: set<int>, ghost fast: Fastmap)
    returns (k': Walker, stray: bool, ghost read: bool, ghost seen': set<int>)
    requires used <= buffer.Length && |fast| == 256 && k.p < used && OnWay(alts, buffer[..used], k, seen, fast) && IsJump(buffer[k.p])
    ensures read <==> EmptyEnd(alts) && k.p == used - 3
    ensures stray <==> read && next == ON_FAILURE_JUMP
    ensures EmptyEnd(alts) ==> (used - 3 in seen' <==> used - 3 in seen || k.p == used - 3)
    ensures !stray ==> k'.p <= used && OnWay(alts, buffer[..used], k', seen', fast)
    ensures !stray ==> Measure(k'.p, k'.stack, used) < Measure(k.p, k.stack, used)
  {
    hide *;
    ghost var c := buffer[..used];
    var p := k.p;
    OnWayFacts(alts, c, k, seen, fast);
    FitsInside(c, p);
    IdleHere(alts, c, p);
    Opcodes();
    JumpMove(c, [], p, 0);
    var j := Number(buffer[..used], p + 1);
    var target := p + 3 + j;
    seen', stray, read, k' := seen + {p}, false, false, k;
    if j > 0 {
      OnWaySlip(alts, c, k, seen, fast, target);
      k' := k.(p := target);
      return;
    }
    BackJump(alts, c, p);
    BackTarget(alts, c, p, target);
    read := target == used;
    var op := if target < used then buffer[target] else next;
    if op != ON_FAILURE_JUMP {
      OnWaySlip(alts, c, k, seen, fast, target);
      k' := k.(p := target);
      return;
    }
    if target == used {
      stray := true;
      return;
    }
    LoopStartIsNotIdle(alts, c, target);
    var exit := target + 3 + Number(buffer[..used], target + 1);
    var stack := k.stack;
    if stack != [] && stack[|stack| - 1] == exit {
      stack := stack[..|stack| - 1];
    }
    OnWayLoop(alts, c, k, seen, fast, stack);
    seen' := seen + {p, target};
    k' := k.(p := exit, stack := stack);
  }

  lemma LoopStartIsNotIdle(alts: Alts, c: Code, t: int)
    requires Program(alts, c) && 0 <= t < |c| && c[t] == ON_FAILURE_JUMP
    ensures EmptyEnd(alts) ==> t != |c| - 3
  {
    hide AltBytes, IsAltStart, Rewritten, FrontBytes;
    if EmptyEnd(alts) {
      PastIsIdle(alts);
      EndOfIdle(alts, 0);
      RewrittenLength(alts, c);
      SameInstruction(alts, c, |FrontBytes(alts.front)|);
    }
  }

  /** What stands at the target of a jump that does not go forward. */
  lemma BackTarget(alts: Alts, c: Code, p: int, t: int)
    requires Program(alts, c) && IsAltStart(alts, p) && Fits(c, p) && IsJump(c[p]) && Number(c, p + 1) <= 0 && t == p + 3 + Number(c, p + 1)
    ensures if AltBytes(alts)[p] == MAYBE_POP_JUMP then
        0 <= t && t + 2 < |c| && c[t] == ON_FAILURE_JUMP && t + 3 + Number(c, t + 1) == p + 3
      else
        t == p + 3 && 0 <= t <= |c| && (t < |c| ==> c[t] != ON_FAILURE_JUMP)
  {
    hide IsAltStart, AltBytes, IsAltLoop;
    var c0 := AltBytes(alts);
    BackJump(alts, c, p);
    if c0[p] == MAYBE_POP_JUMP {
      LoopTarget(alts, t, p);
      SameInstruction(alts, c, t);
    } else if t < |c| {
      OpcodeKept(alts, c, t);
    }
  }

  lemma LoopTarget(alts: Alts, t: int, l: int)
    requires Good(alts) && IsAltLoop(alts, t, l) && LoopEnds(AltBytes(alts), t, l)
    ensures IsAltStart(alts, t)
  {
    AltLoopStart(alts, t, l);
  }
}
