/** Where the search ends, it has read a string that the pattern takes. */
module RegexEnds {
  import opened Wrappers
  import opened RegexLanguage
  import opened RegexCode
  import opened RegexCourse
  import opened RegexMeaning
  import opened RegexTidy
  import opened RegexHalts
  import opened RegexBudget
  import opened RegexTurns
  import opened RegexTakes
  import opened RegexWins

  /** The end of the program can be reached in k turns, with the string read up to e. */
  ghost predicate EndsIn(c: Code, text: Text, p: nat, d: nat, truth: set<int>, e: nat, k: nat)
    decreases k
  {
    if k == 0 then p == |c| && d == e
    else p != |c| && exists q: nat, x: nat :: Turn(c, text, p, d, truth, q, x) && EndsIn(c, text, q, x, After(c, p, truth), e, k - 1)
  }

  /** The way that is still to go: the place, the groups that have matched something, and the turns. */
  datatype Way = Way(d: nat, truth: set<int>, k: nat)

  ghost predicate Left(c: Code, text: Text, p: nat, w: Way, e: nat) {
    w.d <= |text| && EndsIn(c, text, p, w.d, w.truth, e, w.k)
  }

  lemma NextTurn(c: Code, text: Text, p: nat, w: Way, e: nat) returns (q: nat, w': Way)
    requires Left(c, text, p, w, e) && p < |c|
    ensures w.k == w'.k + 1 && w'.truth == After(c, p, w.truth) && Turn(c, text, p, w.d, w.truth, q, w'.d) && Left(c, text, q, w', e)
  {
    hide After;
    var x: nat;
    q, x :| Turn(c, text, p, w.d, w.truth, q, x) && EndsIn(c, text, q, x, After(c, p, w.truth), e, w.k - 1);
    TurnInside(c, text, p, w.d, w.truth, q, x);
    w' := Way(x, After(c, p, w.truth), w.k - 1);
  }

  lemma TurnInside(c: Code, text: Text, p: nat, d: nat, truth: set<int>, q: nat, e: nat)
    requires Turn(c, text, p, d, truth, q, e) && d <= |text|
    ensures e <= |text|
  {
    hide GetsOut;
  }

  lemma LeftInside(c: Code, text: Text, p: nat, w: Way, e: nat)
    requires Left(c, text, p, w, e)
    ensures w.d <= |text|
  {
  }

  /** A jump, or a mark that changes nothing. */
  lemma JumpTurn(c: Code, text: Text, p: nat, w: Way, e: nat, q: nat) returns (w': Way)
    requires Left(c, text, p, w, e) && p < |c|
    requires
      || (q == JumpsTo(c, p) && (Peek(c, p) == MAYBE_POP_JUMP || Peek(c, p) == JUMP_PAST_ALT || Peek(c, p) == DUMMY_FAILURE_JUMP))
      || (Peek(c, p) == PUSH_DUMMY_FAILURE && q == p + 1)
    ensures w' == w.(k := w'.k) && w'.k < w.k && Left(c, text, q, w', e)
  {
    hide EndsIn;
    var q';
    q', w' := NextTurn(c, text, p, w, e);
  }

  lemma FailureTurn(c: Code, text: Text, p: nat, w: Way, e: nat) returns (q: nat, w': Way)
    requires Left(c, text, p, w, e) && p < |c| && Peek(c, p) == ON_FAILURE_JUMP
    ensures (q == p + 3 || q == JumpsTo(c, p)) && w' == w.(k := w'.k) && w'.k < w.k && Left(c, text, q, w', e)
  {
    hide EndsIn;
    q, w' := NextTurn(c, text, p, w, e);
  }

  /** From w to w', a string that r denotes has been read, and the groups up to n have been noted. */
  ghost predicate Read(r: Regex, n: nat, text: Text, w: Way, w': Way) {
    w.d <= w'.d <= |text| && Denotes(r, text[w.d..w'.d]) && Outer(n, w.d < w'.d, w.truth, w'.truth)
  }

  lemma ReadMore(r: Regex, r': Regex, n: nat, text: Text, w: Way, w': Way)
    requires Read(r, n, text, w, w') && (Denotes(r, text[w.d..w'.d]) ==> Denotes(r', text[w.d..w'.d]))
    ensures Read(r', n, text, w, w')
  {
    hide Denotes, Outer;
  }

  lemma ReadNothing(r: Regex, n: nat, text: Text, w: Way, w': Way)
    requires w'.d == w.d <= |text| && w'.truth == w.truth && Denotes(r, [])
    ensures Read(r, n, text, w, w')
  {
    hide Denotes;
    assert text[w.d..w.d] == [];
  }

  lemma ReadBoth(a: Regex, b: Regex, n: nat, m: nat, text: Text, w: Way, w1: Way, w2: Way)
    requires Read(a, n, text, w, w1) && Read(b, m, text, w1, w2) && n <= m
    ensures Read(Cat(a, b), n, text, w, w2)
  {
    hide Denotes;
    var u, v := text[w.d..w1.d], text[w1.d..w2.d];
    assert text[w.d..w2.d] == u + v;
    CatOf(a, b, u, v);
  }

  /** Only the turns left, or nothing that matters, has changed. */
  lemma ReadSame(r: Regex, n: nat, text: Text, w: Way, w': Way, v: Way, v': Way)
    requires Read(r, n, text, w, w') && v.d == w.d && v'.d == w'.d && v.truth == w.truth && v'.truth == w'.truth
    ensures Read(r, n, text, v, v')
  {
    hide Denotes, Outer;
  }

  lemma LeafEnds(f: Frag, n: nat, c: Code, o: nat, text: Text, w: Way, e: nat) returns (w': Way)
    requires Put(f, n, c, o) && !f.Then? && !f.Again? && !f.Group? && Left(c, text, o, w, e)
    ensures w'.k <= w.k && (|Bytes(f)| > 0 ==> w'.k < w.k) && Left(c, text, o + |Bytes(f)|, w', e) && Read(Takes(f), n, text, w, w')
  {
    hide EndsIn, Outer, Denotes;
    LeafOpcode(f, c, o);
    OuterSelf(n, w.truth);
    OuterFed(n, w.truth);
    if f.Nothing? {
      w' := w;
      EmptyTaken(text, w.d);
    } else {
      AtInside(c, o, Bytes(f));
      var q;
      q, w' := NextTurn(c, text, o, w, e);
      if f.Exact? {
        ExactReads(f.chars, c, o);
        WordDenotes(f.chars, text[w.d..w'.d]);
      } else if f.AnyChar? {
        AnyTaken(text, w.d);
      } else {
        EmptyTaken(text, w.d);
      }
    }
  }

  lemma EmptyTaken(text: Text, d: nat)
    requires d <= |text|
    ensures Denotes(Empty, text[d..d])
  {
  }

  lemma AnyTaken(text: Text, d: nat)
    requires d < |text| && text[d] != 0
    ensures Denotes(Any, text[d..d + 1])
  {
  }

  lemma {:induction false} FragEnds(f: Frag, n: nat, c: Code, o: nat, text: Text, w: Way, e: nat) returns (w': Way)
    requires Put(f, n, c, o) && Clear(c, o + |Bytes(f)|) && Left(c, text, o, w, e)
    ensures w'.k <= w.k && (|Bytes(f)| > 0 ==> w'.k < w.k) && Left(c, text, o + |Bytes(f)|, w', e) && Read(Takes(f), n, text, w, w')
    decreases f, w.k, 4
  {
    hide *;
    TakesParts(f);
    match f
    case Then(a, b) =>
      PutThen(a, b, n, c, o, 0);
      var m, k := n + Groups(a), |Bytes(a)|;
      ClearBehind(b, m, c, o + k, o + |Bytes(f)|);
      var w1 := FragEnds(a, n, c, o, text, w, e);
      w' := FragEnds(b, m, c, o + k, text, w1, e);
      ReadBoth(Takes(a), Takes(b), n, m, text, w, w1, w');
    case Again(_, _, _) => w' := AgainEnds(f, n, c, o, text, w, e);
    case Group(reg, inner, alts) =>
      PutGroup(reg, inner, alts, n, c, o, 0);
      var w1 := GroupEnds(f, n, c, o, text, w, e);
      w' := StopTurn(c, text, o + |Bytes(f)| - 3, w1, e);
      ReadSame(Takes(f), n, text, w, w1, w, w');
    case _ => w' := LeafEnds(f, n, c, o, text, w, e);
  }

  /** A group's end that no loop is around. */
  lemma StopTurn(c: Code, text: Text, stop: nat, w: Way, e: nat) returns (w': Way)
    requires stop < |c| && Peek(c, stop) == STOP_MEMORY && Clear(c, stop + 3) && Left(c, text, stop, w, e)
    ensures w' == w.(k := w'.k) && w'.k < w.k && Left(c, text, stop + 3, w', e)
  {
    hide EndsIn;
    var q;
    q, w' := NextTurn(c, text, stop, w, e);
  }

  /** Through a group, up to its end mark. */
  lemma {:induction false} GroupEnds(f: Frag, n: nat, c: Code, o: nat, text: Text, w: Way, e: nat) returns (w': Way)
    requires Put(f, n, c, o) && f.Group? && Left(c, text, o, w, e)
    ensures w'.k < w.k && Left(c, text, o + |Bytes(f)| - 3, w', e) && Read(Takes(f), n, text, w, w') && (n + 1 in w'.truth <==> w.d < w'.d)
    decreases f, w.k, 3
  {
    hide *;
    TakesParts(f);
    PutGroup(f.reg, f.inner, f.alts, n, c, o, 0);
    var v := |AltBytes(f.alts)|;
    var w1 := StartTurn(c, text, o, n + 1, w, e);
    ClearMark(c, o + 3 + v);
    var w2 := AltsEnd(f.alts, n + 1, c, o + 3, text, w1, e);
    if f.alts.front.None? {
      w' := w2;
    } else {
      w' := JumpTurn(c, text, o + 3 + v, w2, e, o + |Bytes(f)| - 3);
    }
    GroupNoted(Takes(f), n, text, w, w1, w2, w');
  }

  lemma StartTurn(c: Code, text: Text, o: nat, reg: nat, w: Way, e: nat) returns (w': Way)
    requires o < |c| && Peek(c, o) == START_MEMORY && Peek(c, o + 1) == reg && Left(c, text, o, w, e)
    ensures w'.k < w.k && w'.d == w.d && w'.truth == w.truth - {reg as int} && Left(c, text, o + 3, w', e)
  {
    hide EndsIn;
    var q;
    q, w' := NextTurn(c, text, o, w, e);
  }

  lemma GroupNoted(r: Regex, n: nat, text: Text, w: Way, w1: Way, w2: Way, w3: Way)
    requires Read(r, n + 1, text, w1, w2) && w1.d == w.d && w1.truth == w.truth - {n + 1} && w3.d == w2.d && w3.truth == w2.truth
    ensures Read(r, n, text, w, w3) && (n + 1 in w3.truth <==> w.d < w3.d)
  {
    hide Denotes;
  }

  // ---- loops ----

  ghost predicate More(f: Frag)
    requires f.Again?
  {
    f.many && !Disturbed(f.body)
  }

  lemma MoreIs(f: Frag)
    requires f.Again?
    ensures More(f) == (f.many && !Disturbed(f.body))
  {
  }

  lemma {:induction false} AgainEnds(f: Frag, n: nat, c: Code, o: nat, text: Text, w: Way, e: nat) returns (w': Way)
    requires Put(f, n, c, o) && f.Again? && Clear(c, o + |Bytes(f)|) && Left(c, text, o, w, e)
    ensures w'.k < w.k && Left(c, text, o + |Bytes(f)|, w', e) && Read(Takes(f), n, text, w, w')
    decreases f, w.k, 3
  {
    hide *;
    TakesParts(f);
    MoreIs(f);
    AgainParts(f, n, c, o);
    AgainInsideCode(f, n, c, o);
    if f.zero {
      w' := LoopEnd(f, n, c, o, text, w, e);
    } else {
      var w1 := JumpTurn(c, text, o, w, e, o + 6);
      w' := RoundEnds(f, n, c, o, text, w1, e);
      ReadSame(Rep(Takes(f.body), false, More(f)), n, text, w1, w', w, w');
    }
  }

  lemma AgainInsideCode(f: Frag, n: nat, c: Code, o: nat)
    requires Put(f, n, c, o) && f.Again?
    ensures o + |Bytes(f)| <= |c|
  {
    AtInside(c, o, Bytes(f));
  }

  /** From the failure jump of a loop on. */
  lemma {:induction false} LoopEnd(f: Frag, n: nat, c: Code, o: nat, text: Text, w: Way, e: nat) returns (w': Way)
    requires Put(f, n, c, o) && f.Again? && (f.zero || f.many) && (!f.many ==> Clear(c, o + |Bytes(f)|)) && Left(c, text, o + Body(f.zero) - 3, w, e)
    ensures w'.k < w.k && Left(c, text, o + |Bytes(f)|, w', e) && Read(Rep(Takes(f.body), true, More(f)), n, text, w, w')
    decreases f, w.k, 2
  {
    hide *;
    AgainParts(f, n, c, o);
    AgainInsideCode(f, n, c, o);
    var q, w1 := FailureTurn(c, text, o + Body(f.zero) - 3, w, e);
    RepEmpty(Takes(f.body), More(f));
    if q == o + |Bytes(f)| {
      w' := w1;
      LeftInside(c, text, q, w', e);
      ReadNothing(Rep(Takes(f.body), true, More(f)), n, text, w, w');
    } else {
      w' := RoundEnds(f, n, c, o, text, w1, e);
      ReadDenotes(Rep(Takes(f.body), false, More(f)), n, text, w1, w');
      RepMore(Takes(f.body), More(f), text[w1.d..w'.d]);
      ReadMore(Rep(Takes(f.body), false, More(f)), Rep(Takes(f.body), true, More(f)), n, text, w1, w');
      ReadSame(Rep(Takes(f.body), true, More(f)), n, text, w1, w', w, w');
    }
  }

  lemma RepEmpty(r: Regex, many: bool)
    ensures Denotes(Rep(r, true, many), [])
  {
  }

  lemma RepMore(r: Regex, many: bool, w: Text)
    ensures Denotes(Rep(r, false, many), w) ==> Denotes(Rep(r, true, many), w)
  {
    if many && Denotes(Cat(r, Star(r)), w) {
      hide Denotes;
      var i := CatSplit(r, Star(r), w);
      StarOf(r, w[..i], w[i..]);
      Pieces(w, i);
    }
  }

  /** From the body of a loop on: one round, and more if the loop goes on. */
  lemma {:induction false} RoundEnds(f: Frag, n: nat, c: Code, o: nat, text: Text, w: Way, e: nat) returns (w': Way)
    requires Put(f, n, c, o) && f.Again? && (f.zero || f.many) && (!f.many ==> Clear(c, o + |Bytes(f)|)) && Left(c, text, o + Body(f.zero), w, e)
    ensures w'.k < w.k && Left(c, text, o + |Bytes(f)|, w', e) && Read(Rep(Takes(f.body), false, More(f)), n, text, w, w')
    decreases f, w.k, 1
  {
    hide *;
    AgainParts(f, n, c, o);
    AgainInsideCode(f, n, c, o);
    MoreIs(f);
    var b, k := f.body, Body(f.zero);
    var l := o + k + |Bytes(b)|;
    SingleIs(b, n, c, o + k);
    RepIs(Takes(b), More(f));
    if !f.many {
      w' := FragEnds(b, n, c, o + k, text, w, e);
    } else {
      var w1, over := BodyEnds(f, n, c, o, text, w, e);
      if over {
        w' := w1;
        OneRound(Takes(b), More(f), n, text, w, w1);
      } else {
        var w2 := JumpTurn(c, text, l, w1, e, o + k - 3);
        w' := LoopEnd(f, n, c, o, text, w2, e);
        ReadSame(Rep(Takes(b), true, More(f)), n, text, w2, w', w1, w');
        ReadBoth(Takes(b), Rep(Takes(b), true, More(f)), n, n, text, w, w1, w');
      }
    }
  }

  lemma RepIs(r: Regex, many: bool)
    ensures Rep(r, true, true) == Star(r) && Rep(r, false, many) == if many then Cat(r, Star(r)) else r
  {
  }

  lemma OneRound(r: Regex, many: bool, n: nat, text: Text, w: Way, w': Way)
    requires Read(r, n, text, w, w')
    ensures Read(Rep(r, false, many), n, text, w, w')
  {
    hide Denotes;
    if many {
      RepEmpty(r, true);
      ReadNothing(Star(r), n, text, w', w');
      ReadBoth(r, Star(r), n, n, text, w, w', w');
    }
  }

  /** Through the body of a loop: to the jump back, or behind the loop. */
  lemma {:induction false} BodyEnds(f: Frag, n: nat, c: Code, o: nat, text: Text, w: Way, e: nat) returns (w': Way, over: bool)
    requires Put(f, n, c, o) && f.Again? && f.many && Left(c, text, o + Body(f.zero), w, e)
    ensures w'.k < w.k && Read(Takes(f.body), n, text, w, w')
    ensures Left(c, text, if over then o + |Bytes(f)| else o + Body(f.zero) + |Bytes(f.body)|, w', e)
    ensures !over ==> More(f)
    decreases f, w.k, 0
  {
    hide *;
    AgainParts(f, n, c, o);
    AgainInsideCode(f, n, c, o);
    MoreIs(f);
    var b, k := f.body, Body(f.zero);
    SingleIs(b, n, c, o + k);
    DisturbedIs(b);
    if b.Group? {
      BodyStop(f, n, c, o);
      var w1 := GroupEnds(b, n, c, o + k, text, w, e);
      w', over := EndTurn(c, text, o + k + |Bytes(b)| - 3, w1, e);
      ReadSame(Takes(b), n, text, w, w1, w, w');
    } else {
      SingleLeaf(b);
      w' := LeafEnds(b, n, c, o + k, text, w, e);
      over := false;
    }
  }

  lemma EndTurn(c: Code, text: Text, stop: nat, w: Way, e: nat) returns (w': Way, over: bool)
    requires stop < |c| && Peek(c, stop) == STOP_MEMORY && Left(c, text, stop, w, e)
    ensures w' == w.(k := w'.k) && w'.k < w.k && Left(c, text, if over then stop + 6 else stop + 3, w', e)
    ensures !over && Exits(c, stop) ==> Peek(c, stop - 2) != START_MEMORY
  {
    hide EndsIn, Exits;
    var q;
    q, w' := NextTurn(c, text, stop, w, e);
    over := q == stop + 6;
  }

  // ---- alternatives ----

  /** Through the alternatives but the last: behind one of them, or past them all with nothing read. */
  lemma {:induction false} FrontEnds(front: Front, n: nat, c: Code, o: nat, text: Text, w: Way, e: nat) returns (w': Way, past: bool)
    requires front.More? && PutFront(front, n, c, o) && Peek(c, o + |FrontBytes(front)|) == JUMP_PAST_ALT && Left(c, text, o, w, e)
    ensures w'.k < w.k && Left(c, text, o + |FrontBytes(front)| + (if past then 3 else 0), w', e)
    ensures if past then w' == w.(k := w'.k) else Read(TakesFront(front), n, text, w, w')
    decreases front, w.k, 4
  {
    hide *;
    PutInFront(front, n, c, o, 0);
    FrontInsideCode(front, n, c, o);
    var before, branch, k, m := front.before, front.branch, FrontSize(front.before), n + GroupsFront(front.before);
    var end := o + |FrontBytes(front)|;
    var w1, passed := w, true;
    if before.More? {
      w1, passed := FrontEnds(before, n, c, o, text, w, e);
    }
    if passed {
      var q, w2 := FailureTurn(c, text, o + k, w1, e);
      past := q == end + 3;
      w' := w2;
      if !past {
        ClearMark(c, end);
        w' := FragEnds(branch, m, c, o + k + 3, text, w2, e);
        ReadSame(Takes(branch), m, text, w2, w', w, w');
        ReadLess(Takes(branch), n, m, text, w, w');
        ReadDenotes(Takes(branch), n, text, w, w');
        TakesFrontParts(front, text[w.d..w'.d]);
        ReadMore(Takes(branch), TakesFront(front), n, text, w, w');
      }
    } else {
      w' := JumpTurn(c, text, o + k - 3, w1, e, end);
      past := false;
      ReadDenotes(TakesFront(before), n, text, w, w1);
      TakesFrontParts(front, text[w.d..w1.d]);
      ReadMore(TakesFront(before), TakesFront(front), n, text, w, w1);
      ReadSame(TakesFront(front), n, text, w, w1, w, w');
    }
  }

  lemma FrontInsideCode(front: Front, n: nat, c: Code, o: nat)
    requires front.More? && PutFront(front, n, c, o)
    ensures o + |FrontBytes(front)| <= |c|
  {
    AtInside(c, o, FrontBytes(front));
  }

  lemma ReadDenotes(r: Regex, n: nat, text: Text, w: Way, w': Way)
    requires Read(r, n, text, w, w')
    ensures w.d <= w'.d <= |text| && Denotes(r, text[w.d..w'.d])
  {
    hide Denotes;
  }

  /** Fewer groups are looked at. */
  lemma ReadLess(r: Regex, n: nat, m: nat, text: Text, w: Way, w': Way)
    requires Read(r, m, text, w, w') && n <= m
    ensures Read(r, n, text, w, w')
  {
    hide Denotes;
  }

  lemma {:induction false} AltsEnd(alts: Alts, n: nat, c: Code, o: nat, text: Text, w: Way, e: nat) returns (w': Way)
    requires PutAlts(alts, n, c, o) && Clear(c, o + |AltBytes(alts)|) && Left(c, text, o, w, e)
    ensures w'.k <= w.k && Left(c, text, o + |AltBytes(alts)|, w', e) && Read(TakesAlts(alts), n, text, w, w')
    decreases alts, w.k, 4
  {
    hide *;
    PutInAlts(alts, n, c, o, 0);
    AltsInsideCode(alts, n, c, o);
    var front, last, k, m := alts.front, alts.last, |FrontBytes(alts.front)|, n + GroupsFront(alts.front);
    if front.None? {
      w' := FragEnds(last, n, c, o, text, w, e);
      ReadDenotes(Takes(last), n, text, w, w');
      TakesAltParts(alts, text[w.d..w'.d]);
      ReadMore(Takes(last), TakesAlts(alts), n, text, w, w');
    } else {
      var w1, past := FrontEnds(front, n, c, o, text, w, e);
      if past {
        w' := FragEnds(last, m, c, o + k + 3, text, w1, e);
        ReadSame(Takes(last), m, text, w1, w', w, w');
        ReadLess(Takes(last), n, m, text, w, w');
        ReadDenotes(Takes(last), n, text, w, w');
        TakesAltParts(alts, text[w.d..w'.d]);
        ReadMore(Takes(last), TakesAlts(alts), n, text, w, w');
      } else {
        w' := JumpTurn(c, text, o + k, w1, e, o + |AltBytes(alts)|);
        ReadDenotes(TakesFront(front), n, text, w, w1);
        TakesAltParts(alts, text[w.d..w1.d]);
        ReadMore(TakesFront(front), TakesAlts(alts), n, text, w, w1);
        ReadSame(TakesAlts(alts), n, text, w, w1, w, w');
      }
    }
  }

  lemma AltsInsideCode(alts: Alts, n: nat, c: Code, o: nat)
    requires PutAlts(alts, n, c, o)
    ensures o + |AltBytes(alts)| <= |c|
  {
    AtInside(c, o, AltBytes(alts));
  }
}
