/** With whatever a piece of pattern takes the search gets through: loops around groups are left when a
    round has matched nothing, and such rounds are never needed. */
module RegexWins {
  import opened Wrappers
  import opened RegexLanguage
  import opened RegexCode
  import opened RegexCourse
  import opened RegexMeaning
  import opened RegexPlaces
  import opened RegexTidy
  import opened RegexHalts
  import opened RegexBudget
  import opened RegexTurns
  import opened RegexTakes

  // ---- what the groups outside see ----

  /** The groups up to n have matched something if something has been read, and are as before if not. */
  ghost predicate Outer(n: nat, ate: bool, truth: set<int>, truth': set<int>) {
    forall r: int :: 0 < r <= n ==> (r in truth' <==> ate || r in truth)
  }

  /** From q and e on the end can be reached, whatever has become of the groups behind n. */
  ghost predicate Onward(c: Code, text: Text, q: nat, e: nat, n: nat, ate: bool, truth: set<int>) {
    forall truth' {:trigger Wins(c, text, q, e, truth')} :: Outer(n, ate, truth, truth') ==> Wins(c, text, q, e, truth')
  }

  lemma OnwardAt(c: Code, text: Text, q: nat, e: nat, n: nat, ate: bool, truth: set<int>, truth': set<int>)
    requires Onward(c, text, q, e, n, ate, truth) && Outer(n, ate, truth, truth')
    ensures Wins(c, text, q, e, truth')
  {
    hide Wins;
  }

  lemma OuterSelf(n: nat, truth: set<int>)
    ensures Outer(n, false, truth, truth)
  {
  }

  lemma OuterFed(n: nat, truth: set<int>)
    requires n <= MAX_REGNUM
    ensures Outer(n, true, truth, EVERY)
  {
  }

  /** After a part of the way. */
  lemma OnwardRest(c: Code, text: Text, q: nat, e: nat, n: nat, m: nat, ate: bool, first: bool, rest: bool, truth: set<int>, truth': set<int>)
    requires Onward(c, text, q, e, n, ate, truth) && Outer(n, first, truth, truth') && n <= m && (ate <==> first || rest)
    ensures Onward(c, text, q, e, m, rest, truth')
  {
    hide Wins;
    forall t {:trigger Wins(c, text, q, e, t)} | Outer(m, rest, truth', t)
      ensures Wins(c, text, q, e, t)
    {
      assert Outer(n, ate, truth, t);
    }
  }

  // ---- single commands ----

  lemma JumpWins(c: Code, text: Text, p: nat, d: nat, truth: set<int>, q: nat)
    requires Wins(c, text, q, d, truth)
    requires
      || (Peek(c, p) == ON_FAILURE_JUMP && (q == p + 3 || q == JumpsTo(c, p))) || (Peek(c, p) == PUSH_DUMMY_FAILURE && q == p + 1)
      || (q == JumpsTo(c, p) && (Peek(c, p) == MAYBE_POP_JUMP || Peek(c, p) == JUMP_PAST_ALT || Peek(c, p) == DUMMY_FAILURE_JUMP))
    ensures Wins(c, text, p, d, truth)
  {
    hide Wins;
    TurnWins(c, text, p, d, truth, q, d);
  }

  lemma JumpsOnward(c: Code, text: Text, p: nat, e: nat, q: nat, n: nat, ate: bool, truth: set<int>)
    requires Onward(c, text, q, e, n, ate, truth) && q == JumpsTo(c, p) && (Peek(c, p) == MAYBE_POP_JUMP || Peek(c, p) == JUMP_PAST_ALT)
    ensures Onward(c, text, p, e, n, ate, truth)
  {
    hide Wins;
    forall t {:trigger Wins(c, text, p, e, t)} | Outer(n, ate, truth, t)
      ensures Wins(c, text, p, e, t)
    {
      JumpWins(c, text, p, e, t, q);
    }
  }

  /** A piece that reads. */
  lemma LeafWins(f: Frag, n: nat, c: Code, o: nat, text: Text, d: nat, e: nat, truth: set<int>)
    requires Put(f, n, c, o) && !f.Then? && !f.Again? && !f.Group? && d <= e <= |text| && Denotes(Takes(f), text[d..e])
    requires Onward(c, text, o + |Bytes(f)|, e, n, d < e, truth)
    ensures Wins(c, text, o, d, truth)
  {
    hide Wins, Onward, Outer;
    LeafOpcode(f, c, o);
    OuterSelf(n, truth);
    OuterFed(n, truth);
    OnwardAt(c, text, o + |Bytes(f)|, e, n, d < e, truth, if d < e then EVERY else truth);
    if f.Exact? {
      WordDenotes(f.chars, text[d..e]);
      ExactReads(f.chars, c, o);
      TurnWins(c, text, o, d, truth, o + |Bytes(f)|, e);
    } else if !f.Nothing? {
      TurnWins(c, text, o, d, truth, o + |Bytes(f)|, e);
    }
  }

  lemma ExactReads(chars: Text, c: Code, o: nat)
    requires WellFormed(Exact(chars)) && At(c, o, Bytes(Exact(chars)))
    ensures o + 2 + |chars| <= |c| && c[o + 2..o + 2 + |chars|] == chars
  {
    AtParts(c, o, [EXACTN, |chars|], chars);
  }

  lemma NeverEmpty(f: Frag, n: nat, text: Text, d: nat)
    requires WellFormed(f) && (f.Exact? || f.AnyChar?) && d <= |text|
    ensures !Denotes(Takes(f), text[d..d])
  {
    if f.Exact? {
      WordDenotes(f.chars, text[d..d]);
    }
  }

  // ---- composite pieces ----

  lemma {:induction false} FragWins(f: Frag, n: nat, c: Code, o: nat, text: Text, d: nat, e: nat, truth: set<int>)
    requires Put(f, n, c, o) && Clear(c, o + |Bytes(f)|) && d <= e <= |text| && Denotes(Takes(f), text[d..e])
    requires Onward(c, text, o + |Bytes(f)|, e, n, d < e, truth)
    ensures Wins(c, text, o, d, truth)
    decreases f, e - d, 3
  {
    hide *;
    match f
    case Then(a, b) =>
      PutThen(a, b, n, c, o, 0);
      TakesParts(f);
      var x := CatSlice(Takes(a), Takes(b), text, d, e);
      var m, k := n + Groups(a), |Bytes(a)|;
      forall t {:trigger Wins(c, text, o + k, x, t)} | Outer(n, d < x, truth, t)
        ensures Wins(c, text, o + k, x, t)
      {
        OnwardRest(c, text, o + |Bytes(f)|, e, n, m, d < e, d < x, x < e, truth, t);
        FragWins(b, m, c, o + k, text, x, e, t);
      }
      OnwardFrom(c, text, o + k, x, n, d < x, truth);
      ClearBehind(b, m, c, o + k, o + |Bytes(f)|);
      FragWins(a, n, c, o, text, d, x, truth);
    case Again(b, zero, many) => AgainWins(f, n, c, o, text, d, e, truth);
    case Group(reg, inner, alts) =>
      PutGroup(reg, inner, alts, n, c, o, 0);
      TakesParts(f);
      var stop := o + |Bytes(f)| - 3;
      forall t {:trigger Wins(c, text, stop, e, t)} | Outer(n, d < e, truth, t)
        ensures Wins(c, text, stop, e, t)
      {
        OnwardAt(c, text, stop + 3, e, n, d < e, truth, t);
        StopGoesOn(c, text, stop, e, t);
      }
      OnwardFrom(c, text, stop, e, n, d < e, truth);
      OnwardStops(c, text, stop, e, n, d < e, truth);
      GroupWins(f, n, c, o, text, d, e, truth);
    case _ => LeafWins(f, n, c, o, text, d, e, truth);
  }

  lemma OnwardFrom(c: Code, text: Text, q: nat, e: nat, n: nat, ate: bool, truth: set<int>)
    requires forall truth' {:trigger Wins(c, text, q, e, truth')} :: Outer(n, ate, truth, truth') ==> Wins(c, text, q, e, truth')
    ensures Onward(c, text, q, e, n, ate, truth)
  {
    hide Wins, Outer;
  }

  /** Behind a first part comes no jump back, because none comes behind the second. */
  lemma ClearBehind(b: Frag, m: nat, c: Code, o: nat, end: nat)
    requires Put(b, m, c, o) && Clear(c, end) && end == o + |Bytes(b)|
    ensures Clear(c, o)
  {
    hide Put, Clear, Bytes;
    AtFirst(b, m, c, o, Act(0, 0, map[], {}));
  }

  /** A group's end that no loop is around. */
  lemma StopGoesOn(c: Code, text: Text, stop: nat, e: nat, truth: set<int>)
    requires Peek(c, stop) == STOP_MEMORY && Clear(c, stop + 3) && Wins(c, text, stop + 3, e, truth)
    ensures Wins(c, text, stop, e, truth)
  {
    hide Wins;
    TurnWins(c, text, stop, e, truth, stop + 3, e);
  }

  /** From the end mark of the group n + 1 on, with the group rightly noted. */
  ghost predicate Stops(c: Code, text: Text, stop: nat, e: nat, n: nat, ate: bool, truth: set<int>) {
    forall truth' {:trigger Wins(c, text, stop, e, truth')} :: Outer(n, ate, truth, truth') && (n + 1 in truth' <==> ate) ==> Wins(c, text, stop, e, truth')
  }

  lemma OnwardStops(c: Code, text: Text, stop: nat, e: nat, n: nat, ate: bool, truth: set<int>)
    requires Onward(c, text, stop, e, n, ate, truth)
    ensures Stops(c, text, stop, e, n, ate, truth)
  {
    hide Wins, Outer;
  }

  lemma {:induction false} GroupWins(f: Frag, n: nat, c: Code, o: nat, text: Text, d: nat, e: nat, truth: set<int>)
    requires Put(f, n, c, o) && f.Group? && d <= e <= |text| && Denotes(TakesAlts(f.alts), text[d..e])
    requires Stops(c, text, o + |Bytes(f)| - 3, e, n, d < e, truth)
    ensures Wins(c, text, o, d, truth)
    decreases f, e - d, 2
  {
    hide *;
    PutGroup(f.reg, f.inner, f.alts, n, c, o, 0);
    var v := |AltBytes(f.alts)|;
    EndOnward(c, text, o + 3 + v, o + |Bytes(f)| - 3, e, n, d < e, truth);
    ClearMark(c, o + 3 + v);
    AltsWin(f.alts, n + 1, c, o + 3, text, d, e, truth - {n + 1});
    StartWins(c, text, o, d, n + 1, truth);
  }

  lemma ClearMark(c: Code, q: nat)
    requires Peek(c, q) == STOP_MEMORY || Peek(c, q) == PUSH_DUMMY_FAILURE || Peek(c, q) == JUMP_PAST_ALT
    ensures Clear(c, q)
  {
  }

  lemma StartWins(c: Code, text: Text, o: nat, d: nat, reg: nat, truth: set<int>)
    requires Peek(c, o) == START_MEMORY && Peek(c, o + 1) == reg && Wins(c, text, o + 3, d, truth - {reg as int})
    ensures Wins(c, text, o, d, truth)
  {
    hide Wins;
    TurnWins(c, text, o, d, truth, o + 3, d);
  }

  lemma EndOnward(c: Code, text: Text, q: nat, stop: nat, e: nat, n: nat, ate: bool, truth: set<int>)
    requires Stops(c, text, stop, e, n, ate, truth) && (q == stop || (Peek(c, q) == PUSH_DUMMY_FAILURE && stop == q + 1))
    ensures Onward(c, text, q, e, n + 1, ate, truth - {n + 1})
  {
    hide Wins;
    forall t {:trigger Wins(c, text, q, e, t)} | Outer(n + 1, ate, truth - {n + 1}, t)
      ensures Wins(c, text, q, e, t)
    {
      assert Outer(n, ate, truth, t) && (n + 1 in t <==> ate);
      if q != stop {
        JumpWins(c, text, q, e, t, stop);
      }
    }
  }

  // ---- loops ----

  lemma {:induction false} AgainWins(f: Frag, n: nat, c: Code, o: nat, text: Text, d: nat, e: nat, truth: set<int>)
    requires Put(f, n, c, o) && f.Again? && Clear(c, o + |Bytes(f)|) && d <= e <= |text| && Denotes(Takes(f), text[d..e])
    requires Onward(c, text, o + |Bytes(f)|, e, n, d < e, truth)
    ensures Wins(c, text, o, d, truth)
    decreases f, e - d, 2
  {
    hide *;
    var b, k := f.body, Body(f.zero);
    AgainParts(f, n, c, o);
    var more := f.many && !Disturbed(b);
    if f.zero && more {
      StarWins(f, n, c, o, text, d, e, truth);
    } else if f.zero {
      OrDenotes(Empty, Takes(b), text[d..e]);
      OuterSelf(n, truth);
      if Denotes(Empty, text[d..e]) {
        OnwardAt(c, text, o + |Bytes(f)|, e, n, d < e, truth, truth);
        JumpWins(c, text, o, d, truth, o + |Bytes(f)|);
      } else {
        if f.many {
          OneRoundWins(f, n, c, o, text, d, e, truth);
        } else {
          FragWins(b, n, c, o + k, text, d, e, truth);
        }
        JumpWins(c, text, o, d, truth, o + 3);
      }
    } else if !more {
      OneRoundWins(f, n, c, o, text, d, e, truth);
      JumpWins(c, text, o, d, truth, o + 6);
    } else {
      var x := CatSlice(Takes(b), Star(Takes(b)), text, d, e);
      if d < x {
        RoundsWin(f, n, c, o, text, d, x, e, truth);
      } else if d < e {
        var y := StarSlice(Takes(b), text, d, e);
        RoundsWin(f, n, c, o, text, d, y, e, truth);
      } else {
        OneRoundWins(f, n, c, o, text, d, d, truth);
      }
      JumpWins(c, text, o, d, truth, o + 6);
    }
  }

  /** The places and the meaning of a repetition. */
  lemma AgainParts(f: Frag, n: nat, c: Code, o: nat)
    requires Put(f, n, c, o) && f.Again?
    ensures var b, k, L := f.body, Body(f.zero), |Bytes(f.body)|;
      && Put(b, n, c, o + k) && Single(b) && n <= MAX_REGNUM && (f.zero || f.many) && WellFormed(b)
      && k == (if f.zero then 3 else 6) && |Bytes(f)| == k + L + (if f.many then 3 else 0)
      && Peek(c, o + k - 3) == ON_FAILURE_JUMP && JumpsTo(c, o + k - 3) == o + |Bytes(f)|
      && (!f.zero ==> Peek(c, o) == DUMMY_FAILURE_JUMP && JumpsTo(c, o) == o + 6)
      && (f.many ==> Peek(c, o + k + L) == MAYBE_POP_JUMP && JumpsTo(c, o + k + L) == o + k - 3)
      && var more := f.many && !Disturbed(b);
         Takes(f) == if f.zero && more then Star(Takes(b)) else if f.zero then Or(Empty, Takes(b)) else if more then Cat(Takes(b), Star(Takes(b))) else Takes(b)
  {
    hide At, Bytes, IsStart, Tidy, Peek, JumpsTo, Argument, Single;
    PutAgain(f.body, f.zero, f.many, n, c, o, 0);
  }

  /** Rounds of a loop, from its failure jump on. */
  lemma {:induction false} StarWins(f: Frag, n: nat, c: Code, o: nat, text: Text, d: nat, e: nat, truth: set<int>)
    requires Put(f, n, c, o) && f.Again? && f.many && !Disturbed(f.body) && d <= e <= |text| && Denotes(Star(Takes(f.body)), text[d..e])
    requires Onward(c, text, o + |Bytes(f)|, e, n, d < e, truth)
    ensures Wins(c, text, o + Body(f.zero) - 3, d, truth)
    decreases f, e - d, 1
  {
    hide *;
    AgainParts(f, n, c, o);
    var t := o + Body(f.zero) - 3;
    if d == e {
      OuterSelf(n, truth);
      OnwardAt(c, text, o + |Bytes(f)|, e, n, d < e, truth, truth);
      JumpWins(c, text, t, d, truth, o + |Bytes(f)|);
    } else {
      var x := StarSlice(Takes(f.body), text, d, e);
      RoundsWin(f, n, c, o, text, d, x, e, truth);
      JumpWins(c, text, t, d, truth, t + 3);
    }
  }

  /** One round that reads something, and more. */
  lemma {:induction false} RoundsWin(f: Frag, n: nat, c: Code, o: nat, text: Text, d: nat, x: nat, e: nat, truth: set<int>)
    requires Put(f, n, c, o) && f.Again? && f.many && !Disturbed(f.body) && d < x <= e <= |text|
    requires Denotes(Takes(f.body), text[d..x]) && Denotes(Star(Takes(f.body)), text[x..e])
    requires Onward(c, text, o + |Bytes(f)|, e, n, d < e, truth)
    ensures Wins(c, text, o + Body(f.zero), d, truth)
    decreases f, e - d, 0
  {
    hide *;
    AgainParts(f, n, c, o);
    var b, k := f.body, Body(f.zero);
    var t, l := o + k - 3, o + k + |Bytes(b)|;
    forall t' {:trigger Wins(c, text, t, x, t')} | Outer(n, true, truth, t')
      ensures Wins(c, text, t, x, t')
    {
      OnwardRest(c, text, o + |Bytes(f)|, e, n, n, d < e, true, x < e, truth, t');
      StarWins(f, n, c, o, text, x, e, t');
    }
    OnwardFrom(c, text, t, x, n, true, truth);
    JumpsOnward(c, text, l, x, t, n, true, truth);
    if b.Group? {
      BodyStop(f, n, c, o);
      DisturbedIs(b);
      RoundStops(c, text, l - 3, x, n, truth);
      TakesParts(b);
      GroupWins(b, n, c, o + k, text, d, x, truth);
    } else {
      SingleLeaf(b);
      LeafWins(b, n, c, o + k, text, d, x, truth);
    }
  }

  /** The end mark of the group in a loop. */
  lemma BodyStop(f: Frag, n: nat, c: Code, o: nat)
    requires Put(f, n, c, o) && f.Again? && f.many && f.body.Group?
    ensures var b, k := f.body, Body(f.zero);
      var stop := o + k + |Bytes(b)| - 3;
      && stop >= 3 && Peek(c, stop) == STOP_MEMORY && Peek(c, stop + 1) == n + 1 && Exits(c, stop) && Peek(c, stop - 2) == Suspect(Bytes(b))
  {
    hide Bytes, IsStart, Exits, PutAlts, IsAltStart, AltBytes, WellFormed, Tidy;
    var b, k := f.body, Body(f.zero);
    AgainParts(f, n, c, o);
    PutGroup(b.reg, b.inner, b.alts, n, c, o + k, 0);
    LoopExits(f, n, c, o);
    AtByte(c, o + k, Bytes(b), |Bytes(b)| - 5);
  }

  lemma RoundStops(c: Code, text: Text, stop: nat, x: nat, n: nat, truth: set<int>)
    requires Onward(c, text, stop + 3, x, n, true, truth)
    requires stop >= 3 && Peek(c, stop) == STOP_MEMORY && Peek(c, stop + 1) == n + 1 && Peek(c, stop - 2) != START_MEMORY
    ensures Stops(c, text, stop, x, n, true, truth)
  {
    hide Wins, Exits;
    forall t {:trigger Wins(c, text, stop, x, t)} | Outer(n, true, truth, t) && n + 1 in t
      ensures Wins(c, text, stop, x, t)
    {
      OnwardAt(c, text, stop + 3, x, n, true, truth, t);
      TurnWins(c, text, stop, x, t, stop + 3, x);
    }
  }

  lemma DisturbedIs(f: Frag)
    ensures Disturbed(f) == (f.Group? && Suspect(Bytes(f)) == START_MEMORY)
  {
  }

  /** A round that reads nothing ends the loop, and so does one of a group with a disturbed end. */
  lemma {:induction false} OneRoundWins(f: Frag, n: nat, c: Code, o: nat, text: Text, d: nat, e: nat, truth: set<int>)
    requires Put(f, n, c, o) && f.Again? && f.many && d <= e <= |text| && Denotes(Takes(f.body), text[d..e]) && (d == e || Disturbed(f.body))
    requires Onward(c, text, o + |Bytes(f)|, e, n, d < e, truth)
    ensures Wins(c, text, o + Body(f.zero), d, truth)
    decreases f, 0, 0
  {
    hide *;
    AgainParts(f, n, c, o);
    var b, k := f.body, Body(f.zero);
    var l := o + k + |Bytes(b)|;
    DisturbedIs(b);
    if b.Group? {
      BodyStop(f, n, c, o);
      OutStops(c, text, l - 3, e, n, d < e, truth);
      TakesParts(b);
      GroupWins(b, n, c, o + k, text, d, e, truth);
    } else {
      SingleLeaf(b);
      NeverEmpty(b, n, text, d);
    }
  }

  lemma OutStops(c: Code, text: Text, stop: nat, e: nat, n: nat, ate: bool, truth: set<int>)
    requires Onward(c, text, stop + 6, e, n, ate, truth) && (!ate || Peek(c, stop - 2) == START_MEMORY)
    requires Peek(c, stop) == STOP_MEMORY && Peek(c, stop + 1) == n + 1 && Exits(c, stop)
    ensures Stops(c, text, stop, e, n, ate, truth)
  {
    hide Wins, Exits;
    forall t {:trigger Wins(c, text, stop, e, t)} | Outer(n, ate, truth, t) && (n + 1 in t <==> ate)
      ensures Wins(c, text, stop, e, t)
    {
      OnwardAt(c, text, stop + 6, e, n, ate, truth, t);
      TurnWins(c, text, stop, e, t, stop + 6, e);
    }
  }

  // ---- alternatives ----

  /** All alternatives so far can be passed over. */
  lemma {:induction false} FrontSkips(front: Front, n: nat, c: Code, o: nat, text: Text, d: nat, truth: set<int>)
    requires front.More? && PutFront(front, n, c, o) && Wins(c, text, o + |FrontBytes(front)| + 3, d, truth)
    ensures Wins(c, text, o, d, truth)
    decreases front
  {
    hide *;
    PutInFront(front, n, c, o, 0);
    var k := FrontSize(front.before);
    JumpWins(c, text, o + k, d, truth, o + |FrontBytes(front)| + 3);
    if front.before.More? {
      FrontSkips(front.before, n, c, o, text, d, truth);
    }
  }

  lemma {:induction false} FrontWins(front: Front, n: nat, c: Code, o: nat, text: Text, d: nat, e: nat, truth: set<int>)
    requires front.More? && PutFront(front, n, c, o) && Peek(c, o + |FrontBytes(front)|) == JUMP_PAST_ALT
    requires d <= e <= |text| && Denotes(TakesFront(front), text[d..e]) && Onward(c, text, o + |FrontBytes(front)|, e, n, d < e, truth)
    ensures Wins(c, text, o, d, truth)
    decreases front, e - d, 3
  {
    hide *;
    PutInFront(front, n, c, o, 0);
    TakesFrontParts(front, text[d..e]);
    var before, branch, k, m := front.before, front.branch, FrontSize(front.before), n + GroupsFront(front.before);
    var end := o + |FrontBytes(front)|;
    if before.More? && Denotes(TakesFront(before), text[d..e]) {
      JumpsOnward(c, text, o + k - 3, e, end, n, d < e, truth);
      FrontWins(before, n, c, o, text, d, e, truth);
    } else {
      OuterSelf(n, truth);
      OnwardRest(c, text, end, e, n, m, d < e, false, d < e, truth, truth);
      ClearMark(c, end);
      FragWins(branch, m, c, o + k + 3, text, d, e, truth);
      JumpWins(c, text, o + k, d, truth, o + k + 3);
      if before.More? {
        FrontSkips(before, n, c, o, text, d, truth);
      }
    }
  }

  lemma {:induction false} AltsWin(alts: Alts, n: nat, c: Code, o: nat, text: Text, d: nat, e: nat, truth: set<int>)
    requires PutAlts(alts, n, c, o) && Clear(c, o + |AltBytes(alts)|) && d <= e <= |text| && Denotes(TakesAlts(alts), text[d..e])
    requires Onward(c, text, o + |AltBytes(alts)|, e, n, d < e, truth)
    ensures Wins(c, text, o, d, truth)
    decreases alts, e - d, 3
  {
    hide *;
    PutInAlts(alts, n, c, o, 0);
    TakesAltParts(alts, text[d..e]);
    var front, last, k, m := alts.front, alts.last, |FrontBytes(alts.front)|, n + GroupsFront(alts.front);
    var end := o + |AltBytes(alts)|;
    if front.None? {
      FragWins(last, n, c, o, text, d, e, truth);
    } else if Denotes(TakesFront(front), text[d..e]) {
      JumpsOnward(c, text, o + k, e, end, n, d < e, truth);
      FrontWins(front, n, c, o, text, d, e, truth);
    } else {
      OuterSelf(n, truth);
      OnwardRest(c, text, end, e, n, m, d < e, false, d < e, truth, truth);
      FragWins(last, m, c, o + k + 3, text, d, e, truth);
      FrontSkips(front, n, c, o, text, d, truth);
    }
  }
}
