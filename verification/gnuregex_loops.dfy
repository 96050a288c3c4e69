/** Loops of a laid-out program have one entry, and only they jump back. */
module RegexLoops {
  import opened RegexLanguage
  import opened RegexCode
  import opened RegexMeaning
  import opened RegexEdges

  /** A loop of f has its `on_failure_jump` at t and its jump back at l. */
  predicate IsLoop(f: Frag, t: int, l: int)
    decreases f, 1
  {
    match f
    case Then(a, b) => IsLoop(a, t, l) || IsLoop(b, t - |Bytes(a)|, l - |Bytes(a)|)
    case Again(b, zero, many) => var k := if zero then 0 else 3; IsOwnLoop(b, many, t - k, l - k)
    case Group(reg, inner, alts) => var m := |Memory(START_MEMORY, reg, inner)|; IsAltLoop(alts, t - m, l - m)
    case _ => false
  }

  predicate IsOwnLoop(b: Frag, many: bool, t: int, l: int)
    decreases b, 2
  {
    (many && t == 0 && l == |Bytes(b)| + 3) || IsLoop(b, t - 3, l - 3)
  }

  predicate IsFrontLoop(front: Front, t: int, l: int)
    decreases front, 1
  {
    match front
    case None => false
    case More(before, branch) =>
      var k := (if before.None? then 0 else |FrontBytes(before)| + 3) + 3;
      IsFrontLoop(before, t, l) || IsLoop(branch, t - k, l - k)
  }

  predicate IsAltLoop(alts: Alts, t: int, l: int)
    decreases alts, 1
  {
    if alts.front.None? then IsLoop(alts.last, t, l)
    else var k := |FrontBytes(alts.front)| + 3; IsFrontLoop(alts.front, t, l) || IsLoop(alts.last, t - k, l - k)
  }

  lemma LoopCases(f: Frag, t: int, l: int)
    ensures f.Nothing? || f.Exact? || f.AnyChar? || f.Dummy? ==> !IsLoop(f, t, l)
    ensures f.Then? ==> IsLoop(f, t, l) == (IsLoop(f.first, t, l) || IsLoop(f.second, t - |Bytes(f.first)|, l - |Bytes(f.first)|))
    ensures f.Then? ==> |Bytes(f)| == |Bytes(f.first)| + |Bytes(f.second)|
    ensures f.Again? ==> var k := if f.zero then 0 else 3; IsLoop(f, t, l) == IsOwnLoop(f.body, f.many, t - k, l - k)
    ensures f.Again? ==> |Bytes(f)| == |Bytes(f.body)| + (if f.many then 6 else 3) + (if f.zero then 0 else 3)
    ensures f.Group? ==> var m := |Memory(START_MEMORY, f.reg, f.inner)|; IsLoop(f, t, l) == IsAltLoop(f.alts, t - m, l - m)
    ensures f.Group? ==> |Bytes(f)| >= |Memory(START_MEMORY, f.reg, f.inner)| + |AltBytes(f.alts)|
  {
    hide IsOwnLoop, IsAltLoop, AltBytes;
  }

  lemma OwnLoopCases(b: Frag, many: bool, t: int, l: int)
    ensures IsOwnLoop(b, many, t, l) == ((many && t == 0 && l == |Bytes(b)| + 3) || IsLoop(b, t - 3, l - 3))
  {
  }

  lemma FrontLoopCases(front: Front, t: int, l: int)
    ensures front.None? ==> !IsFrontLoop(front, t, l)
    ensures front.More? ==>
      var k := (if front.before.None? then 0 else |FrontBytes(front.before)| + 3) + 3;
      && IsFrontLoop(front, t, l) == (IsFrontLoop(front.before, t, l) || IsLoop(front.branch, t - k, l - k))
      && |FrontBytes(front)| == k + |Bytes(front.branch)|
  {
  }

  lemma AltLoopCases(alts: Alts, t: int, l: int)
    ensures alts.front.None? ==> IsAltLoop(alts, t, l) == IsLoop(alts.last, t, l) && AltBytes(alts) == Bytes(alts.last)
    ensures alts.front.More? ==>
      var k := |FrontBytes(alts.front)| + 3;
      && IsAltLoop(alts, t, l) == (IsFrontLoop(alts.front, t, l) || IsLoop(alts.last, t - k, l - k))
      && |AltBytes(alts)| == k + |Bytes(alts.last)|
  {
  }

  lemma {:induction false} LoopRange(f: Frag, t: int, l: int)
    requires IsLoop(f, t, l)
    ensures 0 <= t && t + 3 <= l && l + 3 <= |Bytes(f)|
    decreases f, 1
  {
    hide *;
    LoopCases(f, t, l);
    match f
    case Then(a, b) =>
      var k := |Bytes(a)|;
      if IsLoop(a, t, l) {
        LoopRange(a, t, l);
      } else {
        LoopRange(b, t - k, l - k);
      }
    case Again(b, zero, many) =>
      var k := if zero then 0 else 3;
      OwnLoopCases(b, many, t - k, l - k);
      if IsLoop(b, t - k - 3, l - k - 3) {
        LoopRange(b, t - k - 3, l - k - 3);
      }
    case Group(reg, inner, alts) =>
      var m := |Memory(START_MEMORY, reg, inner)|;
      AltLoopRange(alts, t - m, l - m);
    case _ =>
  }

  lemma {:induction false} FrontLoopRange(front: Front, t: int, l: int)
    requires IsFrontLoop(front, t, l)
    ensures 0 <= t && t + 3 <= l && l + 3 <= |FrontBytes(front)|
    decreases front, 1
  {
    hide *;
    FrontLoopCases(front, t, l);
    var k := (if front.before.None? then 0 else |FrontBytes(front.before)| + 3) + 3;
    if IsFrontLoop(front.before, t, l) {
      FrontLoopCases(front.before, t, l);
      FrontLoopRange(front.before, t, l);
    } else {
      LoopRange(front.branch, t - k, l - k);
    }
  }

  lemma {:induction false} AltLoopRange(alts: Alts, t: int, l: int)
    requires IsAltLoop(alts, t, l)
    ensures 0 <= t && t + 3 <= l && l + 3 <= |AltBytes(alts)|
    decreases alts, 1
  {
    hide *;
    AltLoopCases(alts, t, l);
    if alts.front.None? {
      LoopRange(alts.last, t, l);
    } else {
      var k := |FrontBytes(alts.front)| + 3;
      if IsFrontLoop(alts.front, t, l) {
        FrontLoopRange(alts.front, t, l);
      } else {
        LoopRange(alts.last, t - k, l - k);
      }
    }
  }

  predicate DummyAt(c: Code, p: int) {
    0 <= p < |c| && c[p] == PUSH_DUMMY_FAILURE
  }

  /** Where a jump leads that does not go forward: back to the start of its own loop, or, behind an
      empty last alternative, to the end of the alternatives. */
  ghost predicate BackIsLoop(c: Code, p: int, looped: bool, atEnd: bool)
    requires Fits(c, p)
  {
    (c[p] == MAYBE_POP_JUMP ==> looped)
    && (c[p] == DUMMY_FAILURE_JUMP ==> Number(c, p + 1) > 0)
    && (c[p] == ON_FAILURE_JUMP ==> Number(c, p + 1) >= 0)
    && (c[p] == JUMP_PAST_ALT ==> Number(c, p + 1) > 0 || (Number(c, p + 1) == 0 && atEnd))
  }

  lemma DummyIsForward(c: Code, o: int)
    requires At(c, o, Jump(DUMMY_FAILURE_JUMP, 3))
    ensures Fits(c, o) && BackIsLoop(c, o, false, false)
  {
    JumpFits(c, o, DUMMY_FAILURE_JUMP, 3);
    AtJump(c, o, DUMMY_FAILURE_JUMP, 3);
  }

  lemma BackWeaker(c: Code, p: int, looped: bool, atEnd: bool, looped': bool, atEnd': bool)
    requires Fits(c, p) && BackIsLoop(c, p, looped, atEnd) && (looped ==> looped') && (atEnd ==> atEnd')
    ensures BackIsLoop(c, p, looped', atEnd')
  {
  }

  /** The target of the jump at p. */
  function Target(c: Code, p: int): int
    requires Fits(c, p)
  {
    if p + 2 < |c| then p + 3 + Number(c, p + 1) else p
  }

  lemma {:induction false} Backward(f: Frag, c: Code, o: int, x: int)
    requires WellFormed(f) && At(c, o, Bytes(f)) && |c| < REACH && IsStart(f, x)
    ensures Fits(c, o + x)
    ensures BackIsLoop(c, o + x, IsLoop(f, Target(c, o + x) - o, x), DummyAt(c, o + x + 3))
    decreases f, 1
  {
    hide *;
    StartFits(f, c, o, x);
    LeafShape(f, x);
    var t := Target(c, o + x) - o;
    LoopCases(f, t, x);
    var looped, dummy := IsLoop(f, t, x), DummyAt(c, o + x + 3);
    match f
    case Nothing => NothingStart(x);
    case Exact(chars) =>
      ExactNoJump(chars, c, o);
      BackWeaker(c, o + x, false, false, looped, dummy);
    case AnyChar =>
      ByteNoJump(c, o, ANYCHAR);
      BackWeaker(c, o + x, false, false, looped, dummy);
    case Dummy =>
      ByteNoJump(c, o, PUSH_DUMMY_FAILURE);
      BackWeaker(c, o + x, false, false, looped, dummy);
    case Then(a, b) =>
      ThenShape(a, b, c, o, x);
      var k := |Bytes(a)|;
      if IsStart(a, x) {
        Backward(a, c, o, x);
        BackWeaker(c, o + x, IsLoop(a, t, x), dummy, looped, dummy);
      } else {
        Backward(b, c, o + k, x - k);
        BackWeaker(c, o + x, IsLoop(b, t - k, x - k), dummy, looped, dummy);
      }
    case Again(b, zero, many) =>
      if zero {
        BackwardLoop(b, many, c, o, x);
      } else {
        PlusShape(b, c, o, x);
        if x == 0 {
          DummyIsForward(c, o);
          BackWeaker(c, o + x, false, false, looped, dummy);
        } else {
          BackwardLoop(b, true, c, o + 3, x - 3);
          BackWeaker(c, o + x, IsOwnLoop(b, true, t - 3, x - 3), dummy, looped, dummy);
        }
      }
    case Group(reg, inner, alts) => BackwardGroup(reg, inner, alts, c, o, x);
  }

  lemma ExactNoJump(chars: Text, c: Code, o: int)
    requires WellFormed(Exact(chars)) && At(c, o, Bytes(Exact(chars)))
    ensures Fits(c, o) && BackIsLoop(c, o, false, false)
  {
    ExactFits(chars, c, o);
    AtByte(c, o, Bytes(Exact(chars)), 0);
  }

  lemma ByteNoJump(c: Code, o: int, op: Byte)
    requires At(c, o, [op]) && (op == ANYCHAR || op == PUSH_DUMMY_FAILURE)
    ensures Fits(c, o) && BackIsLoop(c, o, false, false)
  {
    ByteFits(c, o, op);
  }

  lemma MarkNoJump(c: Code, o: int, op: Byte, reg: nat, inner: Byte)
    requires At(c, o, Memory(op, reg, inner)) && |Memory(op, reg, inner)| > 0 && (op == START_MEMORY || op == STOP_MEMORY)
    ensures Fits(c, o) && BackIsLoop(c, o, false, false)
  {
    MemoryFits(c, o, op, reg, inner);
  }

  lemma {:induction false} BackwardLoop(b: Frag, many: bool, c: Code, o: int, x: int)
    requires WellFormed(b) && At(c, o, LoopBytes(Bytes(b), many)) && |c| < REACH && IsLoopStart(b, many, x)
    ensures Fits(c, o + x)
    ensures BackIsLoop(c, o + x, IsOwnLoop(b, many, Target(c, o + x) - o, x), DummyAt(c, o + x + 3))
    decreases b, 2
  {
    hide *;
    LoopStartFits(b, many, c, o, x);
    LoopParts(c, o, Bytes(b), many);
    LoopShape(b, many, x);
    var t := Target(c, o + x) - o;
    OwnLoopCases(b, many, t, x);
    var looped, dummy := IsOwnLoop(b, many, t, x), DummyAt(c, o + x + 3);
    if x == 0 {
      FailureNoJump(c, o, if many then |Bytes(b)| + 3 else |Bytes(b)|);
      BackWeaker(c, o + x, false, false, looped, dummy);
    } else if IsStart(b, x - 3) {
      Backward(b, c, o + 3, x - 3);
      BackWeaker(c, o + x, IsLoop(b, t - 3, x - 3), dummy, looped, dummy);
    } else {
      LoopJumpTarget(c, o + x, -(|Bytes(b)| + 6));
      BackWeaker(c, o + x, true, false, looped, dummy);
    }
  }

  lemma FailureNoJump(c: Code, o: int, n: int)
    requires At(c, o, Jump(ON_FAILURE_JUMP, n)) && 0 <= n < REACH
    ensures Fits(c, o) && BackIsLoop(c, o, false, false)
  {
    JumpFits(c, o, ON_FAILURE_JUMP, n);
    AtJump(c, o, ON_FAILURE_JUMP, n);
  }

  lemma LoopJumpTarget(c: Code, o: int, n: int)
    requires At(c, o, Jump(MAYBE_POP_JUMP, n)) && -REACH <= n < REACH
    ensures Fits(c, o) && Target(c, o) == o + 3 + n && BackIsLoop(c, o, true, false)
  {
    JumpFits(c, o, MAYBE_POP_JUMP, n);
    AtJump(c, o, MAYBE_POP_JUMP, n);
  }

  lemma {:induction false} BackwardFront(front: Front, c: Code, o: int, x: int)
    requires WellFormedFront(front) && front.More? && At(c, o, FrontBytes(front)) && |c| < REACH && IsFrontStart(front, x)
    ensures Fits(c, o + x)
    ensures BackIsLoop(c, o + x, IsFrontLoop(front, Target(c, o + x) - o, x), DummyAt(c, o + x + 3))
    decreases front, 1
  {
    hide *;
    FrontStartFits(front, c, o, x);
    FrontParts(c, o, front);
    FrontShape(front, x);
    var a := front.branch;
    var k := if front.before.None? then 0 else |FrontBytes(front.before)| + 3;
    var t := Target(c, o + x) - o;
    FrontLoopCases(front, t, x);
    var looped, dummy := IsFrontLoop(front, t, x), DummyAt(c, o + x + 3);
    if front.before.More? && IsFrontStart(front.before, x) {
      BackwardFront(front.before, c, o, x);
      BackWeaker(c, o + x, IsFrontLoop(front.before, t, x), dummy, looped, dummy);
    } else if front.before.More? && x == k - 3 {
      PastIsForward(c, o + x, |Bytes(a)| + 3);
      BackWeaker(c, o + x, false, false, looped, dummy);
    } else if x == k {
      FailureNoJump(c, o + x, |Bytes(a)| + 3);
      BackWeaker(c, o + x, false, false, looped, dummy);
    } else {
      Backward(a, c, o + k + 3, x - k - 3);
      BackWeaker(c, o + x, IsLoop(a, t - k - 3, x - k - 3), dummy, looped, dummy);
    }
  }

  lemma PastIsForward(c: Code, o: int, n: int)
    requires At(c, o, Jump(JUMP_PAST_ALT, n)) && 0 <= n < REACH
    ensures Fits(c, o) && c[o] == JUMP_PAST_ALT && Number(c, o + 1) == n && BackIsLoop(c, o, false, n == 0)
  {
    JumpFits(c, o, JUMP_PAST_ALT, n);
    AtJump(c, o, JUMP_PAST_ALT, n);
  }

  lemma {:induction false} BackwardAlts(alts: Alts, c: Code, o: int, x: int)
    requires WellFormedAlts(alts) && At(c, o, AltBytes(alts)) && |c| < REACH && IsAltStart(alts, x)
    ensures Fits(c, o + x)
    ensures BackIsLoop(c, o + x, IsAltLoop(alts, Target(c, o + x) - o, x),
      x + 3 == |AltBytes(alts)| || DummyAt(c, o + x + 3))
    decreases alts, 1
  {
    hide *;
    AltStartFits(alts, c, o, x);
    var t := Target(c, o + x) - o;
    AltLoopCases(alts, t, x);
    var looped, dummy := IsAltLoop(alts, t, x), DummyAt(c, o + x + 3);
    var atEnd := x + 3 == |AltBytes(alts)| || dummy;
    if alts.front.None? {
      SingleShape(alts, x);
      Backward(alts.last, c, o, x);
      BackWeaker(c, o + x, looped, dummy, looped, atEnd);
    } else {
      AltsShape(alts, c, o, x);
      var k, L := |FrontBytes(alts.front)|, |Bytes(alts.last)|;
      if IsFrontStart(alts.front, x) {
        BackwardFront(alts.front, c, o, x);
        BackWeaker(c, o + x, IsFrontLoop(alts.front, t, x), dummy, looped, atEnd);
      } else if x == k {
        PastIsForward(c, o + x, L);
        BackWeaker(c, o + x, false, L == 0, looped, atEnd);
      } else {
        Backward(alts.last, c, o + k + 3, x - k - 3);
        BackWeaker(c, o + x, IsLoop(alts.last, t - k - 3, x - k - 3), dummy, looped, atEnd);
      }
    }
  }

  lemma {:induction false} BackwardGroup(reg: nat, inner: Byte, alts: Alts, c: Code, o: int, x: int)
    requires WellFormedAlts(alts) && At(c, o, Bytes(Group(reg, inner, alts))) && |c| < REACH && IsStart(Group(reg, inner, alts), x)
    ensures Fits(c, o + x)
    ensures BackIsLoop(c, o + x, IsLoop(Group(reg, inner, alts), Target(c, o + x) - o, x), DummyAt(c, o + x + 3))
    decreases alts, 2
  {
    hide *;
    var f := Group(reg, inner, alts);
    GroupStartFits(reg, inner, alts, c, o, x);
    var u, v := |Memory(START_MEMORY, reg, inner)|, |AltBytes(alts)|;
    GroupShape(reg, inner, alts, c, o);
    GroupStarts(reg, inner, alts, x);
    var t := Target(c, o + x) - o;
    LoopCases(f, t, x);
    var looped, dummy := IsLoop(f, t, x), DummyAt(c, o + x + 3);
    if x == 0 && u > 0 {
      MarkNoJump(c, o, START_MEMORY, reg, inner);
      BackWeaker(c, o + x, false, false, looped, dummy);
    } else if IsAltStart(alts, x - u) {
      BackwardAlts(alts, c, o + u, x - u);
      if alts.front.None? {
        SingleShape(alts, x - u);
        Backward(alts.last, c, o + u, x - u);
        AltLoopCases(alts, t - u, x - u);
        BackWeaker(c, o + x, IsLoop(alts.last, t - u, x - u), dummy, looped, dummy);
      } else {
        EndIsDummy(reg, inner, c, o + u + v);
        BackWeaker(c, o + x, IsAltLoop(alts, t - u, x - u), x - u + 3 == v || dummy, looped, dummy);
      }
    } else {
      EndNoJump(reg, inner, alts.front.None?, c, o + u + v, x - u - v);
      BackWeaker(c, o + x, false, false, looped, dummy);
    }
  }

  lemma EndIsDummy(reg: nat, inner: Byte, c: Code, o: int)
    requires At(c, o, GroupEnd(reg, inner, false))
    ensures DummyAt(c, o)
  {
    AtByte(c, o, GroupEnd(reg, inner, false), 0);
  }

  lemma EndNoJump(reg: nat, inner: Byte, single: bool, c: Code, o: int, x: int)
    requires At(c, o, GroupEnd(reg, inner, single)) && IsEndStart(reg, inner, single, x)
    ensures Fits(c, o + x) && BackIsLoop(c, o + x, false, false)
  {
    hide At, BackIsLoop, Fits;
    if single {
      assert [] + Memory(STOP_MEMORY, reg, inner) == Memory(STOP_MEMORY, reg, inner);
      MarkNoJump(c, o, STOP_MEMORY, reg, inner);
    } else {
      AtParts(c, o, [PUSH_DUMMY_FAILURE], Memory(STOP_MEMORY, reg, inner));
      ByteNoJump(c, o, PUSH_DUMMY_FAILURE);
      if x == 1 {
        MarkNoJump(c, o + 1, STOP_MEMORY, reg, inner);
      }
    }
  }

  // ---- the two ends of a loop ----

  /** The failure jump at t leaves the loop behind the jump at l, which leads back to it. */
  ghost predicate LoopEnds(c: Code, t: int, l: int) {
    && 0 <= t && t + 3 <= l && l + 3 <= |c| && c[t] == ON_FAILURE_JUMP && Number(c, t + 1) == l - t
    && c[l] == MAYBE_POP_JUMP && Number(c, l + 1) == t - l - 3
  }

  lemma OwnLoopEnds(b: Frag, c: Code, o: int)
    requires At(c, o, LoopBytes(Bytes(b), true)) && |c| < REACH
    ensures LoopEnds(c, o, o + |Bytes(b)| + 3)
  {
    hide Bytes, LoopBytes, Number;
    LoopParts(c, o, Bytes(b), true);
    AtJump(c, o, ON_FAILURE_JUMP, |Bytes(b)| + 3);
    AtLast(c, o + 3 + |Bytes(b)|, -(|Bytes(b)| + 6));
    AtJump(c, o + 3 + |Bytes(b)|, MAYBE_POP_JUMP, -(|Bytes(b)| + 6));
  }

  lemma AtLast(c: Code, o: int, n: int)
    requires At(c, o, Jump(MAYBE_POP_JUMP, n))
    ensures 0 <= o && o + 3 <= |c|
  {
  }

  lemma {:induction false} LoopHasEnds(f: Frag, c: Code, o: int, t: int, l: int)
    requires WellFormed(f) && At(c, o, Bytes(f)) && |c| < REACH && IsLoop(f, t, l)
    ensures LoopEnds(c, o + t, o + l)
    decreases f, 1
  {
    hide *;
    LoopCases(f, t, l);
    LeafShape(f, t);
    match f
    case Then(a, b) =>
      ThenShape(a, b, c, o, t);
      if IsLoop(a, t, l) {
        LoopHasEnds(a, c, o, t, l);
      } else {
        LoopHasEnds(b, c, o + |Bytes(a)|, t - |Bytes(a)|, l - |Bytes(a)|);
      }
    case Again(b, zero, many) =>
      var k := if zero then 0 else 3;
      if !zero {
        PlusShape(b, c, o, t);
      }
      OwnLoopCases(b, many, t - k, l - k);
      LoopParts(c, o + k, Bytes(b), many);
      if IsLoop(b, t - k - 3, l - k - 3) {
        LoopHasEnds(b, c, o + k + 3, t - k - 3, l - k - 3);
      } else {
        OwnLoopEnds(b, c, o + k);
      }
    case Group(reg, inner, alts) =>
      var m := |Memory(START_MEMORY, reg, inner)|;
      GroupShape(reg, inner, alts, c, o);
      AltLoopHasEnds(alts, c, o + m, t - m, l - m);
    case _ =>
  }

  lemma {:induction false} FrontLoopHasEnds(front: Front, c: Code, o: int, t: int, l: int)
    requires WellFormedFront(front) && front.More? && At(c, o, FrontBytes(front)) && |c| < REACH && IsFrontLoop(front, t, l)
    ensures LoopEnds(c, o + t, o + l)
    decreases front, 1
  {
    hide *;
    FrontLoopCases(front, t, l);
    FrontLoopCases(front.before, t, l);
    FrontParts(c, o, front);
    FrontShape(front, t);
    var k := (if front.before.None? then 0 else |FrontBytes(front.before)| + 3) + 3;
    if IsFrontLoop(front.before, t, l) {
      FrontLoopHasEnds(front.before, c, o, t, l);
    } else {
      LoopHasEnds(front.branch, c, o + k, t - k, l - k);
    }
  }

  lemma {:induction false} AltLoopHasEnds(alts: Alts, c: Code, o: int, t: int, l: int)
    requires WellFormedAlts(alts) && At(c, o, AltBytes(alts)) && |c| < REACH && IsAltLoop(alts, t, l)
    ensures LoopEnds(c, o + t, o + l)
    decreases alts, 1
  {
    hide *;
    AltLoopCases(alts, t, l);
    if alts.front.None? {
      SingleShape(alts, t);
      LoopHasEnds(alts.last, c, o, t, l);
    } else {
      AltsShape(alts, c, o, t);
      var k := |FrontBytes(alts.front)| + 3;
      if IsFrontLoop(alts.front, t, l) {
        FrontLoopHasEnds(alts.front, c, o, t, l);
      } else {
        LoopHasEnds(alts.last, c, o + k, t - k, l - k);
      }
    }
  }

  /** The failure jump of a loop is an instruction. */
  /** Where the instructions of a composite fragment start, in so far as the loops need it. */
  lemma StartCases(f: Frag, x: int)
    ensures f.Then? && (IsStart(f.first, x) || IsStart(f.second, x - |Bytes(f.first)|)) ==> IsStart(f, x)
    ensures f.Again? ==>
      var y := if f.zero then x else x - 3;
      y == 0 || IsStart(f.body, y - 3) ==> IsStart(f, x)
    ensures f.Group? && IsAltStart(f.alts, x - |Memory(START_MEMORY, f.reg, f.inner)|) ==> IsStart(f, x)
  {
    hide IsAltStart, Bytes, AltBytes, IsEndStart;
  }

  lemma {:induction false} LoopStarts(f: Frag, t: int, l: int)
    requires IsLoop(f, t, l)
    ensures IsStart(f, t)
    decreases f, 1
  {
    hide *;
    LoopCases(f, t, l);
    StartCases(f, t);
    match f
    case Then(a, b) =>
      if IsLoop(a, t, l) {
        LoopStarts(a, t, l);
      } else {
        LoopStarts(b, t - |Bytes(a)|, l - |Bytes(a)|);
      }
    case Again(b, zero, many) =>
      var k := if zero then 0 else 3;
      OwnLoopCases(b, many, t - k, l - k);
      if IsLoop(b, t - k - 3, l - k - 3) {
        LoopStarts(b, t - k - 3, l - k - 3);
      }
    case Group(reg, inner, alts) => AltLoopStart(alts, t - |Memory(START_MEMORY, reg, inner)|, l - |Memory(START_MEMORY, reg, inner)|);
    case _ =>
  }

  lemma {:induction false} FrontLoopStart(front: Front, t: int, l: int)
    requires IsFrontLoop(front, t, l)
    ensures IsFrontStart(front, t)
    decreases front, 1
  {
    FrontLoopCases(front, t, l);
    var k := (if front.before.None? then 0 else |FrontBytes(front.before)| + 3) + 3;
    if IsFrontLoop(front.before, t, l) {
      FrontLoopStart(front.before, t, l);
    } else {
      LoopStarts(front.branch, t - k, l - k);
    }
  }

  lemma {:induction false} AltLoopStart(alts: Alts, t: int, l: int)
    requires IsAltLoop(alts, t, l)
    ensures IsAltStart(alts, t)
    decreases alts, 1
  {
    AltLoopCases(alts, t, l);
    if alts.front.None? {
      LoopStarts(alts.last, t, l);
    } else {
      var k := |FrontBytes(alts.front)| + 3;
      if IsFrontLoop(alts.front, t, l) {
        FrontLoopStart(alts.front, t, l);
      } else {
        LoopStarts(alts.last, t - k, l - k);
      }
    }
  }

  // ---- one entry ----

  /** Place y lies in the loop (t, l), but not at its first instruction. */
  predicate Within(t: int, l: int, y: int) {
    t + 3 < y <= l
  }

  predicate DummyJumpAt(c: Code, p: int) {
    0 <= p < |c| && c[p] == DUMMY_FAILURE_JUMP
  }

  /** From the instruction at p, x bytes into the code, place y in the loop (t, l) is come to from the
      loop itself; only its first instruction is also come to from the failure jump in front, or from
      the dummy failure jump that skips that one. */
  predicate Enters(c: Code, p: int, x: int, t: int, l: int, y: int) {
    t + 3 <= x <= l || (y == t + 3 && (x == t || DummyJumpAt(c, p)))
  }

  lemma EntersMeans(c: Code, p: int, x: int, t: int, l: int, y: int)
    ensures Enters(c, p, x, t, l, y) == (t + 3 <= x <= l || (y == t + 3 && (x == t || DummyJumpAt(c, p))))
  {
  }

  /** In the code moved by k bytes. */
  lemma EntersShift(c: Code, p: int, x: int, t: int, l: int, y: int, k: int)
    requires Enters(c, p, x - k, t - k, l - k, y - k)
    ensures Enters(c, p, x, t, l, y)
  {
  }

  lemma DummyJumps(c: Code, o: int)
    requires At(c, o, Jump(DUMMY_FAILURE_JUMP, 3))
    ensures DummyJumpAt(c, o)
  {
    AtJump(c, o, DUMMY_FAILURE_JUMP, 3);
  }

  lemma {:induction false} SingleEntry(f: Frag, c: Code, o: int, s: Text, x: int, d: int, q: int, e: int, t: int, l: int)
    requires WellFormed(f) && At(c, o, Bytes(f)) && |c| < REACH && IsStart(f, x) && Move(c, s, o + x, d, q, e)
    requires IsLoop(f, t, l) && t + 3 <= q - o <= l
    ensures Enters(c, o + x, x, t, l, q - o)
    decreases f, 1
  {
    hide *;
    EntersMeans(c, o + x, x, t, l, q - o);
    LoopRange(f, t, l);
    LoopCases(f, t, l);
    LeafShape(f, x);
    MoveFits(c, s, o + x, d, q, e);
    match f
    case Then(a, b) =>
      ThenShape(a, b, c, o, x);
      var k := |Bytes(a)|;
      if IsStart(a, x) {
        Edge(a, c, o, s, x, d, q, e);
        if IsLoop(a, t, l) {
          SingleEntry(a, c, o, s, x, d, q, e, t, l);
        } else {
          LoopRange(b, t - k, l - k);
        }
      } else {
        Edge(b, c, o + k, s, x - k, d, q, e);
        if IsLoop(b, t - k, l - k) {
          SingleEntry(b, c, o + k, s, x - k, d, q, e, t - k, l - k);
          EntersShift(c, o + x, x, t, l, q - o, k);
        } else {
          LoopRange(a, t, l);
        }
      }
    case Again(b, zero, many) =>
      if zero {
        SingleEntryLoop(b, many, c, o, s, x, d, q, e, t, l);
      } else {
        PlusShape(b, c, o, x);
        if x == 0 {
          JumpMoves(c, s, o, DUMMY_FAILURE_JUMP, 3, d, q, e);
          DummyJumps(c, o);
          OwnLoopCases(b, true, t - 3, l - 3);
          if IsLoop(b, t - 6, l - 6) {
            LoopRange(b, t - 6, l - 6);
          }
        } else {
          SingleEntryLoop(b, true, c, o + 3, s, x - 3, d, q, e, t - 3, l - 3);
          EntersShift(c, o + x, x, t, l, q - o, 3);
        }
      }
    case Group(reg, inner, alts) => SingleEntryGroup(reg, inner, alts, c, o, s, x, d, q, e, t, l);
    case _ =>
  }

  lemma {:induction false} SingleEntryLoop(b: Frag, many: bool, c: Code, o: int, s: Text, x: int, d: int, q: int, e: int, t: int, l: int)
    requires WellFormed(b) && At(c, o, LoopBytes(Bytes(b), many)) && |c| < REACH && IsLoopStart(b, many, x) && Move(c, s, o + x, d, q, e)
    requires IsOwnLoop(b, many, t, l) && t + 3 <= q - o <= l
    ensures Enters(c, o + x, x, t, l, q - o)
    decreases b, 2
  {
    hide *;
    EntersMeans(c, o + x, x, t, l, q - o);
    var L := |Bytes(b)|;
    MoveFits(c, s, o + x, d, q, e);
    LoopParts(c, o, Bytes(b), many);
    LoopShape(b, many, x);
    OwnLoopCases(b, many, t, l);
    if IsLoop(b, t - 3, l - 3) {
      LoopRange(b, t - 3, l - 3);
    }
    if x == 0 {
      JumpMoves(c, s, o, ON_FAILURE_JUMP, if many then L + 3 else L, d, q, e);
    } else if IsStart(b, x - 3) {
      StartRange(b, c, o + 3, x - 3);
      if IsLoop(b, t - 3, l - 3) {
        SingleEntry(b, c, o + 3, s, x - 3, d, q, e, t - 3, l - 3);
        EntersShift(c, o + x, x, t, l, q - o, 3);
      }
    } else {
      JumpMoves(c, s, o + x, MAYBE_POP_JUMP, -(L + 6), d, q, e);
    }
  }

  lemma {:induction false} SingleEntryFront(front: Front, c: Code, o: int, s: Text, x: int, d: int, q: int, e: int, t: int, l: int)
    requires WellFormedFront(front) && front.More? && At(c, o, FrontBytes(front)) && |c| < REACH && IsFrontStart(front, x)
    requires Move(c, s, o + x, d, q, e) && IsFrontLoop(front, t, l) && t + 3 <= q - o <= l
    ensures Enters(c, o + x, x, t, l, q - o)
    decreases front, 1
  {
    hide *;
    EntersMeans(c, o + x, x, t, l, q - o);
    var a := front.branch;
    var L := |Bytes(a)|;
    var k := if front.before.None? then 0 else |FrontBytes(front.before)| + 3;
    MoveFits(c, s, o + x, d, q, e);
    FrontParts(c, o, front);
    FrontShape(front, x);
    FrontLoopCases(front, t, l);
    FrontLoopCases(front.before, t, l);
    FrontLoopRange(front, t, l);
    if IsFrontLoop(front.before, t, l) {
      FrontLoopRange(front.before, t, l);
    } else {
      LoopRange(a, t - k - 3, l - k - 3);
    }
    if front.before.More? && IsFrontStart(front.before, x) {
      FrontRange(front.before, c, o, x);
      EdgeFront(front.before, c, o, s, x, d, q, e);
      if IsFrontLoop(front.before, t, l) {
        SingleEntryFront(front.before, c, o, s, x, d, q, e, t, l);
      }
    } else if front.before.More? && x == k - 3 {
      JumpMoves(c, s, o + x, JUMP_PAST_ALT, L + 3, d, q, e);
    } else if x == k {
      JumpMoves(c, s, o + x, ON_FAILURE_JUMP, L + 3, d, q, e);
    } else {
      StartRange(a, c, o + k + 3, x - k - 3);
      Edge(a, c, o + k + 3, s, x - k - 3, d, q, e);
      if !IsFrontLoop(front.before, t, l) {
        SingleEntry(a, c, o + k + 3, s, x - k - 3, d, q, e, t - k - 3, l - k - 3);
        EntersShift(c, o + x, x, t, l, q - o, k + 3);
      }
    }
  }

  lemma {:induction false} SingleEntryAlts(alts: Alts, c: Code, o: int, s: Text, x: int, d: int, q: int, e: int, t: int, l: int)
    requires WellFormedAlts(alts) && At(c, o, AltBytes(alts)) && |c| < REACH && IsAltStart(alts, x) && Move(c, s, o + x, d, q, e)
    requires IsAltLoop(alts, t, l) && t + 3 <= q - o <= l
    ensures Enters(c, o + x, x, t, l, q - o)
    decreases alts, 1
  {
    hide *;
    EntersMeans(c, o + x, x, t, l, q - o);
    MoveFits(c, s, o + x, d, q, e);
    AltLoopCases(alts, t, l);
    if alts.front.None? {
      SingleShape(alts, x);
      SingleEntry(alts.last, c, o, s, x, d, q, e, t, l);
    } else {
      AltsShape(alts, c, o, x);
      var k, L := |FrontBytes(alts.front)|, |Bytes(alts.last)|;
      if IsFrontLoop(alts.front, t, l) {
        FrontLoopRange(alts.front, t, l);
      } else {
        LoopRange(alts.last, t - k - 3, l - k - 3);
      }
      if IsFrontStart(alts.front, x) {
        FrontRange(alts.front, c, o, x);
        EdgeFront(alts.front, c, o, s, x, d, q, e);
        if IsFrontLoop(alts.front, t, l) {
          SingleEntryFront(alts.front, c, o, s, x, d, q, e, t, l);
        }
      } else if x == k {
        JumpMoves(c, s, o + x, JUMP_PAST_ALT, L, d, q, e);
      } else {
        StartRange(alts.last, c, o + k + 3, x - k - 3);
        Edge(alts.last, c, o + k + 3, s, x - k - 3, d, q, e);
        if !IsFrontLoop(alts.front, t, l) {
          SingleEntry(alts.last, c, o + k + 3, s, x - k - 3, d, q, e, t - k - 3, l - k - 3);
          EntersShift(c, o + x, x, t, l, q - o, k + 3);
        }
      }
    }
  }

  lemma {:induction false} SingleEntryGroup(reg: nat, inner: Byte, alts: Alts, c: Code, o: int, s: Text, x: int, d: int, q: int, e: int, t: int, l: int)
    requires WellFormedAlts(alts) && At(c, o, Bytes(Group(reg, inner, alts))) && |c| < REACH && IsStart(Group(reg, inner, alts), x)
    requires Move(c, s, o + x, d, q, e) && IsLoop(Group(reg, inner, alts), t, l) && t + 3 <= q - o <= l
    ensures Enters(c, o + x, x, t, l, q - o)
    decreases alts, 2
  {
    hide *;
    EntersMeans(c, o + x, x, t, l, q - o);
    var f := Group(reg, inner, alts);
    var u, v := |Memory(START_MEMORY, reg, inner)|, |AltBytes(alts)|;
    MoveFits(c, s, o + x, d, q, e);
    GroupShape(reg, inner, alts, c, o);
    GroupStarts(reg, inner, alts, x);
    LoopCases(f, t, l);
    AltLoopRange(alts, t - u, l - u);
    if x == 0 && u > 0 {
      MarkMoves(c, s, o, START_MEMORY, reg, inner, d, q, e);
    } else if IsAltStart(alts, x - u) {
      SingleEntryAlts(alts, c, o + u, s, x - u, d, q, e, t - u, l - u);
      EntersShift(c, o + x, x, t, l, q - o, u);
    } else {
      EndNonnegative(reg, inner, alts.front.None?, x - u - v);
      EndMoves(reg, inner, alts.front.None?, c, o + u + v, s, x - u - v, d, q, e);
    }
  }
}
