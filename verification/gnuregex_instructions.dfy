/** Instructions follow each other without gaps. */
module RegexInstructions {
  import opened RegexLanguage
  import opened RegexCode
  import opened RegexMeaning
  import opened RegexEdges

  // ---- the first instruction ----

  lemma {:induction false} FirstStart(f: Frag)
    ensures WellFormed(f) && |Bytes(f)| > 0 ==> IsStart(f, 0)
    decreases f, 1
  {
    match f
    case Then(a, b) =>
      FirstStart(a);
      FirstStart(b);
    case Group(reg, inner, alts) => FirstAltStart(alts);
    case _ =>
  }

  lemma {:induction false} FirstFrontStart(front: Front)
    ensures front.More? ==> IsFrontStart(front, 0)
    decreases front, 1
  {
    if front.More? {
      FirstFrontStart(front.before);
    }
  }

  lemma {:induction false} FirstAltStart(alts: Alts)
    ensures WellFormedAlts(alts) && |AltBytes(alts)| > 0 ==> IsAltStart(alts, 0)
    decreases alts, 1
  {
    FirstStart(alts.last);
    FirstFrontStart(alts.front);
  }

  // ---- the next instruction ----

  lemma {:induction false} NextStart(f: Frag, c: Code, o: int, x: int)
    requires WellFormed(f) && At(c, o, Bytes(f)) && |c| < REACH && IsStart(f, x)
    ensures Fits(c, o + x) && (x + Length(c, o + x) == |Bytes(f)| || IsStart(f, x + Length(c, o + x)))
    decreases f, 1
  {
    hide *;
    StartFits(f, c, o, x);
    LeafShape(f, x);
    LeafShape(f, x + Length(c, o + x));
    match f
    case Nothing => NothingStart(x);
    case Exact(chars) => ExactLength(chars, c, o);
    case AnyChar => ByteLength(c, o, ANYCHAR);
    case Dummy => ByteLength(c, o, PUSH_DUMMY_FAILURE);
    case Then(a, b) =>
      var n := |Bytes(a)|;
      ThenShape(a, b, c, o, x);
      if IsStart(a, x) {
        NextStart(a, c, o, x);
        FirstStart(b);
      } else {
        NextStart(b, c, o + n, x - n);
        Shift(o, n, x);
      }
      ThenShape(a, b, c, o, x + Length(c, o + x));
    case Again(b, zero, many) =>
      if zero {
        NextLoopStart(b, many, c, o, x);
      } else {
        PlusShape(b, c, o, x);
        PlusShape(b, c, o, x + Length(c, o + x));
        if x == 0 {
          JumpLength(c, o, DUMMY_FAILURE_JUMP, 3);
          LoopShape(b, true, 0);
        } else {
          NextLoopStart(b, true, c, o + 3, x - 3);
          Shift(o, 3, x);
        }
      }
    case Group(reg, inner, alts) => NextGroupStart(reg, inner, alts, c, o, x);
  }

  lemma Shift(o: int, n: int, x: int)
    ensures (o + n) + (x - n) == o + x
  {
  }

  lemma {:induction false} NextLoopStart(b: Frag, many: bool, c: Code, o: int, x: int)
    requires WellFormed(b) && At(c, o, LoopBytes(Bytes(b), many)) && |c| < REACH && IsLoopStart(b, many, x)
    ensures Fits(c, o + x)
    ensures x + Length(c, o + x) == |LoopBytes(Bytes(b), many)| || IsLoopStart(b, many, x + Length(c, o + x))
    decreases b, 2
  {
    hide *;
    LoopStartFits(b, many, c, o, x);
    LoopParts(c, o, Bytes(b), many);
    LoopShape(b, many, x);
    LoopShape(b, many, x + Length(c, o + x));
    if x == 0 {
      JumpLength(c, o, ON_FAILURE_JUMP, if many then |Bytes(b)| + 3 else |Bytes(b)|);
      FirstStart(b);
    } else if IsStart(b, x - 3) {
      NextStart(b, c, o + 3, x - 3);
      Shift(o, 3, x);
    } else {
      JumpLength(c, o + x, MAYBE_POP_JUMP, -(|Bytes(b)| + 6));
    }
  }

  lemma {:induction false} NextFrontStart(front: Front, c: Code, o: int, x: int)
    requires WellFormedFront(front) && front.More? && At(c, o, FrontBytes(front)) && |c| < REACH && IsFrontStart(front, x)
    ensures Fits(c, o + x) && (x + Length(c, o + x) == |FrontBytes(front)| || IsFrontStart(front, x + Length(c, o + x)))
    decreases front, 1
  {
    hide *;
    FrontStartFits(front, c, o, x);
    FrontParts(c, o, front);
    FrontShape(front, x);
    FrontShape(front, x + Length(c, o + x));
    var a := front.branch;
    var k := if front.before.None? then 0 else |FrontBytes(front.before)| + 3;
    if front.before.More? && IsFrontStart(front.before, x) {
      NextFrontStart(front.before, c, o, x);
    } else if front.before.More? && x == k - 3 {
      JumpLength(c, o + x, JUMP_PAST_ALT, |Bytes(a)| + 3);
    } else if x == k {
      JumpLength(c, o + x, ON_FAILURE_JUMP, |Bytes(a)| + 3);
      FirstStart(a);
    } else {
      NextStart(a, c, o + k + 3, x - k - 3);
      Shift(o, k + 3, x);
    }
  }

  lemma {:induction false} NextAltStart(alts: Alts, c: Code, o: int, x: int)
    requires WellFormedAlts(alts) && At(c, o, AltBytes(alts)) && |c| < REACH && IsAltStart(alts, x)
    ensures Fits(c, o + x) && (x + Length(c, o + x) == |AltBytes(alts)| || IsAltStart(alts, x + Length(c, o + x)))
    decreases alts, 1
  {
    hide *;
    AltStartFits(alts, c, o, x);
    if alts.front.None? {
      SingleShape(alts, x);
      SingleShape(alts, x + Length(c, o + x));
      NextStart(alts.last, c, o, x);
    } else {
      AltsShape(alts, c, o, x);
      AltsShape(alts, c, o, x + Length(c, o + x));
      var k := |FrontBytes(alts.front)|;
      if IsFrontStart(alts.front, x) {
        NextFrontStart(alts.front, c, o, x);
      } else if x == k {
        JumpLength(c, o + x, JUMP_PAST_ALT, |Bytes(alts.last)|);
        FirstStart(alts.last);
      } else {
        NextStart(alts.last, c, o + k + 3, x - k - 3);
        Shift(o, k + 3, x);
      }
    }
  }

  lemma EndShape(reg: nat, inner: Byte, single: bool, x: int)
    ensures IsEndStart(reg, inner, single, x) == if single then reg <= MAX_REGNUM && x == 0 else x == 0 || (reg <= MAX_REGNUM && x == 1)
    ensures |GroupEnd(reg, inner, single)| == (if single then 0 else 1) + (if reg <= MAX_REGNUM then 3 else 0)
  {
  }

  lemma NextEndStart(reg: nat, inner: Byte, single: bool, c: Code, o: int, x: int)
    requires At(c, o, GroupEnd(reg, inner, single)) && IsEndStart(reg, inner, single, x)
    ensures Fits(c, o + x) && (x + Length(c, o + x) == |GroupEnd(reg, inner, single)| || IsEndStart(reg, inner, single, x + Length(c, o + x)))
  {
    hide At, Fits, Length;
    if single {
      assert [] + Memory(STOP_MEMORY, reg, inner) == Memory(STOP_MEMORY, reg, inner);
      MemoryLength(c, o, STOP_MEMORY, reg, inner);
    } else {
      AtParts(c, o, [PUSH_DUMMY_FAILURE], Memory(STOP_MEMORY, reg, inner));
      ByteLength(c, o, PUSH_DUMMY_FAILURE);
      if x == 1 {
        MemoryLength(c, o + 1, STOP_MEMORY, reg, inner);
      }
    }
  }

  lemma {:induction false} NextGroupStart(reg: nat, inner: Byte, alts: Alts, c: Code, o: int, x: int)
    requires WellFormedAlts(alts) && At(c, o, Bytes(Group(reg, inner, alts))) && |c| < REACH && IsStart(Group(reg, inner, alts), x)
    ensures Fits(c, o + x)
    ensures var y := x + Length(c, o + x); y == |Bytes(Group(reg, inner, alts))| || IsStart(Group(reg, inner, alts), y)
    decreases alts, 2
  {
    hide *;
    var u, v, single := |Memory(START_MEMORY, reg, inner)|, |AltBytes(alts)|, alts.front.None?;
    GroupStartFits(reg, inner, alts, c, o, x);
    GroupShape(reg, inner, alts, c, o);
    GroupStarts(reg, inner, alts, x);
    GroupStarts(reg, inner, alts, x + Length(c, o + x));
    FirstAltStart(alts);
    EndShape(reg, inner, single, 0);
    NumberedMark(reg, inner);
    if x == 0 && u > 0 {
      MemoryLength(c, o, START_MEMORY, reg, inner);
    } else if IsAltStart(alts, x - u) {
      NextAltStart(alts, c, o + u, x - u);
      Shift(o, u, x);
    } else {
      NextEndStart(reg, inner, single, c, o + u + v, x - u - v);
      Shift(o, u + v, x);
    }
  }

  lemma NumberedMark(reg: nat, inner: Byte)
    ensures |Memory(START_MEMORY, reg, inner)| == if reg <= MAX_REGNUM then 3 else 0
  {
  }
}
