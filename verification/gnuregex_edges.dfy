/** How the moves of a laid-out program relate to its loops: instructions do not overlap, every move
    stays inside its piece, and loops are entered and left as nested blocks are. */
module RegexEdges {
  import opened RegexLanguage
  import opened RegexCode
  import opened RegexMeaning

  function Length(c: Code, p: int): int
    requires Fits(c, p)
  {
    var n: int := if p + 1 < |c| then c[p + 1] else 0;
    if c[p] == EXACTN then 2 + n else if c[p] == ANYCHAR || c[p] == PUSH_DUMMY_FAILURE then 1 else 3
  }

  // ---- instructions do not overlap ----

  lemma StartRange(f: Frag, c: Code, o: int, x: int)
    requires WellFormed(f) && At(c, o, Bytes(f)) && |c| < REACH
    ensures IsStart(f, x) ==> 0 <= x < |Bytes(f)|
  {
    hide *;
    if IsStart(f, x) {
      StartFits(f, c, o, x);
    }
  }

  lemma FrontRange(front: Front, c: Code, o: int, x: int)
    requires WellFormedFront(front) && front.More? && At(c, o, FrontBytes(front)) && |c| < REACH
    ensures IsFrontStart(front, x) ==> 0 <= x < |FrontBytes(front)|
  {
    hide *;
    if IsFrontStart(front, x) {
      FrontStartFits(front, c, o, x);
    }
  }

  lemma AltRange(alts: Alts, c: Code, o: int, x: int)
    requires WellFormedAlts(alts) && At(c, o, AltBytes(alts)) && |c| < REACH
    ensures IsAltStart(alts, x) ==> 0 <= x < |AltBytes(alts)|
  {
    hide *;
    if IsAltStart(alts, x) {
      AltStartFits(alts, c, o, x);
    }
  }

  lemma JumpLength(c: Code, o: int, op: Byte, n: int)
    requires At(c, o, Jump(op, n)) && (IsJump(op) || op == ON_FAILURE_JUMP)
    ensures Fits(c, o) && Length(c, o) == 3 && c[o] == op
  {
    JumpFits(c, o, op, n);
  }

  lemma ByteLength(c: Code, o: int, op: Byte)
    requires At(c, o, [op]) && (op == ANYCHAR || op == PUSH_DUMMY_FAILURE)
    ensures Fits(c, o) && Length(c, o) == 1
  {
    ByteFits(c, o, op);
  }

  lemma MemoryLength(c: Code, o: int, op: Byte, reg: nat, inner: Byte)
    requires At(c, o, Memory(op, reg, inner)) && |Memory(op, reg, inner)| > 0 && (op == START_MEMORY || op == STOP_MEMORY)
    ensures Fits(c, o) && Length(c, o) == 3 == |Memory(op, reg, inner)|
  {
    MemoryFits(c, o, op, reg, inner);
  }

  lemma ExactLength(chars: Text, c: Code, o: int)
    requires WellFormed(Exact(chars)) && At(c, o, Bytes(Exact(chars)))
    ensures Fits(c, o) && Length(c, o) == |Bytes(Exact(chars))|
  {
    ExactFits(chars, c, o);
    AtByte(c, o, Bytes(Exact(chars)), 0);
    AtByte(c, o, Bytes(Exact(chars)), 1);
  }

  lemma {:induction false} Apart(f: Frag, c: Code, o: int, x: int, y: int)
    requires WellFormed(f) && At(c, o, Bytes(f)) && |c| < REACH && IsStart(f, x)
    ensures Fits(c, o + x) && 0 <= x && x + Length(c, o + x) <= |Bytes(f)|
    ensures x < y < x + Length(c, o + x) ==> !IsStart(f, y)
    decreases f, 1
  {
    hide *;
    StartRange(f, c, o, x);
    LeafShape(f, x);
    LeafShape(f, y);
    match f
    case Nothing => NothingStart(x);
    case Exact(chars) => ExactLength(chars, c, o);
    case AnyChar => ByteLength(c, o, ANYCHAR);
    case Dummy => ByteLength(c, o, PUSH_DUMMY_FAILURE);
    case Then(a, b) =>
      ThenShape(a, b, c, o, x);
      ThenShape(a, b, c, o, y);
      StartRange(a, c, o, y);
      StartRange(b, c, o + |Bytes(a)|, y - |Bytes(a)|);
      if IsStart(a, x) {
        Apart(a, c, o, x, y);
      } else {
        StartRange(b, c, o + |Bytes(a)|, x - |Bytes(a)|);
        Apart(b, c, o + |Bytes(a)|, x - |Bytes(a)|, y - |Bytes(a)|);
      }
    case Again(b, zero, many) =>
      if zero {
        ApartLoop(b, many, c, o, x, y);
      } else {
        PlusShape(b, c, o, x);
        PlusShape(b, c, o, y);
        JumpLength(c, o, DUMMY_FAILURE_JUMP, 3);
        LoopStartRange(b, true, c, o + 3, y - 3);
        if x != 0 {
          LoopStartRange(b, true, c, o + 3, x - 3);
          ApartLoop(b, true, c, o + 3, x - 3, y - 3);
        }
      }
    case Group(reg, inner, alts) => ApartGroup(reg, inner, alts, c, o, x, y);
  }

  lemma LoopStartRange(b: Frag, many: bool, c: Code, o: int, x: int)
    requires WellFormed(b) && At(c, o, LoopBytes(Bytes(b), many)) && |c| < REACH
    ensures IsLoopStart(b, many, x) ==> 0 <= x < |LoopBytes(Bytes(b), many)|
  {
    hide *;
    if IsLoopStart(b, many, x) {
      LoopStartFits(b, many, c, o, x);
    }
  }

  lemma {:induction false} ApartLoop(b: Frag, many: bool, c: Code, o: int, x: int, y: int)
    requires WellFormed(b) && At(c, o, LoopBytes(Bytes(b), many)) && |c| < REACH && IsLoopStart(b, many, x)
    ensures Fits(c, o + x) && 0 <= x && x + Length(c, o + x) <= |LoopBytes(Bytes(b), many)|
    ensures x < y < x + Length(c, o + x) ==> !IsLoopStart(b, many, y)
    decreases b, 2
  {
    hide *;
    LoopParts(c, o, Bytes(b), many);
    LoopShape(b, many, x);
    LoopShape(b, many, y);
    StartRange(b, c, o + 3, y - 3);
    if x == 0 {
      JumpLength(c, o, ON_FAILURE_JUMP, if many then |Bytes(b)| + 3 else |Bytes(b)|);
    } else if IsStart(b, x - 3) {
      StartRange(b, c, o + 3, x - 3);
      Apart(b, c, o + 3, x - 3, y - 3);
    } else {
      JumpLength(c, o + x, MAYBE_POP_JUMP, -(|Bytes(b)| + 6));
    }
  }

  lemma {:induction false} ApartFront(front: Front, c: Code, o: int, x: int, y: int)
    requires WellFormedFront(front) && front.More? && At(c, o, FrontBytes(front)) && |c| < REACH && IsFrontStart(front, x)
    ensures Fits(c, o + x) && 0 <= x && x + Length(c, o + x) <= |FrontBytes(front)|
    ensures x < y < x + Length(c, o + x) ==> !IsFrontStart(front, y)
    decreases front, 1
  {
    hide *;
    FrontParts(c, o, front);
    FrontShape(front, x);
    FrontShape(front, y);
    var a := front.branch;
    var k := if front.before.None? then 0 else |FrontBytes(front.before)| + 3;
    StartRange(a, c, o + k + 3, y - k - 3);
    if front.before.More? {
      FrontRange(front.before, c, o, x);
      FrontRange(front.before, c, o, y);
    }
    if front.before.More? && IsFrontStart(front.before, x) {
      ApartFront(front.before, c, o, x, y);
    } else if front.before.More? && x == k - 3 {
      JumpLength(c, o + x, JUMP_PAST_ALT, |Bytes(a)| + 3);
    } else if x == k {
      JumpLength(c, o + x, ON_FAILURE_JUMP, |Bytes(a)| + 3);
    } else {
      StartRange(a, c, o + k + 3, x - k - 3);
      Apart(a, c, o + k + 3, x - k - 3, y - k - 3);
    }
  }

  lemma {:induction false} ApartAlts(alts: Alts, c: Code, o: int, x: int, y: int)
    requires WellFormedAlts(alts) && At(c, o, AltBytes(alts)) && |c| < REACH && IsAltStart(alts, x)
    ensures Fits(c, o + x) && 0 <= x && x + Length(c, o + x) <= |AltBytes(alts)|
    ensures x < y < x + Length(c, o + x) ==> !IsAltStart(alts, y)
    decreases alts, 1
  {
    hide *;
    if alts.front.None? {
      SingleShape(alts, x);
      SingleShape(alts, y);
      Apart(alts.last, c, o, x, y);
    } else {
      AltsShape(alts, c, o, x);
      AltsShape(alts, c, o, y);
      var k := |FrontBytes(alts.front)|;
      FrontRange(alts.front, c, o, x);
      FrontRange(alts.front, c, o, y);
      StartRange(alts.last, c, o + k + 3, y - k - 3);
      if IsFrontStart(alts.front, x) {
        ApartFront(alts.front, c, o, x, y);
      } else if x == k {
        JumpLength(c, o + x, JUMP_PAST_ALT, |Bytes(alts.last)|);
      } else {
        StartRange(alts.last, c, o + k + 3, x - k - 3);
        Apart(alts.last, c, o + k + 3, x - k - 3, y - k - 3);
      }
    }
  }

  lemma EndRange(reg: nat, inner: Byte, single: bool, c: Code, o: int, x: int)
    requires At(c, o, GroupEnd(reg, inner, single)) && IsEndStart(reg, inner, single, x)
    ensures Fits(c, o + x) && 0 <= x && x + Length(c, o + x) <= |GroupEnd(reg, inner, single)|
    ensures forall y :: x < y < x + Length(c, o + x) ==> !IsEndStart(reg, inner, single, y)
  {
    hide At, Fits, Length;
    if single {
      assert [] + Memory(STOP_MEMORY, reg, inner) == Memory(STOP_MEMORY, reg, inner);
      MemoryLength(c, o, STOP_MEMORY, reg, inner);
    } else {
      AtParts(c, o, [PUSH_DUMMY_FAILURE], Memory(STOP_MEMORY, reg, inner));
      ByteLength(c, o, PUSH_DUMMY_FAILURE);
      if x == 1 {
        MemoryLength(c, o + 1, STOP_MEMORY, reg, inner);
      }
    }
  }

  lemma EndNonnegative(reg: nat, inner: Byte, single: bool, x: int)
    ensures IsEndStart(reg, inner, single, x) ==> 0 <= x
    ensures |Memory(START_MEMORY, reg, inner)| >= 0
  {
  }

  lemma {:induction false} ApartGroup(reg: nat, inner: Byte, alts: Alts, c: Code, o: int, x: int, y: int)
    requires WellFormedAlts(alts) && At(c, o, Bytes(Group(reg, inner, alts))) && |c| < REACH && IsStart(Group(reg, inner, alts), x)
    ensures Fits(c, o + x) && 0 <= x && x + Length(c, o + x) <= |Bytes(Group(reg, inner, alts))|
    ensures x < y < x + Length(c, o + x) ==> !IsStart(Group(reg, inner, alts), y)
    decreases alts, 2
  {
    hide *;
    var u, v := |Memory(START_MEMORY, reg, inner)|, |AltBytes(alts)|;
    GroupShape(reg, inner, alts, c, o);
    GroupStarts(reg, inner, alts, x);
    GroupStarts(reg, inner, alts, y);
    AltRange(alts, c, o + u, y - u);
    EndNonnegative(reg, inner, alts.front.None?, y - u - v);
    if x == 0 && u > 0 {
      MemoryLength(c, o, START_MEMORY, reg, inner);
    } else if IsAltStart(alts, x - u) {
      AltRange(alts, c, o + u, x - u);
      ApartAlts(alts, c, o + u, x - u, y - u);
    } else {
      EndNonnegative(reg, inner, alts.front.None?, x - u - v);
      EndRange(reg, inner, alts.front.None?, c, o + u + v, x - u - v);
    }
  }

  // ---- what the compiler emits ----

  lemma {:induction false} Opcodes(f: Frag, c: Code, o: int, x: int)
    requires WellFormed(f) && At(c, o, Bytes(f)) && |c| < REACH && IsStart(f, x)
    ensures Fits(c, o + x) && c[o + x] != POP_FAILURE_JUMP && c[o + x] != JUMP
    decreases f, 1
  {
    hide *;
    StartFits(f, c, o, x);
    LeafShape(f, x);
    match f
    case Nothing => NothingStart(x);
    case Exact(chars) => ExactOpcode(chars, c, o);
    case AnyChar => ByteOpcode(c, o, ANYCHAR);
    case Dummy => ByteOpcode(c, o, PUSH_DUMMY_FAILURE);
    case Then(a, b) =>
      ThenShape(a, b, c, o, x);
      if IsStart(a, x) {
        Opcodes(a, c, o, x);
      } else {
        Opcodes(b, c, o + |Bytes(a)|, x - |Bytes(a)|);
      }
    case Again(b, zero, many) =>
      if zero {
        LoopOpcodes(b, many, c, o, x);
      } else {
        PlusShape(b, c, o, x);
        if x == 0 {
          JumpOpcode(c, o, DUMMY_FAILURE_JUMP, 3);
        } else {
          LoopOpcodes(b, true, c, o + 3, x - 3);
        }
      }
    case Group(reg, inner, alts) =>
      var u, v := |Memory(START_MEMORY, reg, inner)|, |AltBytes(alts)|;
      GroupShape(reg, inner, alts, c, o);
      GroupStarts(reg, inner, alts, x);
      if x == 0 && u > 0 {
        MarkOpcode(c, o, START_MEMORY, reg, inner);
      } else if IsAltStart(alts, x - u) {
        AltOpcodes(alts, c, o + u, x - u);
      } else {
        EndOpcodes(reg, inner, alts.front.None?, c, o + u + v, x - u - v);
      }
  }

  lemma ExactOpcode(chars: Text, c: Code, o: int)
    requires WellFormed(Exact(chars)) && At(c, o, Bytes(Exact(chars)))
    ensures 0 <= o < |c| && c[o] != POP_FAILURE_JUMP && c[o] != JUMP
  {
    AtByte(c, o, Bytes(Exact(chars)), 0);
  }

  lemma ByteOpcode(c: Code, o: int, op: Byte)
    requires At(c, o, [op]) && (op == ANYCHAR || op == PUSH_DUMMY_FAILURE)
    ensures 0 <= o < |c| && c[o] != POP_FAILURE_JUMP && c[o] != JUMP
  {
    AtByte(c, o, [op], 0);
  }

  lemma JumpOpcode(c: Code, o: int, op: Byte, n: int)
    requires At(c, o, Jump(op, n)) && (op == JUMP_PAST_ALT || op == ON_FAILURE_JUMP || op == MAYBE_POP_JUMP || op == DUMMY_FAILURE_JUMP)
    ensures Fits(c, o) && c[o] != POP_FAILURE_JUMP && c[o] != JUMP
  {
    JumpFits(c, o, op, n);
  }

  lemma MarkOpcode(c: Code, o: int, op: Byte, reg: nat, inner: Byte)
    requires At(c, o, Memory(op, reg, inner)) && |Memory(op, reg, inner)| > 0 && (op == START_MEMORY || op == STOP_MEMORY)
    ensures 0 <= o < |c| && c[o] != POP_FAILURE_JUMP && c[o] != JUMP
  {
    MemoryFits(c, o, op, reg, inner);
  }

  lemma EndOpcodes(reg: nat, inner: Byte, single: bool, c: Code, o: int, x: int)
    requires At(c, o, GroupEnd(reg, inner, single)) && IsEndStart(reg, inner, single, x)
    ensures 0 <= o + x < |c| && c[o + x] != POP_FAILURE_JUMP && c[o + x] != JUMP
  {
    hide At;
    if single {
      assert [] + Memory(STOP_MEMORY, reg, inner) == Memory(STOP_MEMORY, reg, inner);
      MarkOpcode(c, o, STOP_MEMORY, reg, inner);
    } else {
      AtParts(c, o, [PUSH_DUMMY_FAILURE], Memory(STOP_MEMORY, reg, inner));
      ByteOpcode(c, o, PUSH_DUMMY_FAILURE);
      if x == 1 {
        MarkOpcode(c, o + 1, STOP_MEMORY, reg, inner);
      }
    }
  }

  lemma {:induction false} LoopOpcodes(b: Frag, many: bool, c: Code, o: int, x: int)
    requires WellFormed(b) && At(c, o, LoopBytes(Bytes(b), many)) && |c| < REACH && IsLoopStart(b, many, x)
    ensures Fits(c, o + x) && c[o + x] != POP_FAILURE_JUMP && c[o + x] != JUMP
    decreases b, 2
  {
    hide *;
    LoopParts(c, o, Bytes(b), many);
    LoopShape(b, many, x);
    if x == 0 {
      JumpOpcode(c, o, ON_FAILURE_JUMP, if many then |Bytes(b)| + 3 else |Bytes(b)|);
    } else if IsStart(b, x - 3) {
      Opcodes(b, c, o + 3, x - 3);
    } else {
      JumpOpcode(c, o + x, MAYBE_POP_JUMP, -(|Bytes(b)| + 6));
    }
  }

  lemma {:induction false} FrontOpcodes(front: Front, c: Code, o: int, x: int)
    requires WellFormedFront(front) && front.More? && At(c, o, FrontBytes(front)) && |c| < REACH && IsFrontStart(front, x)
    ensures Fits(c, o + x) && c[o + x] != POP_FAILURE_JUMP && c[o + x] != JUMP
    decreases front, 1
  {
    hide *;
    FrontParts(c, o, front);
    FrontShape(front, x);
    var a := front.branch;
    var k := if front.before.None? then 0 else |FrontBytes(front.before)| + 3;
    if front.before.More? && IsFrontStart(front.before, x) {
      FrontOpcodes(front.before, c, o, x);
    } else if front.before.More? && x == k - 3 {
      JumpOpcode(c, o + x, JUMP_PAST_ALT, |Bytes(a)| + 3);
    } else if x == k {
      JumpOpcode(c, o + x, ON_FAILURE_JUMP, |Bytes(a)| + 3);
    } else {
      Opcodes(a, c, o + k + 3, x - k - 3);
    }
  }

  lemma {:induction false} AltOpcodes(alts: Alts, c: Code, o: int, x: int)
    requires WellFormedAlts(alts) && At(c, o, AltBytes(alts)) && |c| < REACH && IsAltStart(alts, x)
    ensures Fits(c, o + x) && c[o + x] != POP_FAILURE_JUMP && c[o + x] != JUMP
    decreases alts, 1
  {
    hide *;
    if alts.front.None? {
      SingleShape(alts, x);
      Opcodes(alts.last, c, o, x);
    } else {
      AltsShape(alts, c, o, x);
      var k := |FrontBytes(alts.front)|;
      if IsFrontStart(alts.front, x) {
        FrontOpcodes(alts.front, c, o, x);
      } else if x == k {
        JumpOpcode(c, o + x, JUMP_PAST_ALT, |Bytes(alts.last)|);
      } else {
        Opcodes(alts.last, c, o + k + 3, x - k - 3);
      }
    }
  }

  // ---- loops nest ----

  /** The number of loops whose body, or jump back, is at x. */
  function Depth(f: Frag, x: int): nat
    decreases f, 1
  {
    match f
    case Then(a, b) => Depth(a, x) + Depth(b, x - |Bytes(a)|)
    case Again(b, zero, many) => LoopDepth(b, many, if zero then x else x - 3)
    case Group(reg, inner, alts) => AltDepth(alts, x - |Memory(START_MEMORY, reg, inner)|)
    case _ => 0
  }

  function LoopDepth(b: Frag, many: bool, x: int): nat
    decreases b, 2
  {
    (if many && 3 <= x <= |Bytes(b)| + 3 then 1 else 0) + Depth(b, x - 3)
  }

  function FrontDepth(front: Front, x: int): nat
    decreases front, 1
  {
    match front
    case None => 0
    case More(before, branch) =>
      FrontDepth(before, x) + Depth(branch, x - (if before.None? then 0 else |FrontBytes(before)| + 3) - 3)
  }

  function AltDepth(alts: Alts, x: int): nat
    decreases alts, 1
  {
    if alts.front.None? then Depth(alts.last, x)
    else FrontDepth(alts.front, x) + Depth(alts.last, x - |FrontBytes(alts.front)| - 3)
  }

  lemma DepthShape(f: Frag, x: int)
    ensures f.Then? ==> Depth(f, x) == Depth(f.first, x) + Depth(f.second, x - |Bytes(f.first)|) && |Bytes(f)| == |Bytes(f.first)| + |Bytes(f.second)|
    ensures f.Again? ==> Depth(f, x) == LoopDepth(f.body, f.many, if f.zero then x else x - 3)
    ensures f.Again? ==> |Bytes(f)| == |Bytes(f.body)| + (if f.many then 6 else 3) + (if f.zero then 0 else 3)
    ensures f.Group? ==>
      && Depth(f, x) == AltDepth(f.alts, x - |Memory(START_MEMORY, f.reg, f.inner)|)
      && |Bytes(f)| >= |Memory(START_MEMORY, f.reg, f.inner)| + |AltBytes(f.alts)|
    ensures f.Nothing? || f.Exact? || f.AnyChar? || f.Dummy? ==> Depth(f, x) == 0
  {
    hide AltDepth, LoopDepth, AltBytes;
  }

  lemma LoopDepthShape(b: Frag, many: bool, x: int)
    ensures LoopDepth(b, many, x) == (if many && 3 <= x <= |Bytes(b)| + 3 then 1 else 0) + Depth(b, x - 3)
  {
  }

  lemma FrontDepthShape(front: Front, x: int)
    ensures front.None? ==> FrontDepth(front, x) == 0
    ensures front.More? ==>
      var k := if front.before.None? then 0 else |FrontBytes(front.before)| + 3;
      FrontDepth(front, x) == FrontDepth(front.before, x) + Depth(front.branch, x - k - 3) && |FrontBytes(front)| == k + 3 + |Bytes(front.branch)|
  {
  }

  lemma AltDepthShape(alts: Alts, x: int)
    ensures alts.front.None? ==> AltDepth(alts, x) == Depth(alts.last, x) && AltBytes(alts) == Bytes(alts.last)
    ensures alts.front.More? ==>
      var k := |FrontBytes(alts.front)|;
      AltDepth(alts, x) == FrontDepth(alts.front, x) + Depth(alts.last, x - k - 3) && |AltBytes(alts)| == k + 3 + |Bytes(alts.last)|
  {
  }

  /** Outside a piece, and at its very start, no loop of it has been entered. */
  lemma {:induction false} DepthOutside(f: Frag, x: int)
    requires x <= 0 || |Bytes(f)| <= x
    ensures Depth(f, x) == 0
    decreases f, 1
  {
    hide *;
    DepthShape(f, x);
    match f
    case Then(a, b) =>
      DepthOutside(a, x);
      DepthOutside(b, x - |Bytes(a)|);
    case Again(b, zero, many) =>
      var y := if zero then x else x - 3;
      LoopDepthShape(b, many, y);
      DepthOutside(b, y - 3);
    case Group(reg, inner, alts) => AltDepthOutside(alts, x - |Memory(START_MEMORY, reg, inner)|);
    case _ =>
  }

  lemma {:induction false} FrontDepthOutside(front: Front, x: int)
    requires x <= 0 || |FrontBytes(front)| <= x
    ensures FrontDepth(front, x) == 0
    decreases front, 1
  {
    hide *;
    FrontDepthShape(front, x);
    if front.More? {
      var k := if front.before.None? then 0 else |FrontBytes(front.before)| + 3;
      if front.before.More? {
        FrontDepthOutside(front.before, x);
      } else {
        FrontDepthShape(front.before, x);
      }
      DepthOutside(front.branch, x - k - 3);
    }
  }

  lemma {:induction false} AltDepthOutside(alts: Alts, x: int)
    requires x <= 0 || |AltBytes(alts)| <= x
    ensures AltDepth(alts, x) == 0
    decreases alts, 1
  {
    hide *;
    AltDepthShape(alts, x);
    if alts.front.None? {
      DepthOutside(alts.last, x);
    } else {
      FrontDepthOutside(alts.front, x);
      DepthOutside(alts.last, x - |FrontBytes(alts.front)| - 3);
    }
  }

  /** What a move from x to y may do to the depth: an instruction that pushes a failure point may go
      one loop deeper, the jump back of a loop leaves it, and a failure target is no deeper. */
  ghost predicate Climbs(c: Code, p: int, q: int, depth: nat, depth': nat)
    requires Fits(c, p)
  {
    if c[p] == MAYBE_POP_JUMP then depth' < depth
    else if c[p] == DUMMY_FAILURE_JUMP then depth' <= depth + 1 && q == p + 6
    else if c[p] == ON_FAILURE_JUMP && q == p + 3 && Number(c, p + 1) != 0 then depth' <= depth + 1
    else depth' <= depth
  }

  /** Equal shifts on both sides keep a climb. */
  lemma ClimbsBeside(c: Code, p: int, q: int, a: nat, a': nat, n: nat, n': nat)
    requires Fits(c, p) && Climbs(c, p, q, a, a') && n' <= n
    ensures Climbs(c, p, q, a + n, a' + n')
  {
  }

  lemma MoveFits(c: Code, s: Text, p: int, d: int, q: int, e: int)
    requires Move(c, s, p, d, q, e)
    ensures Fits(c, p) && 0 <= d <= e <= |s|
  {
  }

  lemma PlainClimb(c: Code, p: int, q: int, n: nat, n': nat)
    requires Fits(c, p) && n' <= n && c[p] != MAYBE_POP_JUMP && c[p] != DUMMY_FAILURE_JUMP
    ensures Climbs(c, p, q, n, n')
  {
  }

  lemma {:induction false} Edge(f: Frag, c: Code, o: int, s: Text, x: int, d: int, q: int, e: int)
    requires WellFormed(f) && At(c, o, Bytes(f)) && |c| < REACH && IsStart(f, x) && Move(c, s, o + x, d, q, e)
    ensures Fits(c, o + x) && o <= q <= o + |Bytes(f)| && Climbs(c, o + x, q, Depth(f, x), Depth(f, q - o))
    decreases f, 1
  {
    hide *;
    MoveFits(c, s, o + x, d, q, e);
    LeafShape(f, x);
    DepthShape(f, x);
    DepthShape(f, q - o);
    match f
    case Nothing => NothingStart(x);
    case Exact(chars) =>
      ExactMoves(c, s, o, chars, d, q, e);
      ExactPlain(chars, c, o);
      PlainClimb(c, o, q, 0, 0);
    case AnyChar =>
      AnyMoves(c, s, o, d, q, e);
      BytePlain(c, o, ANYCHAR);
      PlainClimb(c, o, q, 0, 0);
    case Dummy =>
      DummyMoves(c, s, o, d, q, e);
      BytePlain(c, o, PUSH_DUMMY_FAILURE);
      PlainClimb(c, o, q, 0, 0);
    case Then(a, b) =>
      ThenShape(a, b, c, o, x);
      var k := |Bytes(a)|;
      StartRange(a, c, o, x);
      StartRange(b, c, o + k, x - k);
      if IsStart(a, x) {
        Edge(a, c, o, s, x, d, q, e);
        DepthOutside(b, x - k);
        DepthOutside(b, q - o - k);
      } else {
        Edge(b, c, o + k, s, x - k, d, q, e);
        DepthOutside(a, x);
        DepthOutside(a, q - o);
      }
    case Again(b, zero, many) =>
      if zero {
        EdgeLoop(b, many, c, o, s, x, d, q, e);
      } else {
        PlusShape(b, c, o, x);
        if x == 0 {
          JumpMoves(c, s, o, DUMMY_FAILURE_JUMP, 3, d, q, e);
          JumpLength(c, o, DUMMY_FAILURE_JUMP, 3);
          LoopDepthShape(b, true, 3);
          DepthOutside(b, 0);
          DummyClimb(c, o, q, LoopDepth(b, true, -3), 1);
        } else {
          EdgeLoop(b, true, c, o + 3, s, x - 3, d, q, e);
        }
      }
    case Group(reg, inner, alts) => EdgeGroup(reg, inner, alts, c, o, s, x, d, q, e);
  }

  lemma DummyClimb(c: Code, p: int, q: int, n: nat, n': nat)
    requires Fits(c, p) && c[p] == DUMMY_FAILURE_JUMP && n' <= n + 1 && q == p + 6
    ensures Climbs(c, p, q, n, n')
  {
  }

  lemma ExactPlain(chars: Text, c: Code, o: int)
    requires WellFormed(Exact(chars)) && At(c, o, Bytes(Exact(chars)))
    ensures 0 <= o < |c| && c[o] == EXACTN && |Bytes(Exact(chars))| == |chars| + 2
    ensures EXACTN != MAYBE_POP_JUMP && EXACTN != DUMMY_FAILURE_JUMP
  {
    AtByte(c, o, Bytes(Exact(chars)), 0);
  }

  lemma BytePlain(c: Code, o: int, op: Byte)
    requires At(c, o, [op]) && (op == ANYCHAR || op == PUSH_DUMMY_FAILURE)
    ensures 0 <= o < |c| && c[o] != MAYBE_POP_JUMP && c[o] != DUMMY_FAILURE_JUMP
  {
    AtByte(c, o, [op], 0);
  }

  lemma {:induction false} EdgeLoop(b: Frag, many: bool, c: Code, o: int, s: Text, x: int, d: int, q: int, e: int)
    requires WellFormed(b) && At(c, o, LoopBytes(Bytes(b), many)) && |c| < REACH && IsLoopStart(b, many, x) && Move(c, s, o + x, d, q, e)
    ensures Fits(c, o + x) && o <= q <= o + |LoopBytes(Bytes(b), many)|
    ensures Climbs(c, o + x, q, LoopDepth(b, many, x), LoopDepth(b, many, q - o))
    decreases b, 2
  {
    hide *;
    var L := |Bytes(b)|;
    MoveFits(c, s, o + x, d, q, e);
    LoopParts(c, o, Bytes(b), many);
    LoopShape(b, many, x);
    LoopDepthShape(b, many, x);
    LoopDepthShape(b, many, q - o);
    if x == 0 {
      JumpMoves(c, s, o, ON_FAILURE_JUMP, if many then L + 3 else L, d, q, e);
      JumpLength(c, o, ON_FAILURE_JUMP, if many then L + 3 else L);
      DepthOutside(b, -3);
      DepthOutside(b, q - o - 3);
      FailureClimb(c, o, q, if many then L + 3 else L, LoopDepth(b, many, 0), LoopDepth(b, many, q - o));
    } else if IsStart(b, x - 3) {
      StartRange(b, c, o + 3, x - 3);
      Edge(b, c, o + 3, s, x - 3, d, q, e);
      ClimbsBeside(c, o + x, q, Depth(b, x - 3), Depth(b, q - o - 3), if many then 1 else 0, if many && 3 <= q - o <= L + 3 then 1 else 0);
    } else {
      JumpMoves(c, s, o + x, MAYBE_POP_JUMP, -(L + 6), d, q, e);
      JumpLength(c, o + x, MAYBE_POP_JUMP, -(L + 6));
      DepthOutside(b, x - 3);
      DepthOutside(b, q - o - 3);
      BackClimb(c, o + x, q, LoopDepth(b, many, x), LoopDepth(b, many, q - o));
    }
  }

  lemma FailureClimb(c: Code, p: int, q: int, arg: int, n: nat, n': nat)
    requires At(c, p, Jump(ON_FAILURE_JUMP, arg)) && -REACH <= arg < REACH
    requires n' <= n + 1 && (q != p + 3 || arg == 0 ==> n' <= n)
    ensures Fits(c, p) && Climbs(c, p, q, n, n')
  {
    JumpFits(c, p, ON_FAILURE_JUMP, arg);
    AtJump(c, p, ON_FAILURE_JUMP, arg);
  }

  lemma BackClimb(c: Code, p: int, q: int, n: nat, n': nat)
    requires Fits(c, p) && c[p] == MAYBE_POP_JUMP && n' < n
    ensures Climbs(c, p, q, n, n')
  {
  }

  lemma {:induction false} EdgeFront(front: Front, c: Code, o: int, s: Text, x: int, d: int, q: int, e: int)
    requires WellFormedFront(front) && front.More? && At(c, o, FrontBytes(front)) && |c| < REACH && IsFrontStart(front, x)
    requires Move(c, s, o + x, d, q, e)
    ensures Fits(c, o + x) && (o <= q <= o + |FrontBytes(front)| || q == o + |FrontBytes(front)| + 3)
    ensures Climbs(c, o + x, q, FrontDepth(front, x), FrontDepth(front, q - o))
    decreases front, 1
  {
    hide *;
    var a := front.branch;
    var L := |Bytes(a)|;
    var k := if front.before.None? then 0 else |FrontBytes(front.before)| + 3;
    MoveFits(c, s, o + x, d, q, e);
    FrontParts(c, o, front);
    FrontShape(front, x);
    FrontDepthShape(front, x);
    FrontDepthShape(front, q - o);
    FrontDepthShape(front.before, x);
    FrontDepthShape(front.before, q - o);
    if front.before.More? && IsFrontStart(front.before, x) {
      FrontRange(front.before, c, o, x);
      EdgeFront(front.before, c, o, s, x, d, q, e);
      DepthOutside(a, x - k - 3);
      DepthOutside(a, q - o - k - 3);
    } else if front.before.More? && x == k - 3 {
      JumpMoves(c, s, o + x, JUMP_PAST_ALT, L + 3, d, q, e);
      JumpLength(c, o + x, JUMP_PAST_ALT, L + 3);
      FrontDepthOutside(front.before, q - o);
      DepthOutside(a, q - o - k - 3);
      PastClimb(c, o + x, q, FrontDepth(front, x));
    } else if x == k {
      JumpMoves(c, s, o + x, ON_FAILURE_JUMP, L + 3, d, q, e);
      JumpLength(c, o + x, ON_FAILURE_JUMP, L + 3);
      if front.before.More? {
        FrontDepthOutside(front.before, q - o);
      }
      DepthOutside(a, q - o - k - 3);
      FailureClimb(c, o + x, q, L + 3, FrontDepth(front, x), 0);
    } else {
      StartRange(a, c, o + k + 3, x - k - 3);
      Edge(a, c, o + k + 3, s, x - k - 3, d, q, e);
      if front.before.More? {
        FrontDepthOutside(front.before, x);
        FrontDepthOutside(front.before, q - o);
      }
    }
  }

  lemma PastClimb(c: Code, p: int, q: int, n: nat)
    requires Fits(c, p) && c[p] == JUMP_PAST_ALT
    ensures Climbs(c, p, q, n, 0)
  {
  }

  lemma {:induction false} EdgeAlts(alts: Alts, c: Code, o: int, s: Text, x: int, d: int, q: int, e: int)
    requires WellFormedAlts(alts) && At(c, o, AltBytes(alts)) && |c| < REACH && IsAltStart(alts, x) && Move(c, s, o + x, d, q, e)
    ensures Fits(c, o + x) && o <= q <= o + |AltBytes(alts)|
    ensures Climbs(c, o + x, q, AltDepth(alts, x), AltDepth(alts, q - o))
    decreases alts, 1
  {
    hide *;
    MoveFits(c, s, o + x, d, q, e);
    AltDepthShape(alts, x);
    AltDepthShape(alts, q - o);
    if alts.front.None? {
      SingleShape(alts, x);
      Edge(alts.last, c, o, s, x, d, q, e);
    } else {
      AltsShape(alts, c, o, x);
      var k, L := |FrontBytes(alts.front)|, |Bytes(alts.last)|;
      if IsFrontStart(alts.front, x) {
        FrontRange(alts.front, c, o, x);
        EdgeFront(alts.front, c, o, s, x, d, q, e);
        DepthOutside(alts.last, x - k - 3);
        DepthOutside(alts.last, q - o - k - 3);
      } else if x == k {
        JumpMoves(c, s, o + x, JUMP_PAST_ALT, L, d, q, e);
        JumpLength(c, o + x, JUMP_PAST_ALT, L);
        FrontDepthOutside(alts.front, q - o);
        DepthOutside(alts.last, q - o - k - 3);
        PastClimb(c, o + x, q, AltDepth(alts, x));
      } else {
        StartRange(alts.last, c, o + k + 3, x - k - 3);
        Edge(alts.last, c, o + k + 3, s, x - k - 3, d, q, e);
        FrontDepthOutside(alts.front, x);
        FrontDepthOutside(alts.front, q - o);
      }
    }
  }

  lemma {:induction false} EdgeGroup(reg: nat, inner: Byte, alts: Alts, c: Code, o: int, s: Text, x: int, d: int, q: int, e: int)
    requires WellFormedAlts(alts) && At(c, o, Bytes(Group(reg, inner, alts))) && |c| < REACH && IsStart(Group(reg, inner, alts), x)
    requires Move(c, s, o + x, d, q, e)
    ensures Fits(c, o + x) && o <= q <= o + |Bytes(Group(reg, inner, alts))|
    ensures Climbs(c, o + x, q, Depth(Group(reg, inner, alts), x), Depth(Group(reg, inner, alts), q - o))
    decreases alts, 2
  {
    hide *;
    var f := Group(reg, inner, alts);
    var u, v := |Memory(START_MEMORY, reg, inner)|, |AltBytes(alts)|;
    MoveFits(c, s, o + x, d, q, e);
    GroupShape(reg, inner, alts, c, o);
    GroupStarts(reg, inner, alts, x);
    DepthShape(f, x);
    DepthShape(f, q - o);
    if x == 0 && u > 0 {
      MarkMoves(c, s, o, START_MEMORY, reg, inner, d, q, e);
      AltDepthOutside(alts, 0 - u);
      AltDepthOutside(alts, q - o - u);
      PlainClimb(c, o, q, 0, 0);
    } else if IsAltStart(alts, x - u) {
      AltRange(alts, c, o + u, x - u);
      EdgeAlts(alts, c, o + u, s, x - u, d, q, e);
    } else {
      EndNonnegative(reg, inner, alts.front.None?, x - u - v);
      EndMoves(reg, inner, alts.front.None?, c, o + u + v, s, x - u - v, d, q, e);
      AltDepthOutside(alts, x - u);
      AltDepthOutside(alts, q - o - u);
      PlainClimb(c, o + x, q, 0, 0);
    }
  }

  lemma MarkMoves(c: Code, s: Text, o: int, op: Byte, reg: nat, inner: Byte, d: int, q: int, e: int)
    requires At(c, o, Memory(op, reg, inner)) && |Memory(op, reg, inner)| > 0 && (op == START_MEMORY || op == STOP_MEMORY)
    requires Move(c, s, o, d, q, e)
    ensures Fits(c, o) && c[o] != MAYBE_POP_JUMP && c[o] != DUMMY_FAILURE_JUMP && q == o + 3 == o + |Memory(op, reg, inner)|
  {
    MemoryMoves(c, s, o, op, reg, inner, d, q, e);
    MemoryFits(c, o, op, reg, inner);
  }

  lemma EndMoves(reg: nat, inner: Byte, single: bool, c: Code, o: int, s: Text, x: int, d: int, q: int, e: int)
    requires At(c, o, GroupEnd(reg, inner, single)) && IsEndStart(reg, inner, single, x) && Move(c, s, o + x, d, q, e)
    ensures Fits(c, o + x) && c[o + x] != MAYBE_POP_JUMP && c[o + x] != DUMMY_FAILURE_JUMP && o <= q <= o + |GroupEnd(reg, inner, single)|
  {
    MoveFits(c, s, o + x, d, q, e);
    hide At, Fits, Move;
    if single {
      assert [] + Memory(STOP_MEMORY, reg, inner) == Memory(STOP_MEMORY, reg, inner);
      MarkMoves(c, s, o, STOP_MEMORY, reg, inner, d, q, e);
    } else {
      AtParts(c, o, [PUSH_DUMMY_FAILURE], Memory(STOP_MEMORY, reg, inner));
      if x == 0 {
        DummyMoves(c, s, o, d, q, e);
        BytePlain(c, o, PUSH_DUMMY_FAILURE);
      } else {
        MarkMoves(c, s, o + 1, STOP_MEMORY, reg, inner, d, q, e);
      }
    }
  }
}
