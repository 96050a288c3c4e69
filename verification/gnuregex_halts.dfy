/** The matcher comes to an end: at one place of the string only so many commands can be carried out,
    because a loop goes round again only when the group in it has matched something. */
module RegexHalts {
  import opened Wrappers
  import opened RegexLanguage
  import opened RegexCode
  import opened RegexCourse
  import opened RegexInstructions
  import opened RegexLoops
  import opened RegexMeaning
  import opened RegexPlaces
  import opened RegexTidy

  // ---- how many commands until something is read ----

  function Work(f: Frag): nat
    decreases f, 1
  {
    match f
    case Nothing => 0
    case Exact(_) => 1
    case AnyChar => 1
    case Dummy => 1
    case Then(a, b) => Work(a) + Work(b)
    case Again(b, zero, _) => (if zero then 0 else 1) + 1 + Work(b)
    case Group(_, _, alts) => 1 + WorkAlts(alts) + (if alts.front.None? then 0 else 1) + 1
  }

  function WorkFront(front: Front): nat
    decreases front, 1
  {
    if front.None? then 0 else (if front.before.None? then 0 else WorkFront(front.before) + 1) + 1 + Work(front.branch)
  }

  function WorkAlts(alts: Alts): nat
    decreases alts, 1
  {
    (if alts.front.None? then 0 else WorkFront(alts.front) + 1) + Work(alts.last)
  }

  /** The registers and their bounds, of a state or as a failure point keeps them, and which groups
      have really matched something since they were entered. */
  datatype Act = Act(low: int, high: int, regs: Registers, truth: set<int>)

  function HasMatched(regs: Registers, r: int): bool {
    Info(regs, r).matched
  }

  /** Where the body of a loop begins. */
  function Body(zero: bool): nat {
    if zero then 3 else 6
  }

  function FrontSize(front: Front): nat {
    if front.None? then 0 else |FrontBytes(front)| + 3
  }

  /** At most so many commands from place x of f to its end without reading, when n groups come
      before f.  Inside a loop whose group has matched something, one more round is to be expected. */
  function Rank(f: Frag, n: nat, x: int, regs: Registers): nat
    decreases f, 1
  {
    match f
    case Then(a, b) =>
      if IsStart(a, x) then Rank(a, n, x, regs) + Work(b) else Rank(b, n + Groups(a), x - |Bytes(a)|, regs)
    case Again(b, zero, many) =>
      var k := Body(zero);
      if IsStart(b, x - k) then
        Rank(b, n, x - k, regs) + (if many && b.Group? && x > k && HasMatched(regs, n + 1) then 2 + Work(b) else 0)
      else if x == k + |Bytes(b)| then 2 + Work(b)
      else if x == k - 3 then 1 + Work(b)
      else 2 + Work(b)
    case Group(_, _, alts) =>
      var end := if alts.front.None? then 1 else 2;
      if x == 0 then Work(f)
      else if IsAltStart(alts, x - 3) then RankAlts(alts, n + 1, x - 3, regs) + end
      else if x == 3 + |AltBytes(alts)| then end
      else 1
    case _ => Work(f)
  }

  function RankFront(front: Front, n: nat, x: int, regs: Registers): nat
    decreases front, 1
  {
    if front.None? then 0
    else
      var k := FrontSize(front.before);
      if front.before.More? && IsFrontStart(front.before, x) then RankFront(front.before, n, x, regs) + 2 + Work(front.branch)
      else if front.before.More? && x == k - 3 then 1
      else if x == k then 1 + Work(front.branch)
      else Rank(front.branch, n + GroupsFront(front.before), x - k - 3, regs)
  }

  function RankAlts(alts: Alts, n: nat, x: int, regs: Registers): nat
    decreases alts, 1
  {
    if alts.front.None? then Rank(alts.last, n, x, regs)
    else if IsFrontStart(alts.front, x) then RankFront(alts.front, n, x, regs) + 1 + Work(alts.last)
    else if x == |FrontBytes(alts.front)| then 1
    else Rank(alts.last, n + GroupsFront(alts.front), x - |FrontBytes(alts.front)| - 3, regs)
  }

  // ---- the groups that a place is in ----

  predicate HeldReg(a: Act, r: int) {
    a.low <= r <= a.high && Info(a.regs, r).active && HasMatched(a.regs, r) == (r in a.truth)
  }

  /** The groups of f around place x are active, within the bounds, and rightly noted. */
  predicate Held(f: Frag, n: nat, x: int, a: Act)
    decreases f, 1
  {
    match f
    case Then(p, q) => if IsStart(p, x) then Held(p, n, x, a) else Held(q, n + Groups(p), x - |Bytes(p)|, a)
    case Again(b, zero, many) => IsStart(b, x - Body(zero)) ==> Held(b, n, x - Body(zero), a)
    case Group(_, _, alts) => x != 0 ==> HeldReg(a, n + 1) && (IsAltStart(alts, x - 3) ==> HeldAlts(alts, n + 1, x - 3, a))
    case _ => true
  }

  predicate HeldFront(front: Front, n: nat, x: int, a: Act)
    decreases front, 1
  {
    if front.None? then true
    else
      var k := FrontSize(front.before);
      if front.before.More? && IsFrontStart(front.before, x) then HeldFront(front.before, n, x, a)
      else IsStart(front.branch, x - k - 3) ==> Held(front.branch, n + GroupsFront(front.before), x - k - 3, a)
  }

  predicate HeldAlts(alts: Alts, n: nat, x: int, a: Act)
    decreases alts, 1
  {
    if alts.front.None? then Held(alts.last, n, x, a)
    else if IsFrontStart(alts.front, x) then HeldFront(alts.front, n, x, a)
    else
      var k := |FrontBytes(alts.front)| + 3;
      IsStart(alts.last, x - k) ==> Held(alts.last, n + GroupsFront(alts.front), x - k, a)
  }

  // ---- the groups that may still be opened ----

  /** The first group that may be opened from place x of f on. */
  function Next(f: Frag, n: nat, x: int): (r: nat)
    decreases f, 1
    ensures n < r <= n + Groups(f) + 1
  {
    match f
    case Then(a, b) => if IsStart(a, x) then Next(a, n, x) else Next(b, n + Groups(a), x - |Bytes(a)|)
    case Again(b, zero, many) => if !many && IsStart(b, x - Body(zero)) then Next(b, n, x - Body(zero)) else n + 1
    case Group(_, _, alts) =>
      if x == 0 then n + 1
      else if IsAltStart(alts, x - 3) then NextAlts(alts, n + 1, x - 3)
      else n + 1 + GroupsAlts(alts) + 1
    case _ => n + 1
  }

  function NextFront(front: Front, n: nat, x: int): (r: nat)
    decreases front, 1
    ensures n < r <= n + GroupsFront(front) + 1
  {
    if front.None? then n + 1
    else
      var k, m := FrontSize(front.before), n + GroupsFront(front.before);
      if front.before.More? && IsFrontStart(front.before, x) then NextFront(front.before, n, x)
      else if IsStart(front.branch, x - k - 3) then Next(front.branch, m, x - k - 3)
      else if x == k then m + 1
      else m + Groups(front.branch) + 1
  }

  function NextAlts(alts: Alts, n: nat, x: int): (r: nat)
    decreases alts, 1
    ensures n < r <= n + GroupsAlts(alts) + 1
  {
    if alts.front.None? then Next(alts.last, n, x)
    else if IsFrontStart(alts.front, x) then NextFront(alts.front, n, x)
    else
      var k, m := |FrontBytes(alts.front)| + 3, n + GroupsFront(alts.front);
      if IsStart(alts.last, x - k) then Next(alts.last, m, x - k) else m + 1
  }

  predicate LowOk(low: int, r: nat) {
    low == NO_LOWEST_ACTIVE_REG || low <= r
  }

  // ---- one command ----

  const EVERY: set<int> := set r: int | 0 <= r <= MAX_REGNUM

  /** Something has been read. */
  function Fed(a: Act): Act {
    a.(regs := SetMatched(a.regs, a.low, a.high), truth := EVERY)
  }

  function Started(a: Act, reg: int): Act {
    Act(if a.low == NO_LOWEST_ACTIVE_REG then reg else a.low, reg, a.regs[reg := RegInfo(true, false)], a.truth - {reg})
  }

  function Ended(a: Act, reg: int): Act {
    var regs := a.regs[reg := RegInfo(false, HasMatched(a.regs, reg))];
    var r := Highest(regs, if reg <= 0 then 255 else reg - 1);
    if a.low == a.high || r == 0 then Act(NO_LOWEST_ACTIVE_REG, NO_HIGHEST_ACTIVE_REG, regs, a.truth) else Act(a.low, r, regs, a.truth)
  }

  /** What an `on_failure_jump` in front of p does. */
  function Readied(c: Code, p: int, a: Act): Act {
    if Peek(c, p) == START_MEMORY then
      Act(if a.low == NO_LOWEST_ACTIVE_REG then Peek(c, p + 1) else a.low, Peek(c, p + 1) + Peek(c, p + 2), a.regs, a.truth)
    else a
  }

  /** The end of a group at p has the jump back of the group's loop behind it. */
  predicate Exits(c: Code, p: int) {
    p + 3 < |c| && LoopExit(c, p, Peek(c, p + 1)).Some?
  }

  predicate Eats(c: Code, p: int) {
    Peek(c, p) == EXACTN || Peek(c, p) == ANYCHAR
  }

  /** Where control may be after the command at p, at once or by way of the failure stack. */
  predicate Leads(c: Code, p: int, a: Act, q: int, a': Act) {
    var op := Peek(c, p);
    if op == EXACTN then q == p + 2 + Peek(c, p + 1) && a' == Fed(a)
    else if op == ANYCHAR then q == p + 1 && a' == Fed(a)
    else if op == START_MEMORY then q == p + 3 && a' == Started(a, Peek(c, p + 1))
    else if op == STOP_MEMORY then
      a' == Ended(a, Peek(c, p + 1)) && ((q == p + 3 && (Exits(c, p) ==> HasMatched(a.regs, Peek(c, p + 1)))) || (q == p + 6 && Peek(c, p + 3) == MAYBE_POP_JUMP))
    else if op == ON_FAILURE_JUMP then a' == Readied(c, p + 3, a) && (q == p + 3 || q == JumpsTo(c, p))
    else if op == PUSH_DUMMY_FAILURE then q == p + 1 && a' == a
    else q == JumpsTo(c, p) && a' == a
  }

  // ---- what a command does to the groups around it ----

  /** The marks at p are of groups that are opened after the first n. */
  predicate Marks(c: Code, p: int, n: nat, a: Act) {
    && (Peek(c, p) == START_MEMORY ==> n < Peek(c, p + 1))
    && (Peek(c, p) == STOP_MEMORY ==> n < Peek(c, p + 1) && HeldReg(a, Peek(c, p + 1)))
    && (Peek(c, p) == ON_FAILURE_JUMP && Peek(c, p + 3) == START_MEMORY ==> n < Peek(c, p + 4))
  }

  lemma {:induction false} HighestAbove(regs: Registers, r: nat, e: nat)
    requires 0 < e <= r && Info(regs, e).active
    ensures e <= Highest(regs, r) <= r
    decreases r
  {
    if r > 0 && !Info(regs, r).active {
      HighestAbove(regs, r - 1, e);
    }
  }

  /** A group opened before stays active and within the bounds. */
  lemma Keeps(c: Code, p: int, n: nat, a: Act, q: int, a': Act, e: nat)
    requires Leads(c, p, a, q, a') && Marks(c, p, n, a) && 0 < e <= n && e <= MAX_REGNUM && HeldReg(a, e)
    ensures HeldReg(a', e)
  {
    if Peek(c, p) == STOP_MEMORY {
      var reg := Peek(c, p + 1);
      var regs := a.regs[reg := RegInfo(false, HasMatched(a.regs, reg))];
      HighestAbove(regs, reg - 1, e);
    }
  }

  /** Without reading, only the mark at its beginning changes whether a group has matched anything. */
  lemma KeepsMatched(c: Code, p: int, n: nat, a: Act, q: int, a': Act, e: nat)
    requires Leads(c, p, a, q, a') && Marks(c, p, n, a) && e <= n && !Eats(c, p)
    ensures HasMatched(a'.regs, e) == HasMatched(a.regs, e)
  {
  }

  // ---- the parts of what is laid out ----

  ghost predicate Put(f: Frag, n: nat, c: Code, o: int) {
    WellFormed(f) && Tidy(f, n) && n + Groups(f) <= MAX_REGNUM && At(c, o, Bytes(f)) && |c| < REACH
  }

  ghost predicate PutFront(front: Front, n: nat, c: Code, o: int) {
    front.More? && WellFormedFront(front) && TidyFront(front, n) && n + GroupsFront(front) <= MAX_REGNUM && At(c, o, FrontBytes(front)) && |c| < REACH
  }

  ghost predicate PutAlts(alts: Alts, n: nat, c: Code, o: int) {
    WellFormedAlts(alts) && TidyAlts(alts, n) && n + GroupsAlts(alts) <= MAX_REGNUM && At(c, o, AltBytes(alts)) && |c| < REACH
  }

  lemma JumpHere(c: Code, o: int, op: Byte, n: int)
    requires At(c, o, Jump(op, n)) && -REACH <= n < REACH && o + 3 + n >= 0
    ensures Peek(c, o) == op && JumpsTo(c, o) == o + 3 + n && Argument(c, o + 1) == n && 0 <= o && o + 3 <= |c|
  {
    AtJump(c, o, op, n);
  }

  lemma MarkHere(c: Code, o: int, op: Byte, reg: nat, inner: Byte)
    requires At(c, o, Memory(op, reg, inner)) && reg <= MAX_REGNUM
    ensures Peek(c, o) == op && Peek(c, o + 1) == reg && Peek(c, o + 2) == inner && 0 <= o && o + 3 <= |c|
  {
    AtByte(c, o, Memory(op, reg, inner), 0);
    AtByte(c, o, Memory(op, reg, inner), 1);
    AtByte(c, o, Memory(op, reg, inner), 2);
  }

  lemma StartIn(f: Frag, n: nat, c: Code, o: int, x: int)
    requires Put(f, n, c, o)
    ensures 0 <= o && o + |Bytes(f)| <= |c|
    ensures IsStart(f, x) ==> 0 <= x < |Bytes(f)|
    ensures |Bytes(f)| > 0 ==> IsStart(f, 0)
  {
    hide WellFormed, Tidy, Bytes, IsStart;
    FirstStart(f);
    if IsStart(f, x) {
      StartFits(f, c, o, x);
    }
  }

  lemma StartInAlts(alts: Alts, n: nat, c: Code, o: int, x: int)
    requires PutAlts(alts, n, c, o)
    ensures 0 <= o && o + |AltBytes(alts)| <= |c|
    ensures IsAltStart(alts, x) ==> 0 <= x < |AltBytes(alts)|
    ensures |AltBytes(alts)| > 0 ==> IsAltStart(alts, 0)
  {
    hide WellFormedAlts, TidyAlts, AltBytes, IsAltStart;
    FirstAltStart(alts);
    if IsAltStart(alts, x) {
      AltStartFits(alts, c, o, x);
    }
  }

  lemma StartInFront(front: Front, n: nat, c: Code, o: int, x: int)
    requires PutFront(front, n, c, o)
    ensures 0 <= o && o + |FrontBytes(front)| <= |c|
    ensures IsFrontStart(front, x) ==> 0 <= x < |FrontBytes(front)|
    ensures IsFrontStart(front, 0)
  {
    hide WellFormedFront, TidyFront, FrontBytes, IsFrontStart;
    FirstFrontStart(front);
    if IsFrontStart(front, x) {
      FrontStartFits(front, c, o, x);
    }
  }

  lemma PutThen(a: Frag, b: Frag, n: nat, c: Code, o: int, x: int)
    requires Put(Then(a, b), n, c, o)
    ensures Put(a, n, c, o) && Put(b, n + Groups(a), c, o + |Bytes(a)|)
    ensures |Bytes(Then(a, b))| == |Bytes(a)| + |Bytes(b)| && IsStart(Then(a, b), x) == (IsStart(a, x) || IsStart(b, x - |Bytes(a)|))
  {
    hide At, Bytes, IsStart;
    ThenShape(a, b, c, o, x);
    ThenTidy(a, b, n);
  }

  lemma ThenTidy(a: Frag, b: Frag, n: nat)
    ensures Tidy(Then(a, b), n) <==> Tidy(a, n) && Tidy(b, n + Groups(a))
    ensures Groups(Then(a, b)) == Groups(a) + Groups(b)
  {
  }

  lemma PutAgain(b: Frag, zero: bool, many: bool, n: nat, c: Code, o: int, x: int)
    requires Put(Again(b, zero, many), n, c, o)
    ensures var k, L := Body(zero), |Bytes(b)|;
      && Put(b, n, c, o + k) && (zero || many) && Single(b) && 0 <= o
      && (!zero ==> Peek(c, o) == DUMMY_FAILURE_JUMP && JumpsTo(c, o) == o + 6)
      && Peek(c, o + k - 3) == ON_FAILURE_JUMP && JumpsTo(c, o + k - 3) == o + k + L + (if many then 3 else 0)
      && (many ==> Peek(c, o + k + L) == MAYBE_POP_JUMP && JumpsTo(c, o + k + L) == o + k - 3 && Argument(c, o + k + L + 1) == -(L + 6))
      && |Bytes(Again(b, zero, many))| == k + L + (if many then 3 else 0)
      && IsStart(Again(b, zero, many), x) == ((!zero && x == 0) || x == k - 3 || IsStart(b, x - k) || (many && x == k + L))
  {
    hide At, Bytes, IsStart, IsLoopStart, Tidy, Jump, Peek, JumpsTo, Argument;
    AgainTidy(b, zero, many, n);
    var k, L := Body(zero), |Bytes(b)|;
    AtInside(c, o, Bytes(Again(b, zero, many)));
    LeafShape(Again(b, zero, many), x);
    if zero {
      LoopParts(c, o, Bytes(b), many);
      LoopShape(b, many, x);
    } else {
      PlusShape(b, c, o, x);
      LoopParts(c, o + 3, Bytes(b), true);
      LoopShape(b, true, x - 3);
      JumpHere(c, o, DUMMY_FAILURE_JUMP, 3);
    }
    JumpHere(c, o + k - 3, ON_FAILURE_JUMP, if many then L + 3 else L);
    if many {
      JumpHere(c, o + k + L, MAYBE_POP_JUMP, -(L + 6));
    }
  }

  lemma AtInside(c: Code, o: int, bs: Code)
    requires At(c, o, bs)
    ensures 0 <= o && o + |bs| <= |c|
  {
  }

  lemma AgainTidy(b: Frag, zero: bool, many: bool, n: nat)
    ensures Tidy(Again(b, zero, many), n) ==> Single(b) && Tidy(b, n)
    ensures Groups(Again(b, zero, many)) == Groups(b)
    ensures WellFormed(Again(b, zero, many)) ==> (zero || many) && WellFormed(b)
  {
  }

  lemma PutGroup(reg: nat, inner: Byte, alts: Alts, n: nat, c: Code, o: int, x: int)
    requires Put(Group(reg, inner, alts), n, c, o)
    ensures var v, single := |AltBytes(alts)|, alts.front.None?;
      var stop := o + 3 + v + (if single then 0 else 1);
      && PutAlts(alts, n + 1, c, o + 3) && reg == n + 1 <= MAX_REGNUM && 0 <= o
      && Peek(c, o) == START_MEMORY && Peek(c, o + 1) == n + 1
      && (!single ==> Peek(c, o + 3 + v) == PUSH_DUMMY_FAILURE)
      && Peek(c, stop) == STOP_MEMORY && Peek(c, stop + 1) == n + 1
      && |Bytes(Group(reg, inner, alts))| == stop + 3 - o && o + |Bytes(Group(reg, inner, alts))| <= |c|
      && IsStart(Group(reg, inner, alts), x) == (x == 0 || IsAltStart(alts, x - 3) || o + x == stop || (!single && x == 3 + v))
  {
    hide At, Bytes, IsStart, IsAltStart, IsEndStart, Tidy, TidyAlts, Peek, Memory, AltBytes, GroupEnd, WellFormed, WellFormedAlts;
    var f, v, single := Group(reg, inner, alts), |AltBytes(alts)|, alts.front.None?;
    GroupTidy(reg, inner, alts, n);
    GroupShape(reg, inner, alts, c, o);
    GroupStarts(reg, inner, alts, x);
    NumberedMark(reg, inner);
    MarkSizes(reg, inner, single, x - 3 - v);
    AtInside(c, o, Bytes(f));
    MarkHere(c, o, START_MEMORY, reg, inner);
    EndMarks(reg, inner, single, c, o + 3 + v);
  }

  lemma GroupTidy(reg: nat, inner: Byte, alts: Alts, n: nat)
    ensures Tidy(Group(reg, inner, alts), n) <==> reg == n + 1 && TidyAlts(alts, n + 1)
    ensures Groups(Group(reg, inner, alts)) == 1 + GroupsAlts(alts)
    ensures WellFormed(Group(reg, inner, alts)) == WellFormedAlts(alts)
  {
  }

  lemma MarkSizes(reg: nat, inner: Byte, single: bool, x: int)
    requires reg <= MAX_REGNUM
    ensures |GroupEnd(reg, inner, single)| == if single then 3 else 4
    ensures IsEndStart(reg, inner, single, x) == if single then x == 0 else x == 0 || x == 1
  {
  }

  lemma EndMarks(reg: nat, inner: Byte, single: bool, c: Code, o: int)
    requires At(c, o, GroupEnd(reg, inner, single)) && reg <= MAX_REGNUM
    ensures var stop := if single then o else o + 1;
      Peek(c, stop) == STOP_MEMORY && Peek(c, stop + 1) == reg && (!single ==> Peek(c, o) == PUSH_DUMMY_FAILURE)
  {
    hide At, Memory;
    if single {
      assert GroupEnd(reg, inner, single) == Memory(STOP_MEMORY, reg, inner);
      MarkHere(c, o, STOP_MEMORY, reg, inner);
    } else {
      AtParts(c, o, [PUSH_DUMMY_FAILURE], Memory(STOP_MEMORY, reg, inner));
      AtByte(c, o, [PUSH_DUMMY_FAILURE], 0);
      MarkHere(c, o + 1, STOP_MEMORY, reg, inner);
    }
  }

  lemma PutInFront(front: Front, n: nat, c: Code, o: int, x: int)
    requires PutFront(front, n, c, o)
    ensures var k, L, m := FrontSize(front.before), |Bytes(front.branch)|, n + GroupsFront(front.before);
      && (front.before.More? ==> PutFront(front.before, n, c, o) && Peek(c, o + k - 3) == JUMP_PAST_ALT && JumpsTo(c, o + k - 3) == o + k + 3 + L)
      && Put(front.branch, m, c, o + k + 3) && GroupsFront(front) == GroupsFront(front.before) + Groups(front.branch)
      && Peek(c, o + k) == ON_FAILURE_JUMP && JumpsTo(c, o + k) == o + k + 6 + L && 0 <= o
      && |FrontBytes(front)| == k + 3 + L && k == (if front.before.None? then 0 else |FrontBytes(front.before)| + 3)
      && IsFrontStart(front, x) ==
        ((front.before.More? && (IsFrontStart(front.before, x) || x == k - 3)) || x == k || IsStart(front.branch, x - k - 3))
  {
    hide At, Bytes, FrontBytes, IsStart, IsFrontStart, Tidy, TidyFront, Jump, Peek, JumpsTo, Argument, WellFormed, WellFormedFront, GroupsFront, Groups;
    FrontTidy(front, n);
    FrontParts(c, o, front);
    FrontShape(front, x);
    AtInside(c, o, FrontBytes(front));
    var k, L := FrontSize(front.before), |Bytes(front.branch)|;
    JumpHere(c, o + k, ON_FAILURE_JUMP, L + 3);
    if front.before.More? {
      JumpHere(c, o + k - 3, JUMP_PAST_ALT, L + 3);
    }
  }

  lemma FrontTidy(front: Front, n: nat)
    requires front.More?
    ensures TidyFront(front, n) <==> TidyFront(front.before, n) && Tidy(front.branch, n + GroupsFront(front.before))
    ensures GroupsFront(front) == GroupsFront(front.before) + Groups(front.branch)
    ensures WellFormedFront(front) <==> WellFormedFront(front.before) && WellFormed(front.branch)
  {
  }

  lemma PutInAlts(alts: Alts, n: nat, c: Code, o: int, x: int)
    requires PutAlts(alts, n, c, o)
    ensures alts.front.None? ==> Put(alts.last, n, c, o) && AltBytes(alts) == Bytes(alts.last) && IsAltStart(alts, x) == IsStart(alts.last, x) && GroupsAlts(alts) == Groups(alts.last)
    ensures alts.front.More? ==>
      var k, L, m := |FrontBytes(alts.front)|, |Bytes(alts.last)|, n + GroupsFront(alts.front);
      && PutFront(alts.front, n, c, o) && Put(alts.last, m, c, o + k + 3) && m + Groups(alts.last) == n + GroupsAlts(alts)
      && Peek(c, o + k) == JUMP_PAST_ALT && JumpsTo(c, o + k) == o + k + 3 + L && |AltBytes(alts)| == k + 3 + L && 0 <= o
      && IsAltStart(alts, x) == (IsFrontStart(alts.front, x) || x == k || IsStart(alts.last, x - k - 3))
  {
    hide At, Bytes, AltBytes, FrontBytes, IsStart, IsFrontStart, IsAltStart, Tidy, TidyFront, Jump, Peek, JumpsTo, Argument;
    AltsTidy(alts, n);
    AtInside(c, o, AltBytes(alts));
    if alts.front.None? {
      SingleShape(alts, x);
    } else {
      AltsShape(alts, c, o, x);
      JumpHere(c, o + |FrontBytes(alts.front)|, JUMP_PAST_ALT, |Bytes(alts.last)|);
    }
  }

  lemma AltsTidy(alts: Alts, n: nat)
    ensures TidyAlts(alts, n) <==> TidyFront(alts.front, n) && Tidy(alts.last, n + GroupsFront(alts.front))
    ensures GroupsAlts(alts) == GroupsFront(alts.front) + Groups(alts.last)
    ensures alts.front.None? ==> GroupsFront(alts.front) == 0
  {
  }

  // ---- case by case ----

  lemma LeafIs(f: Frag, n: nat, x: int, a: Act)
    requires !f.Then? && !f.Again? && !f.Group?
    ensures Rank(f, n, x, a.regs) == Work(f) == (if f.Nothing? then 0 else 1) && Held(f, n, x, a) && Next(f, n, x) == n + 1 && Groups(f) == 0
    ensures IsStart(f, x) == (!f.Nothing? && x == 0)
  {
  }

  lemma ThenIs(f: Frag, n: nat, x: int, a: Act)
    requires f.Then?
    ensures Work(f) == Work(f.first) + Work(f.second) && Groups(f) == Groups(f.first) + Groups(f.second)
    ensures IsStart(f.first, x) ==>
      && Rank(f, n, x, a.regs) == Rank(f.first, n, x, a.regs) + Work(f.second)
      && Held(f, n, x, a) == Held(f.first, n, x, a) && Next(f, n, x) == Next(f.first, n, x)
    ensures !IsStart(f.first, x) ==>
      var m, y := n + Groups(f.first), x - |Bytes(f.first)|;
      && Rank(f, n, x, a.regs) == Rank(f.second, m, y, a.regs)
      && Held(f, n, x, a) == Held(f.second, m, y, a) && Next(f, n, x) == Next(f.second, m, y)
  {
  }

  /** Another round is to be expected. */
  predicate Rounds(f: Frag, n: nat, x: int, regs: Registers) {
    f.Again? && f.many && f.body.Group? && x > Body(f.zero) && HasMatched(regs, n + 1)
  }

  lemma AgainIs(f: Frag, n: nat, x: int, a: Act)
    requires f.Again?
    ensures var b, k := f.body, Body(f.zero);
      && Work(f) == (if f.zero then 0 else 1) + 1 + Work(b) && Groups(f) == Groups(b)
      && (IsStart(b, x - k) ==> Held(f, n, x, a) == Held(b, n, x - k, a) && Next(f, n, x) == if f.many then n + 1 else Next(b, n, x - k))
      && (IsStart(b, x - k) ==> Rank(f, n, x, a.regs) == Rank(b, n, x - k, a.regs) + if Rounds(f, n, x, a.regs) then 2 + Work(b) else 0)
      && (!IsStart(b, x - k) ==> Held(f, n, x, a) && Next(f, n, x) == n + 1)
      && (!IsStart(b, x - k) ==> Rank(f, n, x, a.regs) == (if x != k + |Bytes(b)| && x == k - 3 then 1 else 2) + Work(b))
  {
  }

  lemma GroupIs(f: Frag, n: nat, x: int, a: Act)
    requires f.Group?
    ensures var alts, end := f.alts, if f.alts.front.None? then 1 else 2;
      && Work(f) == 1 + WorkAlts(alts) + end && Groups(f) == 1 + GroupsAlts(alts)
      && (x == 0 ==> Rank(f, n, x, a.regs) == Work(f) && Held(f, n, x, a) && Next(f, n, x) == n + 1)
      && (x != 0 ==> Held(f, n, x, a) == (HeldReg(a, n + 1) && (IsAltStart(alts, x - 3) ==> HeldAlts(alts, n + 1, x - 3, a))))
      && (x != 0 && IsAltStart(alts, x - 3) ==> Rank(f, n, x, a.regs) == RankAlts(alts, n + 1, x - 3, a.regs) + end && Next(f, n, x) == NextAlts(alts, n + 1, x - 3))
      && (x != 0 && !IsAltStart(alts, x - 3) ==> Rank(f, n, x, a.regs) == if x == 3 + |AltBytes(alts)| then end else 1)
      && (x != 0 && !IsAltStart(alts, x - 3) ==> Next(f, n, x) == n + 1 + GroupsAlts(alts) + 1)
  {
  }

  lemma FrontIs(front: Front, n: nat, x: int, a: Act)
    requires front.More?
    ensures var before, branch, k, m := front.before, front.branch, FrontSize(front.before), n + GroupsFront(front.before);
      var inner, rank, held, next := before.More? && IsFrontStart(before, x), RankFront(front, n, x, a.regs), HeldFront(front, n, x, a), NextFront(front, n, x);
      && WorkFront(front) == (if before.None? then 0 else WorkFront(before) + 1) + 1 + Work(branch)
      && GroupsFront(front) == GroupsFront(before) + Groups(branch) && (before.None? ==> k == 0 && GroupsFront(before) == 0)
      && (inner ==> rank == RankFront(before, n, x, a.regs) + 2 + Work(branch))
      && (inner ==> held == HeldFront(before, n, x, a) && next == NextFront(before, n, x))
      && (!inner && IsStart(branch, x - k - 3) ==> held == Held(branch, m, x - k - 3, a) && next == Next(branch, m, x - k - 3))
      && (!inner ==> rank == if before.More? && x == k - 3 then 1 else if x == k then 1 + Work(branch) else Rank(branch, m, x - k - 3, a.regs))
      && (!inner && !IsStart(branch, x - k - 3) ==> held)
      && (!inner && !IsStart(branch, x - k - 3) && x == k ==> next == m + 1)
      && (!inner && !IsStart(branch, x - k - 3) && before.More? && x == k - 3 ==> next == m + Groups(branch) + 1)
  {
    hide Rank, Held, Next, Work, Groups, Bytes, IsStart, IsFrontStart, FrontBytes;
  }

  lemma AltsIs(alts: Alts, n: nat, x: int, a: Act)
    ensures var rank, held, next := RankAlts(alts, n, x, a.regs), HeldAlts(alts, n, x, a), NextAlts(alts, n, x);
      var front, last, k, m := alts.front, alts.last, |FrontBytes(alts.front)| + 3, n + GroupsFront(alts.front);
      && WorkAlts(alts) == (if front.None? then 0 else WorkFront(front) + 1) + Work(last)
      && (front.None? ==> rank == Rank(last, n, x, a.regs))
      && (front.None? ==> held == Held(last, n, x, a) && next == Next(last, n, x))
      && (front.More? && IsFrontStart(front, x) ==> rank == RankFront(front, n, x, a.regs) + 1 + Work(last))
      && (front.More? && IsFrontStart(front, x) ==> held == HeldFront(front, n, x, a) && next == NextFront(front, n, x))
      && (front.More? && !IsFrontStart(front, x) ==> rank == if x == k - 3 then 1 else Rank(last, m, x - k, a.regs))
      && (front.More? && !IsFrontStart(front, x) && IsStart(last, x - k) ==> held == Held(last, m, x - k, a) && next == Next(last, m, x - k))
      && (front.More? && !IsFrontStart(front, x) && !IsStart(last, x - k) ==> held && next == m + 1)
  {
    hide Rank, Held, Next, Work, Groups, Bytes, IsStart, IsFrontStart, FrontBytes;
  }

  // ---- where a piece begins ----

  /** There is no jump back at q. */
  predicate Clear(c: Code, q: int) {
    !IsLoopJump(Peek(c, q)) && (Peek(c, q) == DUMMY_FAILURE_JUMP ==> Argument(c, q + 1) >= 0)
  }

  /** No group is entered yet, all the work is still to be done, and the next group is the first. */
  ghost predicate Fresh(c: Code, o: int, n: nat, held: bool, rank: nat, work: nat, next: nat) {
    && held && rank == work && next == n + 1
    && Clear(c, o) && Peek(c, o) != STOP_MEMORY && (Peek(c, o) == START_MEMORY ==> Peek(c, o + 1) == n + 1)
  }

  /** Where f begins, or the place behind it if it has no code. */
  ghost predicate Begins(f: Frag, n: nat, c: Code, o: int, a: Act) {
    if |Bytes(f)| == 0 then Work(f) == 0 && Groups(f) == 0 && !IsStart(f, 0)
    else IsStart(f, 0) && Fresh(c, o, n, Held(f, n, 0, a), Rank(f, n, 0, a.regs), Work(f), Next(f, n, 0))
  }

  ghost predicate BeginsAlts(alts: Alts, n: nat, c: Code, o: int, a: Act) {
    if |AltBytes(alts)| == 0 then WorkAlts(alts) == 0 && GroupsAlts(alts) == 0 && !IsAltStart(alts, 0)
    else IsAltStart(alts, 0) && Fresh(c, o, n, HeldAlts(alts, n, 0, a), RankAlts(alts, n, 0, a.regs), WorkAlts(alts), NextAlts(alts, n, 0))
  }

  lemma FreshIs(c: Code, o: int, n: nat, held: bool, work: nat)
    requires held && Clear(c, o) && Peek(c, o) != STOP_MEMORY && (Peek(c, o) == START_MEMORY ==> Peek(c, o + 1) == n + 1)
    ensures Fresh(c, o, n, held, work, work, n + 1)
  {
  }

  lemma LeafBegins(f: Frag, n: nat, c: Code, o: int, a: Act)
    requires Put(f, n, c, o) && !f.Then? && !f.Again? && !f.Group?
    ensures Begins(f, n, c, o, a)
  {
    LeafOpcode(f, c, o);
    LeafIs(f, n, 0, a);
  }

  lemma LeafOpcode(f: Frag, c: Code, o: int)
    requires WellFormed(f) && At(c, o, Bytes(f)) && !f.Then? && !f.Again? && !f.Group?
    ensures |Bytes(f)| == 0 <==> f.Nothing?
    ensures f.Exact? ==> Peek(c, o) == EXACTN && |Bytes(f)| == 2 + Peek(c, o + 1)
    ensures f.AnyChar? ==> Peek(c, o) == ANYCHAR && |Bytes(f)| == 1
    ensures f.Dummy? ==> Peek(c, o) == PUSH_DUMMY_FAILURE && |Bytes(f)| == 1
  {
    if !f.Nothing? {
      AtByte(c, o, Bytes(f), 0);
      if f.Exact? {
        AtByte(c, o, Bytes(f), 1);
      }
    }
  }

  lemma {:induction false} AtFirst(f: Frag, n: nat, c: Code, o: int, a: Act)
    requires Put(f, n, c, o)
    ensures Begins(f, n, c, o, a)
    decreases f
  {
    hide *;
    match f
    case Then(p, q) =>
      PutThen(p, q, n, c, o, 0);
      StartIn(p, n, c, o, 0);
      ThenIs(f, n, 0, a);
      AtFirst(p, n, c, o, a);
      AtFirst(q, n + Groups(p), c, o + |Bytes(p)|, a);
      ThenBegins(p, q, n, c, o, a);
    case Again(b, zero, many) =>
      AgainBegins(b, zero, many, n, c, o, a);
    case Group(reg, inner, alts) =>
      GroupBegins(f, n, c, o, a);
    case _ => LeafBegins(f, n, c, o, a);
  }

  lemma ThenBegins(p: Frag, q: Frag, n: nat, c: Code, o: int, a: Act)
    requires Put(Then(p, q), n, c, o) && Begins(p, n, c, o, a) && Begins(q, n + Groups(p), c, o + |Bytes(p)|, a)
    ensures Begins(Then(p, q), n, c, o, a)
  {
    hide Put, Fresh, Held, Rank, Work, Next, Groups, IsStart, Bytes;
    PutThen(p, q, n, c, o, 0);
    StartIn(p, n, c, o, 0);
    ThenIs(Then(p, q), n, 0, a);
    if |Bytes(p)| > 0 {
      FreshMore(c, o, n, Held(p, n, 0, a), Rank(p, n, 0, a.regs), Work(p), Next(p, n, 0), Work(q));
    }
  }

  lemma FreshMore(c: Code, o: int, n: nat, held: bool, rank: nat, work: nat, next: nat, more: nat)
    requires Fresh(c, o, n, held, rank, work, next)
    ensures Fresh(c, o, n, held, rank + more, work + more, next)
  {
  }

  lemma AgainBegins(b: Frag, zero: bool, many: bool, n: nat, c: Code, o: int, a: Act)
    requires Put(Again(b, zero, many), n, c, o)
    ensures Begins(Again(b, zero, many), n, c, o, a)
  {
    hide Put, Held, Rank, Work, Next, Groups, IsStart, Bytes, Peek, Argument, Single;
    PutAgain(b, zero, many, n, c, o, 0);
    var k: int := Body(zero);
    StartIn(b, n, c, o + k, -k);
    AgainIs(Again(b, zero, many), n, 0, a);
  }

  lemma GroupBegins(f: Frag, n: nat, c: Code, o: int, a: Act)
    requires Put(f, n, c, o) && f.Group?
    ensures Begins(f, n, c, o, a)
  {
    hide Put, Held, Rank, Work, Next, Groups, IsStart, Bytes, Peek, PutAlts, IsAltStart, AltBytes;
    PutGroup(f.reg, f.inner, f.alts, n, c, o, 0);
    GroupIs(f, n, 0, a);
  }

  lemma {:induction false} AtFirstFront(front: Front, n: nat, c: Code, o: int, a: Act)
    requires front.More? && PutFront(front, n, c, o)
    ensures IsFrontStart(front, 0) && Fresh(c, o, n, HeldFront(front, n, 0, a), RankFront(front, n, 0, a.regs), WorkFront(front), NextFront(front, n, 0))
    decreases front
  {
    hide PutFront, Put, Fresh, Held, Rank, Work, Next, Groups, IsStart, Bytes, Peek, JumpsTo, HeldFront, RankFront, WorkFront, NextFront, GroupsFront, IsFrontStart, FrontBytes;
    var before, k: int := front.before, FrontSize(front.before);
    PutInFront(front, n, c, o, 0);
    StartInFront(front, n, c, o, 0);
    FrontIs(front, n, 0, a);
    StartIn(front.branch, n + GroupsFront(before), c, o + k + 3, -k - 3);
    if before.None? {
      FreshIs(c, o, n, HeldFront(front, n, 0, a), WorkFront(front));
    } else {
      StartInFront(before, n, c, o, 0);
      AtFirstFront(before, n, c, o, a);
      FreshMore(c, o, n, HeldFront(before, n, 0, a), RankFront(before, n, 0, a.regs), WorkFront(before), NextFront(before, n, 0), 2 + Work(front.branch));
    }
  }

  lemma AtFirstAlts(alts: Alts, n: nat, c: Code, o: int, a: Act)
    requires PutAlts(alts, n, c, o)
    ensures BeginsAlts(alts, n, c, o, a)
  {
    hide PutAlts, PutFront, Put, Fresh, Held, Rank, Work, Next, Groups, IsStart, Bytes, Peek, JumpsTo, HeldFront, RankFront, WorkFront, NextFront, GroupsFront, IsFrontStart, FrontBytes,
      IsAltStart, HeldAlts, RankAlts, WorkAlts, NextAlts, GroupsAlts, AltBytes;
    PutInAlts(alts, n, c, o, 0);
    AltsIs(alts, n, 0, a);
    if alts.front.None? {
      AtFirst(alts.last, n, c, o, a);
    } else {
      StartInAlts(alts, n, c, o, 0);
      StartInFront(alts.front, n, c, o, 0);
      AtFirstFront(alts.front, n, c, o, a);
      FreshMore(c, o, n, HeldFront(alts.front, n, 0, a), RankFront(alts.front, n, 0, a.regs), WorkFront(alts.front), NextFront(alts.front, n, 0), 1 + Work(alts.last));
    }
  }

  /** Wherever a command stands, at least one is still to be carried out. */
  lemma {:induction false} RankPositive(f: Frag, n: nat, x: int, a: Act)
    requires IsStart(f, x)
    ensures Rank(f, n, x, a.regs) >= 1
    decreases f
  {
    hide Rank, Work, Held, Next, RankAlts, HeldAlts, NextAlts, AltBytes, IsAltStart;
    match f
    case Then(p, q) =>
      ThenIs(f, n, x, a);
      if IsStart(p, x) {
        RankPositive(p, n, x, a);
      } else {
        RankPositive(q, n + Groups(p), x - |Bytes(p)|, a);
      }
    case Again(b, zero, many) => AgainIs(f, n, x, a);
      if IsStart(b, x - Body(zero)) {
        RankPositive(b, n, x - Body(zero), a);
      }
    case Group(_, _, alts) => GroupIs(f, n, x, a);
    case _ => LeafIs(f, n, x, a);
  }

  lemma {:induction false} FrontRankPositive(front: Front, n: nat, x: int, a: Act)
    requires IsFrontStart(front, x)
    ensures RankFront(front, n, x, a.regs) >= 1
  {
    hide Rank, Work, Held, Next, RankFront, HeldFront, NextFront, WorkFront, Bytes, IsStart;
    FrontIs(front, n, x, a);
    var k := FrontSize(front.before);
    if IsStart(front.branch, x - k - 3) {
      RankPositive(front.branch, n + GroupsFront(front.before), x - k - 3, a);
    }
  }

  lemma AltRankPositive(alts: Alts, n: nat, x: int, a: Act)
    requires IsAltStart(alts, x)
    ensures RankAlts(alts, n, x, a.regs) >= 1
  {
    hide Rank, Work, Held, Next, RankAlts, HeldAlts, NextAlts, WorkFront, IsStart, IsFrontStart, RankFront, HeldFront, NextFront, WorkAlts, FrontBytes;
    AltsIs(alts, n, x, a);
    var k := if alts.front.None? then 0 else |FrontBytes(alts.front)| + 3;
    if IsStart(alts.last, x - k) {
      RankPositive(alts.last, n + GroupsFront(alts.front), x - k, a);
    }
  }

  // ---- what a command does ----

  /** Control stands in f with the groups around the place active and no bound above the next one. */
  ghost predicate Here(f: Frag, n: nat, x: int, a: Act) {
    IsStart(f, x) && Held(f, n, x, a) && LowOk(a.low, Next(f, n, x))
  }

  ghost predicate HereFront(front: Front, n: nat, x: int, a: Act) {
    IsFrontStart(front, x) && HeldFront(front, n, x, a) && LowOk(a.low, NextFront(front, n, x))
  }

  ghost predicate HereAlts(alts: Alts, n: nat, x: int, a: Act) {
    IsAltStart(alts, x) && HeldAlts(alts, n, x, a) && LowOk(a.low, NextAlts(alts, n, x))
  }

  /** Something has been read, or there is less to do. */
  predicate Nearer(c: Code, p: int, now: nat, was: nat) {
    Eats(c, p) || now < was
  }

  /** A jump back is come to only from what stands right before it. */
  predicate Behind(c: Code, p: int, q: int) {
    Peek(c, q) == MAYBE_POP_JUMP ==>
      || (Peek(c, p) == EXACTN && q == p + 2 + Peek(c, p + 1))
      || (Peek(c, p) == ANYCHAR && q == p + 1)
      || (Peek(c, p) == STOP_MEMORY && q == p + 3)
  }

  /** At the end of a piece of code, or behind a jump back that stands there. */
  predicate Leaves(c: Code, end: int, q: int, next: nat, a: Act) {
    LowOk(a.low, next) && (q == end || (q == end + 3 && Peek(c, end) == MAYBE_POP_JUMP))
  }

  ghost predicate Goes(f: Frag, n: nat, c: Code, o: int, x: int, a: Act, y: int, a': Act) {
    || (Here(f, n, y, a') && Nearer(c, o + x, Rank(f, n, y, a'.regs), Rank(f, n, x, a.regs)) && Behind(c, o + x, o + y))
    || Leaves(c, o + |Bytes(f)|, o + y, n + Groups(f) + 1, a')
  }

  ghost predicate GoesFront(front: Front, n: nat, c: Code, o: int, x: int, a: Act, y: int, a': Act) {
    || (HereFront(front, n, y, a') && Nearer(c, o + x, RankFront(front, n, y, a'.regs), RankFront(front, n, x, a.regs)) && Behind(c, o + x, o + y))
    || (LowOk(a'.low, n + GroupsFront(front) + 1) && (y == |FrontBytes(front)| || y == |FrontBytes(front)| + 3))
  }

  ghost predicate GoesAlts(alts: Alts, n: nat, c: Code, o: int, x: int, a: Act, y: int, a': Act) {
    || (HereAlts(alts, n, y, a') && Nearer(c, o + x, RankAlts(alts, n, y, a'.regs), RankAlts(alts, n, x, a.regs)) && Behind(c, o + x, o + y))
    || Leaves(c, o + |AltBytes(alts)|, o + y, n + GroupsAlts(alts) + 1, a')
  }

  lemma LeafGoes(f: Frag, n: nat, c: Code, o: int, x: int, a: Act, q: int, a': Act)
    requires Put(f, n, c, o) && Here(f, n, x, a) && Leads(c, o + x, a, q, a') && !f.Then? && !f.Again? && !f.Group?
    ensures Marks(c, o + x, n, a) && Goes(f, n, c, o, x, a, q - o, a') && (f.Exact? || f.AnyChar? ==> Eats(c, o + x) && Behind(c, o + x, q))
  {
    LeafOpcode(f, c, o);
    LeafIs(f, n, x, a);
  }

  lemma ThenGoes(p: Frag, q: Frag, n: nat, c: Code, o: int, x: int, a: Act, y: int, a': Act)
    requires Put(Then(p, q), n, c, o) && Here(Then(p, q), n, x, a)
    requires IsStart(p, x) ==> Here(p, n, x, a) ==> Goes(p, n, c, o, x, a, y, a')
    requires var m, k := n + Groups(p), |Bytes(p)|; !IsStart(p, x) ==> Here(q, m, x - k, a) ==> Goes(q, m, c, o + k, x - k, a, y - k, a')
    ensures Goes(Then(p, q), n, c, o, x, a, y, a')
  {
    hide Put, Held, Rank, Work, Next, Groups, IsStart, Bytes, Eats, Peek;
    PutThen(p, q, n, c, o, x);
    PutThen(p, q, n, c, o, y);
    ThenIs(Then(p, q), n, x, a);
    ThenIs(Then(p, q), n, y, a');
    StartIn(p, n, c, o, x);
    StartIn(p, n, c, o, y);
    StartIn(q, n + Groups(p), c, o + |Bytes(p)|, y - |Bytes(p)|);
    AtFirst(q, n + Groups(p), c, o + |Bytes(p)|, a');
    if IsStart(p, x) {
      RankPositive(p, n, x, a);
    }
  }

  /** What a loop needs to know of a command of the group in it: whether the group has matched anything
      changes at its beginning or by reading, and control gets out of it only at its end. */
  ghost predicate GroupGoes(f: Frag, n: nat, c: Code, o: int, x: int, a: Act, y: int, a': Act) {
    && LowOk(a'.low, n + 1)
    && (x == 0 ==> !HasMatched(a'.regs, n + 1))
    && (x != 0 && !Eats(c, o + x) ==> HasMatched(a'.regs, n + 1) == HasMatched(a.regs, n + 1))
    && (y == |Bytes(f)| ==> x != 0 && Peek(c, o + x + 1) == n + 1 && x + 3 == y && Behind(c, o + x, o + y) && (Exits(c, o + x) ==> HasMatched(a.regs, n + 1)))
  }

  lemma GroupStart(f: Frag, n: nat, c: Code, o: int, a: Act, y: int, a': Act)
    requires Put(f, n, c, o) && f.Group? && Here(f, n, 0, a) && Leads(c, o, a, o + y, a')
    ensures Marks(c, o, n, a) && Goes(f, n, c, o, 0, a, y, a') && GroupGoes(f, n, c, o, 0, a, y, a')
  {
    hide Put, Held, Rank, Work, Next, Groups, IsStart, Bytes, Eats, PutAlts, IsAltStart, AltBytes, HeldAlts, RankAlts, WorkAlts, NextAlts, GroupsAlts, Exits;
    PutGroup(f.reg, f.inner, f.alts, n, c, o, y);
    GroupIs(f, n, 0, a);
    GroupIs(f, n, y, a');
    StartInAlts(f.alts, n + 1, c, o + 3, 0);
    AtFirstAlts(f.alts, n + 1, c, o + 3, a');
  }

  lemma GroupInside(f: Frag, n: nat, c: Code, o: int, x: int, a: Act, y: int, a': Act)
    requires Put(f, n, c, o) && f.Group? && Here(f, n, x, a) && Leads(c, o + x, a, o + y, a') && x != 0 && IsAltStart(f.alts, x - 3)
    requires Marks(c, o + x, n + 1, a) && GoesAlts(f.alts, n + 1, c, o + 3, x - 3, a, y - 3, a')
    ensures Marks(c, o + x, n, a) && Goes(f, n, c, o, x, a, y, a') && GroupGoes(f, n, c, o, x, a, y, a')
  {
    hide Put, Held, Rank, Work, Next, Groups, IsStart, Bytes, Eats, PutAlts, IsAltStart, AltBytes, HeldAlts, RankAlts, WorkAlts, NextAlts, GroupsAlts, Exits, Leads, Peek, HasMatched;
    PutGroup(f.reg, f.inner, f.alts, n, c, o, y);
    GroupIs(f, n, x, a);
    GroupIs(f, n, y, a');
    StartInAlts(f.alts, n + 1, c, o + 3, y - 3);
    AltRankPositive(f.alts, n + 1, x - 3, a);
    Keeps(c, o + x, n + 1, a, o + y, a', n + 1);
    if !Eats(c, o + x) {
      KeepsMatched(c, o + x, n + 1, a, o + y, a', n + 1);
    }
  }

  lemma GroupEnds(f: Frag, n: nat, c: Code, o: int, x: int, a: Act, y: int, a': Act)
    requires Put(f, n, c, o) && f.Group? && Here(f, n, x, a) && Leads(c, o + x, a, o + y, a') && x != 0 && !IsAltStart(f.alts, x - 3)
    ensures Marks(c, o + x, n, a) && Goes(f, n, c, o, x, a, y, a') && GroupGoes(f, n, c, o, x, a, y, a')
  {
    hide Put, Held, Rank, Work, Next, Groups, IsStart, Bytes, PutAlts, IsAltStart, AltBytes, HeldAlts, RankAlts, WorkAlts, NextAlts, GroupsAlts, Exits;
    PutGroup(f.reg, f.inner, f.alts, n, c, o, x);
    PutGroup(f.reg, f.inner, f.alts, n, c, o, y);
    GroupIs(f, n, x, a);
    GroupIs(f, n, y, a');
    StartInAlts(f.alts, n + 1, c, o + 3, y - 3);
  }

  lemma AgainStart(f: Frag, n: nat, c: Code, o: int, x: int, a: Act, y: int, a': Act)
    requires Put(f, n, c, o) && f.Again? && Here(f, n, x, a) && Leads(c, o + x, a, o + y, a') && !IsStart(f.body, x - Body(f.zero))
    ensures Marks(c, o + x, n, a) && Goes(f, n, c, o, x, a, y, a')
  {
    hide Put, Held, Rank, Work, Next, Groups, IsStart, Bytes, Leads, Marks, Goes, Single, Peek, JumpsTo, Argument;
    var b, k := f.body, Body(f.zero);
    PutAgain(b, f.zero, f.many, n, c, o, x);
    StartIn(b, n, c, o + k, 0);
    SingleIs(b, n, c, o + k);
    if x == k - 3 {
      LoopStart(f, n, c, o, a, y, a');
    } else {
      LoopJumps(f, n, c, o, x, a, y, a');
    }
  }

  /** The failure jump in front of the body. */
  lemma LoopStart(f: Frag, n: nat, c: Code, o: int, a: Act, y: int, a': Act)
    requires Put(f, n, c, o) && f.Again?
    requires var x := Body(f.zero) - 3; Here(f, n, x, a) && Leads(c, o + x, a, o + y, a') && !IsStart(f.body, -3)
    ensures var x := Body(f.zero) - 3; Marks(c, o + x, n, a) && Goes(f, n, c, o, x, a, y, a')
  {
    hide Put, Held, Rank, Work, Next, Groups, IsStart, Bytes, HasMatched, Single;
    var b, k := f.body, Body(f.zero);
    PutAgain(b, f.zero, f.many, n, c, o, y);
    AgainIs(f, n, k - 3, a);
    AgainIs(f, n, y, a');
    StartIn(b, n, c, o + k, 0);
    SingleIs(b, n, c, o + k);
    AtFirst(b, n, c, o + k, a');
  }

  /** The jump back, and the dummy failure jump of a `+`. */
  lemma LoopJumps(f: Frag, n: nat, c: Code, o: int, x: int, a: Act, y: int, a': Act)
    requires Put(f, n, c, o) && f.Again? && Here(f, n, x, a) && Leads(c, o + x, a, o + y, a') && !IsStart(f.body, x - Body(f.zero)) && x != Body(f.zero) - 3
    ensures Marks(c, o + x, n, a) && Goes(f, n, c, o, x, a, y, a')
  {
    hide Put, Held, Rank, Work, Next, Groups, IsStart, Bytes, HasMatched, Single;
    var b, k := f.body, Body(f.zero);
    PutAgain(b, f.zero, f.many, n, c, o, x);
    PutAgain(b, f.zero, f.many, n, c, o, y);
    AgainIs(f, n, x, a);
    AgainIs(f, n, y, a');
    StartIn(b, n, c, o + k, y - k);
    StartIn(b, n, c, o + k, 0);
    SingleIs(b, n, c, o + k);
    AtFirst(b, n, c, o + k, a');
  }

  lemma SingleIs(f: Frag, n: nat, c: Code, o: int)
    requires Put(f, n, c, o) && Single(f)
    ensures |Bytes(f)| > 0
  {
    if !f.Group? {
      LeafOpcode(f, c, o);
    } else {
      hide Put, Bytes, AltBytes, IsStart, IsAltStart, PutAlts, Peek;
      PutGroup(f.reg, f.inner, f.alts, n, c, o, 0);
    }
  }

  lemma AgainInside(f: Frag, n: nat, c: Code, o: int, x: int, a: Act, y: int, a': Act)
    requires Put(f, n, c, o) && f.Again? && Here(f, n, x, a) && Leads(c, o + x, a, o + y, a') && IsStart(f.body, x - Body(f.zero))
    requires var b, k := f.body, Body(f.zero);
      Goes(b, n, c, o + k, x - k, a, y - k, a') && (if b.Group? then GroupGoes(b, n, c, o + k, x - k, a, y - k, a') else Eats(c, o + x) && Behind(c, o + x, o + y))
    ensures Goes(f, n, c, o, x, a, y, a')
  {
    hide Put, Held, Rank, Work, Next, Groups, IsStart, Bytes, HasMatched, Eats, Exits, Single, Leads, Peek, JumpsTo, Argument, Behind;
    var b, k := f.body, Body(f.zero);
    PutAgain(b, f.zero, f.many, n, c, o, y);
    AgainIs(f, n, x, a);
    AgainIs(f, n, y, a');
    StartIn(b, n, c, o + k, y - k);
    StartIn(b, n, c, o + k, x - k);
    LoopLow(f, n, c, o, x, a, y, a');
    if !Here(b, n, y - k, a') && f.many && y == k + |Bytes(b)| {
      BodyLeft(f, n, c, o, x, a, y, a');
    }
  }

  /** Where the body of a loop ends, one more round is to be expected. */
  lemma BodyLeft(f: Frag, n: nat, c: Code, o: int, x: int, a: Act, y: int, a': Act)
    requires Put(f, n, c, o) && f.Again? && f.many && Here(f, n, x, a) && IsStart(f.body, x - Body(f.zero)) && y == Body(f.zero) + |Bytes(f.body)|
    requires var b, k := f.body, Body(f.zero);
      if b.Group? then GroupGoes(b, n, c, o + k, x - k, a, y - k, a') else Eats(c, o + x) && Behind(c, o + x, o + y)
    ensures Nearer(c, o + x, Rank(f, n, y, a'.regs), Rank(f, n, x, a.regs)) && Behind(c, o + x, o + y)
  {
    hide Put, Held, Rank, Work, Next, Groups, IsStart, Bytes, HasMatched, Eats, Exits, Single, Leads, Behind;
    var b, k := f.body, Body(f.zero);
    PutAgain(b, f.zero, f.many, n, c, o, y);
    AgainIs(f, n, x, a);
    AgainIs(f, n, y, a');
    StartIn(b, n, c, o + k, y - k);
    StartIn(b, n, c, o + k, x - k);
    RankPositive(b, n, x - k, a);
    if b.Group? {
      LoopExits(f, n, c, o);
    }
  }

  /** The end of the group in a loop has the jump back behind it. */
  lemma LoopExits(f: Frag, n: nat, c: Code, o: int)
    requires Put(f, n, c, o) && f.Again? && f.many && f.body.Group?
    ensures var p := o + Body(f.zero) + |Bytes(f.body)| - 3; Peek(c, p + 1) == n + 1 ==> Exits(c, p)
  {
    hide Put, Bytes, IsStart, Single, IsAltStart, AltBytes;
    var b, k := f.body, Body(f.zero);
    PutAgain(b, f.zero, f.many, n, c, o, 0);
    PutGroup(b.reg, b.inner, b.alts, n, c, o + k, 0);
  }

  lemma LoopLow(f: Frag, n: nat, c: Code, o: int, x: int, a: Act, y: int, a': Act)
    requires Put(f, n, c, o) && f.Again? && Here(f, n, x, a) && Leads(c, o + x, a, o + y, a') && IsStart(f.body, x - Body(f.zero))
    requires var b, k := f.body, Body(f.zero); (if b.Group? then GroupGoes(b, n, c, o + k, x - k, a, y - k, a') else Eats(c, o + x))
    ensures f.many ==> LowOk(a'.low, n + 1)
  {
    hide Put, Held, Rank, Work, Next, Groups, IsStart, Bytes, HasMatched, Exits, Single;
    AgainIs(f, n, x, a);
  }

  /** A command in f leads nearer to the end of f, or reads. */
  lemma {:induction false} GoFrag(f: Frag, n: nat, c: Code, o: int, x: int, a: Act, q: int, a': Act)
    requires Put(f, n, c, o) && Here(f, n, x, a) && Leads(c, o + x, a, q, a')
    ensures Marks(c, o + x, n, a) && Goes(f, n, c, o, x, a, q - o, a')
    decreases f, 1
  {
    hide *;
    HereIs(f, n, x, a);
    match f
    case Then(p, r) =>
      PutThen(p, r, n, c, o, x);
      ThenIs(f, n, x, a);
      var m, k := n + Groups(p), |Bytes(p)|;
      if IsStart(p, x) {
        HereIs(p, n, x, a);
        GoFrag(p, n, c, o, x, a, q, a');
      } else {
        HereIs(r, m, x - k, a);
        GoFrag(r, m, c, o + k, x - k, a, q, a');
        MarksLess(c, o + x, m, n, a);
      }
      ThenGoes(p, r, n, c, o, x, a, q - o, a');
    case Again(b, zero, many) =>
      var k := Body(zero);
      PutAgain(b, zero, many, n, c, o, x);
      if IsStart(b, x - k) {
        AgainIs(f, n, x, a);
        HereIs(b, n, x - k, a);
        BodyHere(f, n, c, o, x, a);
        if b.Group? {
          GoGroup(b, n, c, o + k, x - k, a, q, a');
        } else {
          SingleLeaf(b);
          LeafGoes(b, n, c, o + k, x - k, a, q, a');
        }
        AgainInside(f, n, c, o, x, a, q - o, a');
      } else {
        AgainStart(f, n, c, o, x, a, q - o, a');
      }
    case Group(_, _, _) => GoGroup(f, n, c, o, x, a, q, a');
    case _ => LeafGoes(f, n, c, o, x, a, q, a');
  }

  lemma HereIs(f: Frag, n: nat, x: int, a: Act)
    ensures Here(f, n, x, a) == (IsStart(f, x) && Held(f, n, x, a) && LowOk(a.low, Next(f, n, x)))
  {
  }

  lemma SingleLeaf(f: Frag)
    ensures Single(f) && !f.Group? ==> f.Exact? || f.AnyChar?
  {
  }

  lemma MarksLess(c: Code, p: int, m: nat, n: nat, a: Act)
    requires n <= m && Marks(c, p, m, a)
    ensures Marks(c, p, n, a)
  {
  }

  /** No group behind the first one begins in the body of a loop until the first one does. */
  lemma BodyHere(f: Frag, n: nat, c: Code, o: int, x: int, a: Act)
    requires Put(f, n, c, o) && f.Again? && Here(f, n, x, a) && IsStart(f.body, x - Body(f.zero))
    ensures Here(f.body, n, x - Body(f.zero), a)
  {
    hide Put, Held, Rank, Work, Groups, IsStart, Bytes;
    AgainIs(f, n, x, a);
  }

  lemma {:induction false} GoGroup(f: Frag, n: nat, c: Code, o: int, x: int, a: Act, q: int, a': Act)
    requires Put(f, n, c, o) && f.Group? && Here(f, n, x, a) && Leads(c, o + x, a, q, a')
    ensures Marks(c, o + x, n, a) && Goes(f, n, c, o, x, a, q - o, a') && GroupGoes(f, n, c, o, x, a, q - o, a')
    decreases f, 0
  {
    hide *;
    if x == 0 {
      GroupStart(f, n, c, o, a, q - o, a');
    } else if IsAltStart(f.alts, x - 3) {
      HereIs(f, n, x, a);
      HereAltsIs(f.alts, n + 1, x - 3, a);
      PutGroup(f.reg, f.inner, f.alts, n, c, o, x);
      GroupIs(f, n, x, a);
      GoAlts(f.alts, n + 1, c, o + 3, x - 3, a, q, a');
      GroupInside(f, n, c, o, x, a, q - o, a');
    } else {
      GroupEnds(f, n, c, o, x, a, q - o, a');
    }
  }

  lemma HereAltsIs(alts: Alts, n: nat, x: int, a: Act)
    ensures HereAlts(alts, n, x, a) == (IsAltStart(alts, x) && HeldAlts(alts, n, x, a) && LowOk(a.low, NextAlts(alts, n, x)))
  {
  }

  lemma HereFrontIs(front: Front, n: nat, x: int, a: Act)
    ensures HereFront(front, n, x, a) == (IsFrontStart(front, x) && HeldFront(front, n, x, a) && LowOk(a.low, NextFront(front, n, x)))
  {
  }

  lemma {:induction false} GoFront(front: Front, n: nat, c: Code, o: int, x: int, a: Act, q: int, a': Act)
    requires front.More? && PutFront(front, n, c, o) && HereFront(front, n, x, a) && Leads(c, o + x, a, q, a')
    requires Peek(c, o + |FrontBytes(front)|) == JUMP_PAST_ALT
    ensures Marks(c, o + x, n, a) && GoesFront(front, n, c, o, x, a, q - o, a')
    decreases front, 1
  {
    hide *;
    var before, branch, k, m := front.before, front.branch, FrontSize(front.before), n + GroupsFront(front.before);
    PutInFront(front, n, c, o, x);
    HereFrontIs(front, n, x, a);
    FrontIs(front, n, x, a);
    if before.More? && IsFrontStart(before, x) {
      HereFrontIs(before, n, x, a);
      GoFront(before, n, c, o, x, a, q, a');
      FrontBefore(front, n, c, o, x, a, q - o, a');
    } else if IsStart(branch, x - k - 3) {
      HereIs(branch, m, x - k - 3, a);
      GoFrag(branch, m, c, o + k + 3, x - k - 3, a, q, a');
      MarksLess(c, o + x, m, n, a);
      FrontBranch(front, n, c, o, x, a, q - o, a');
    } else {
      FrontJumps(front, n, c, o, x, a, q - o, a');
    }
  }

  lemma FrontBefore(front: Front, n: nat, c: Code, o: int, x: int, a: Act, y: int, a': Act)
    requires front.More? && PutFront(front, n, c, o) && front.before.More? && IsFrontStart(front.before, x)
    requires GoesFront(front.before, n, c, o, x, a, y, a')
    ensures GoesFront(front, n, c, o, x, a, y, a')
  {
    hide PutFront, Put, Held, Rank, Work, Next, Groups, IsStart, Bytes, HeldFront, RankFront, WorkFront, NextFront, GroupsFront, IsFrontStart, FrontBytes, Eats, Peek, JumpsTo;
    var before, k := front.before, FrontSize(front.before);
    PutInFront(front, n, c, o, y);
    FrontIs(front, n, x, a);
    FrontIs(front, n, y, a');
    FrontRankPositive(before, n, x, a);
    StartInFront(before, n, c, o, y);
    StartIn(front.branch, n + GroupsFront(before), c, o + k + 3, y - k - 3);
  }

  lemma FrontBranch(front: Front, n: nat, c: Code, o: int, x: int, a: Act, y: int, a': Act)
    requires front.More? && PutFront(front, n, c, o) && Peek(c, o + |FrontBytes(front)|) == JUMP_PAST_ALT
    requires var k, m := FrontSize(front.before), n + GroupsFront(front.before);
      IsStart(front.branch, x - k - 3) && !(front.before.More? && IsFrontStart(front.before, x)) && Goes(front.branch, m, c, o + k + 3, x - k - 3, a, y - k - 3, a')
    ensures GoesFront(front, n, c, o, x, a, y, a')
  {
    hide PutFront, Put, Held, Rank, Work, Next, Groups, IsStart, Bytes, HeldFront, RankFront, WorkFront, NextFront, GroupsFront, IsFrontStart, FrontBytes, Eats, Peek, JumpsTo;
    var before, k := front.before, FrontSize(front.before);
    PutInFront(front, n, c, o, y);
    FrontIs(front, n, x, a);
    FrontIs(front, n, y, a');
    if before.More? {
      StartInFront(before, n, c, o, y);
    }
    StartIn(front.branch, n + GroupsFront(before), c, o + k + 3, y - k - 3);
    StartIn(front.branch, n + GroupsFront(before), c, o + k + 3, x - k - 3);
  }

  lemma FrontJumps(front: Front, n: nat, c: Code, o: int, x: int, a: Act, y: int, a': Act)
    requires front.More? && PutFront(front, n, c, o) && Peek(c, o + |FrontBytes(front)|) == JUMP_PAST_ALT
    requires HereFront(front, n, x, a) && Leads(c, o + x, a, o + y, a')
    requires !(front.before.More? && IsFrontStart(front.before, x)) && !IsStart(front.branch, x - FrontSize(front.before) - 3)
    ensures Marks(c, o + x, n, a) && GoesFront(front, n, c, o, x, a, y, a')
  {
    hide PutFront, Put, Held, Rank, Work, Next, Groups, IsStart, Bytes, HeldFront, RankFront, WorkFront, NextFront, GroupsFront, IsFrontStart, FrontBytes, JumpsTo;
    var before, branch, k, m := front.before, front.branch, FrontSize(front.before), n + GroupsFront(front.before);
    PutInFront(front, n, c, o, x);
    PutInFront(front, n, c, o, y);
    FrontIs(front, n, x, a);
    FrontIs(front, n, y, a');
    if before.More? {
      StartInFront(before, n, c, o, y);
    }
    AtFirst(branch, m, c, o + k + 3, a');
  }

  lemma {:induction false} GoAlts(alts: Alts, n: nat, c: Code, o: int, x: int, a: Act, q: int, a': Act)
    requires PutAlts(alts, n, c, o) && HereAlts(alts, n, x, a) && Leads(c, o + x, a, q, a')
    ensures Marks(c, o + x, n, a) && GoesAlts(alts, n, c, o, x, a, q - o, a')
    decreases alts, 1
  {
    hide *;
    var front, last, k, m := alts.front, alts.last, |FrontBytes(alts.front)| + 3, n + GroupsFront(alts.front);
    PutInAlts(alts, n, c, o, x);
    HereAltsIs(alts, n, x, a);
    AltsIs(alts, n, x, a);
    if front.None? {
      HereIs(last, n, x, a);
      GoFrag(last, n, c, o, x, a, q, a');
      AltsSingle(alts, n, c, o, x, a, q - o, a');
    } else if IsFrontStart(front, x) {
      HereFrontIs(front, n, x, a);
      GoFront(front, n, c, o, x, a, q, a');
      AltsFront(alts, n, c, o, x, a, q - o, a');
    } else if IsStart(last, x - k) {
      HereIs(last, m, x - k, a);
      GoFrag(last, m, c, o + k, x - k, a, q, a');
      MarksLess(c, o + x, m, n, a);
      AltsLast(alts, n, c, o, x, a, q - o, a');
    } else {
      AltsJump(alts, n, c, o, x, a, q - o, a');
    }
  }

  lemma AltsSingle(alts: Alts, n: nat, c: Code, o: int, x: int, a: Act, y: int, a': Act)
    requires PutAlts(alts, n, c, o) && alts.front.None? && Goes(alts.last, n, c, o, x, a, y, a')
    ensures GoesAlts(alts, n, c, o, x, a, y, a')
  {
    hide PutAlts, Put, Held, Rank, Work, Next, Groups, IsStart, Bytes, HeldAlts, RankAlts, WorkAlts, NextAlts, GroupsAlts, IsAltStart, AltBytes, Eats, Peek;
    PutInAlts(alts, n, c, o, y);
    AltsIs(alts, n, x, a);
    AltsIs(alts, n, y, a');
  }

  lemma AltsFront(alts: Alts, n: nat, c: Code, o: int, x: int, a: Act, y: int, a': Act)
    requires PutAlts(alts, n, c, o) && alts.front.More? && IsFrontStart(alts.front, x) && GoesFront(alts.front, n, c, o, x, a, y, a')
    ensures GoesAlts(alts, n, c, o, x, a, y, a')
  {
    hide PutAlts, PutFront, Put, Held, Rank, Work, Next, Groups, IsStart, Bytes, HeldAlts, RankAlts, WorkAlts, NextAlts, GroupsAlts, IsAltStart, AltBytes,
      HeldFront, RankFront, WorkFront, NextFront, GroupsFront, IsFrontStart, FrontBytes, Eats, Peek, JumpsTo;
    var front, k := alts.front, |FrontBytes(alts.front)| + 3;
    PutInAlts(alts, n, c, o, y);
    AltsIs(alts, n, x, a);
    AltsIs(alts, n, y, a');
    FrontRankPositive(front, n, x, a);
    StartInFront(front, n, c, o, y);
    StartIn(alts.last, n + GroupsFront(front), c, o + k, y - k);
    AtFirst(alts.last, n + GroupsFront(front), c, o + k, a');
    BeginsIs(alts.last, n + GroupsFront(front), c, o + k, a');
  }

  lemma BeginsIs(f: Frag, n: nat, c: Code, o: int, a: Act)
    requires Begins(f, n, c, o, a)
    ensures if |Bytes(f)| == 0 then Work(f) == 0 && Groups(f) == 0 else IsStart(f, 0) && Held(f, n, 0, a) && Rank(f, n, 0, a.regs) == Work(f) && Next(f, n, 0) == n + 1
  {
    hide Held, Rank, Work, Next, Groups, IsStart, Bytes, Peek;
  }

  lemma AltsLast(alts: Alts, n: nat, c: Code, o: int, x: int, a: Act, y: int, a': Act)
    requires PutAlts(alts, n, c, o) && alts.front.More? && !IsFrontStart(alts.front, x)
    requires var k, m := |FrontBytes(alts.front)| + 3, n + GroupsFront(alts.front);
      IsStart(alts.last, x - k) && Goes(alts.last, m, c, o + k, x - k, a, y - k, a')
    ensures GoesAlts(alts, n, c, o, x, a, y, a')
  {
    hide PutAlts, PutFront, Put, Held, Rank, Work, Next, Groups, IsStart, Bytes, HeldAlts, RankAlts, WorkAlts, NextAlts, GroupsAlts, IsAltStart, AltBytes,
      HeldFront, RankFront, WorkFront, NextFront, GroupsFront, IsFrontStart, FrontBytes, Eats, Peek, JumpsTo;
    var front, k := alts.front, |FrontBytes(alts.front)| + 3;
    PutInAlts(alts, n, c, o, y);
    AltsIs(alts, n, x, a);
    AltsIs(alts, n, y, a');
    StartInFront(front, n, c, o, y);
    StartIn(alts.last, n + GroupsFront(front), c, o + k, y - k);
    StartIn(alts.last, n + GroupsFront(front), c, o + k, x - k);
  }

  lemma AltsJump(alts: Alts, n: nat, c: Code, o: int, x: int, a: Act, y: int, a': Act)
    requires PutAlts(alts, n, c, o) && alts.front.More? && HereAlts(alts, n, x, a) && Leads(c, o + x, a, o + y, a')
    requires !IsFrontStart(alts.front, x) && !IsStart(alts.last, x - |FrontBytes(alts.front)| - 3)
    ensures Marks(c, o + x, n, a) && GoesAlts(alts, n, c, o, x, a, y, a')
  {
    hide PutAlts, PutFront, Put, Held, Rank, Work, Next, Groups, IsStart, Bytes, HeldAlts, RankAlts, WorkAlts, NextAlts, GroupsAlts, IsAltStart, AltBytes,
      HeldFront, RankFront, WorkFront, NextFront, GroupsFront, IsFrontStart, FrontBytes, JumpsTo;
    PutInAlts(alts, n, c, o, x);
    AltsIs(alts, n, x, a);
    AltsIs(alts, n, y, a');
  }
}
