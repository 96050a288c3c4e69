/** What the matcher does, as a function of the program as it was compiled: each command on a state,
    the way back to the newest failure point, and the verdict on a start. */
module RegexCourse {
  import opened Wrappers
  import opened RegexLanguage
  import opened RegexCode

  const NO_LOWEST_ACTIVE_REG := 257
  const NO_HIGHEST_ACTIVE_REG := 256

  /** The bits of `register_info_type` that the matcher's course depends on. */
  datatype RegInfo = RegInfo(active: bool, matched: bool)
  type Registers = map<int, RegInfo>

  function Info(regs: Registers, r: int): RegInfo {
    if r in regs then regs[r] else RegInfo(false, false)
  }

  function Span(regs: Registers, low: int, high: int): Registers {
    map r | low <= r <= high :: Info(regs, r)
  }

  /** `SET_REGS_MATCHED` */
  function SetMatched(regs: Registers, low: int, high: int): Registers {
    regs + map r | low <= r <= high :: Info(regs, r).(matched := true)
  }

  /** A place to go back to; without a pattern place it is a dummy. */
  datatype FailurePoint = FailurePoint(low: int, high: int, saved: Registers, pattern: Option<nat>, str: Option<nat>)

  /** Whether the failure stack can take one more point, by what is on it. */
  type Room = seq<FailurePoint> -> bool

  datatype Outcome = Go | Failed | NoMemory
  datatype Result = Matched(length: nat) | Mismatch | OutOfMemory | OutOfSteps

  datatype State = State(p: nat, d: nat, stack: seq<FailurePoint>, low: int, high: int, regs: Registers, best: Option<nat>)

  datatype Step = Step(out: Outcome, next: State)

  // ---- looking at the program ----

  /** Beyond the code no instruction is seen. */
  function Peek(c: Code, i: int): Byte {
    if 0 <= i < |c| then c[i] else 0
  }

  function Argument(c: Code, i: int): int {
    if 0 <= i && i + 1 < |c| then Number(c, i) else 0
  }

  /** Where the jump at p leads. */
  function JumpsTo(c: Code, p: int): nat {
    var t := p + 3 + Argument(c, p + 1);
    if t >= 0 then t else 0
  }

  predicate IsLoopJump(op: Byte) {
    op == MAYBE_POP_JUMP || op == POP_FAILURE_JUMP || op == JUMP
  }

  // ---- the failure stack ----

  function Pushed(room: Room, s: State, pattern: Option<nat>, str: Option<nat>): Option<State> {
    if room(s.stack) then
      Some(s.(stack := s.stack + [FailurePoint(s.low, s.high, Span(s.regs, s.low, s.high), pattern, str)]))
    else Option.None
  }

  /** Whether the instruction at q is a jump to an `on_failure_jump`. */
  predicate JumpsBack(c: Code, q: int) {
    IsLoopJump(Peek(c, q)) && q + 2 < |c| && Peek(c, q + 3 + Argument(c, q + 1)) == ON_FAILURE_JUMP
  }

  /** `fail:`, if there is a failure point to go on from. */
  function Back(c: Code, s: State): Option<State>
    decreases |s.stack|
  {
    if s.stack == [] then Option.None
    else
      var n := |s.stack| - 1;
      var f := s.stack[n];
      var d := if f.str.Some? then f.str.value else s.d;
      var t := State(if f.pattern.Some? then f.pattern.value else s.p, d, s.stack[..n], f.low, f.high, s.regs + f.saved, s.best);
      if f.pattern.Some? && !(f.pattern.value < |c| && JumpsBack(c, f.pattern.value)) then Some(t) else Back(c, t)
  }

  // ---- the commands ----

  function ExecExact(c: Code, text: Text, s: State): Step {
    var n := Peek(c, s.p + 1);
    if s.d + n <= |text| && s.p + 2 + n <= |c| && text[s.d..s.d + n] == c[s.p + 2..s.p + 2 + n] then
      Step(Go, s.(p := s.p + 2 + n, d := s.d + n, regs := SetMatched(s.regs, s.low, s.high)))
    else Step(Failed, s)
  }

  /** A newline is matched, a NUL is not. */
  function ExecAny(text: Text, s: State): Step {
    if s.d < |text| && text[s.d] != 0 then Step(Go, s.(p := s.p + 1, d := s.d + 1, regs := SetMatched(s.regs, s.low, s.high)))
    else Step(Failed, s)
  }

  function ExecStart(c: Code, s: State): Step {
    var reg: int := Peek(c, s.p + 1);
    Step(Go, s.(p := s.p + 3, regs := s.regs[reg := RegInfo(true, false)], high := reg, low := if s.low == NO_LOWEST_ACTIVE_REG then reg else s.low))
  }

  /** The highest active register from r down. */
  function Highest(regs: Registers, r: nat): nat {
    if r > 0 && !Info(regs, r).active then Highest(regs, r - 1) else r
  }

  /** The registers that are still active after group reg has ended. */
  function Left(s: State, reg: int): State {
    var r := Highest(s.regs, if reg <= 0 then 255 else reg - 1);
    if s.low == s.high || r == 0 then s.(low := NO_LOWEST_ACTIVE_REG, high := NO_HIGHEST_ACTIVE_REG) else s.(high := r)
  }

  /** If the end of group reg at p is followed by the jump back of the group's own loop, the place
      after that loop. */
  function LoopExit(c: Code, p: int, reg: int): Option<nat> {
    var op := Peek(c, p + 3);
    var j := Argument(c, p + 4);
    var t := p + 6 + j;
    if (IsLoopJump(op) || op == DUMMY_FAILURE_JUMP) && j < 0 && Peek(c, t) == ON_FAILURE_JUMP && Peek(c, t + 3) == START_MEMORY && Peek(c, t + 4) == reg
    then Some(JumpsTo(c, t)) else Option.None
  }

  function ExecStop(c: Code, room: Room, s: State): Step {
    var reg: int := Peek(c, s.p + 1);
    var matched := Info(s.regs, reg).matched;
    var t := Left(s.(regs := s.regs[reg := RegInfo(false, matched)]), reg);
    var exit := if (!matched || Peek(c, s.p - 2) == START_MEMORY) && s.p + 3 < |c| then LoopExit(c, s.p, reg) else Option.None;
    match exit
    case None => Step(Go, t.(p := s.p + 3))
    case Some(q) =>
      match Pushed(room, t, Some(q), Some(s.d))
      case None => Step(NoMemory, t)
      case Some(u) => Step(Failed, u)
  }

  function ExecFailureJump(c: Code, room: Room, s: State): Step {
    var p1 := s.p + 3;
    var t :=
      if Peek(c, p1) == START_MEMORY then
        s.(high := Peek(c, p1 + 1) + Peek(c, p1 + 2), low := if s.low == NO_LOWEST_ACTIVE_REG then Peek(c, p1 + 1) else s.low)
      else s;
    match Pushed(room, t, Some(JumpsTo(c, s.p)), Some(s.d))
    case None => Step(NoMemory, t)
    case Some(u) => Step(Go, u.(p := p1))
  }

  /** Past the group marks from p on. */
  function PastMarks(c: Code, p: nat): nat
    decreases |c| - p
  {
    if p + 2 < |c| && (c[p] == STOP_MEMORY || c[p] == START_MEMORY) then PastMarks(c, p + 3) else p
  }

  /** What `maybe_pop_jump` finds out: what follows the loop cannot match what the loop starts with. */
  predicate Pops(c: Code, p: nat) {
    var p2 := PastMarks(c, p + 3);
    var p1 := p + 3 + Argument(c, p + 1);
    p2 == |c| || (p2 < |c| && c[p2] == EXACTN && Peek(c, p1 + 3) == EXACTN && Peek(c, p1 + 5) != Peek(c, p2 + 2))
  }

  /** The jumps; `pop_failure_jump` takes a failure point off. */
  function ExecJump(c: Code, s: State, pop: bool): Step {
    Step(Go, s.(p := JumpsTo(c, s.p), stack := if pop && s.stack != [] then s.stack[..|s.stack| - 1] else s.stack))
  }

  function ExecDummy(room: Room, s: State, next: nat): Step {
    match Pushed(room, s, Option.None, Option.None)
    case None => Step(NoMemory, s)
    case Some(u) => Step(Go, u.(p := next))
  }

  /** One pattern command of the program as compiled. */
  function Exec(c: Code, text: Text, room: Room, s: State): Step {
    var op := Peek(c, s.p);
    if op == EXACTN then ExecExact(c, text, s)
    else if op == ANYCHAR then ExecAny(text, s)
    else if op == START_MEMORY then ExecStart(c, s)
    else if op == STOP_MEMORY then ExecStop(c, room, s)
    else if op == ON_FAILURE_JUMP then ExecFailureJump(c, room, s)
    else if op == MAYBE_POP_JUMP then ExecJump(c, s, Pops(c, s.p))
    else if op == DUMMY_FAILURE_JUMP then ExecDummy(room, s, JumpsTo(c, s.p))
    else if op == PUSH_DUMMY_FAILURE then ExecDummy(room, s, s.p + 1)
    else ExecJump(c, s, op == POP_FAILURE_JUMP)
  }

  // ---- the whole course ----

  /** What is reported when all ways have failed. */
  function Report(best: Option<nat>, pos: nat): Result {
    match best
    case None => Mismatch
    case Some(e) => if e >= pos then Matched(e - pos) else Mismatch
  }

  function FailOn(c: Code, text: Text, room: Room, pos: nat, s: State, steps: nat): Result
    decreases steps, 3
  {
    match Back(c, s)
    case None => Report(s.best, pos)
    case Some(t) => Course(c, text, room, pos, t, steps)
  }

  /** The main loop, for at most so many commands. */
  function Course(c: Code, text: Text, room: Room, pos: nat, s: State, steps: nat): Result
    decreases steps, 2
  {
    if steps == 0 then OutOfSteps
    else if s.p == |c| then
      if s.d == |text| then Report(Some(s.d), pos)
      else if s.stack == [] then Report(if s.best.Some? then s.best else Some(s.d), pos)
      else FailOn(c, text, room, pos, if s.best.None? || s.d > s.best.value then s.(best := Some(s.d)) else s, steps - 1)
    else
      var step := Exec(c, text, room, s);
      match step.out
      case Go => Course(c, text, room, pos, step.next, steps - 1)
      case Failed => FailOn(c, text, room, pos, step.next, steps - 1)
      case NoMemory => OutOfMemory
  }

  function Begin(pos: nat): State {
    State(0, pos, [], NO_LOWEST_ACTIVE_REG, NO_HIGHEST_ACTIVE_REG, map[], Option.None)
  }

  /** The verdict of the matcher on a start. */
  function Verdict(c: Code, text: Text, room: Room, start: int, steps: nat): Result {
    if start < 0 || start > |text| then Mismatch else Course(c, text, room, start, Begin(start), steps)
  }

  // ---- the course, case by case ----

  lemma CourseOver(c: Code, text: Text, room: Room, pos: nat, s: State)
    ensures Course(c, text, room, pos, s, 0) == OutOfSteps
  {
  }

  /** At the end of the program. */
  lemma CourseAtEnd(c: Code, text: Text, room: Room, pos: nat, s: State, steps: nat)
    requires steps > 0 && s.p == |c|
    ensures var r := Course(c, text, room, pos, s, steps);
      && (s.d == |text| ==> r == Report(Some(s.d), pos))
      && (s.d != |text| && s.stack == [] ==> r == Report(if s.best.Some? then s.best else Some(s.d), pos))
      && (s.d != |text| && s.stack != [] ==>
          r == FailOn(c, text, room, pos, if s.best.None? || s.d > s.best.value then s.(best := Some(s.d)) else s, steps - 1))
  {
  }

  /** At a command. */
  lemma CourseAtCommand(c: Code, text: Text, room: Room, pos: nat, s: State, steps: nat)
    requires steps > 0 && s.p != |c|
    ensures var r, step := Course(c, text, room, pos, s, steps), Exec(c, text, room, s);
      && (step.out == Go ==> r == Course(c, text, room, pos, step.next, steps - 1))
      && (step.out == Failed ==> r == FailOn(c, text, room, pos, step.next, steps - 1))
      && (step.out == NoMemory ==> r == OutOfMemory)
  {
    hide Exec;
  }

  lemma CourseFails(c: Code, text: Text, room: Room, pos: nat, s: State, steps: nat)
    ensures Back(c, s).None? ==> FailOn(c, text, room, pos, s, steps) == Report(s.best, pos)
    ensures Back(c, s).Some? ==> FailOn(c, text, room, pos, s, steps) == Course(c, text, room, pos, Back(c, s).value, steps)
  {
  }

  lemma Reported(best: Option<nat>, pos: nat)
    ensures best.None? ==> Report(best, pos) == Mismatch
    ensures best.Some? && best.value >= pos ==> Report(best, pos) == Matched(best.value - pos)
  {
  }

  lemma VerdictIs(c: Code, text: Text, room: Room, start: int, steps: nat)
    ensures start < 0 || start > |text| ==> Verdict(c, text, room, start, steps) == Mismatch
    ensures 0 <= start <= |text| ==> Verdict(c, text, room, start, steps) == Course(c, text, room, start, Begin(start), steps)
  {
  }

  /** Going back keeps the best match. */
  lemma {:induction false} BackKeepsBest(c: Code, s: State)
    ensures Back(c, s).Some? ==> Back(c, s).value.best == s.best
    decreases |s.stack|
  {
    if s.stack != [] {
      var n := |s.stack| - 1;
      var f := s.stack[n];
      BackKeepsBest(c, State(if f.pattern.Some? then f.pattern.value else s.p, if f.str.Some? then f.str.value else s.d, s.stack[..n],
        f.low, f.high, s.regs + f.saved, s.best));
    }
  }
}
