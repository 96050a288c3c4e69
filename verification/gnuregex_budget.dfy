/** The matcher comes to an end, whatever the string: every command that is carried out, and every
    failure point that is gone back to, uses up some of a budget that the program and the string give. */
module RegexBudget {
  import opened Wrappers
  import opened RegexLanguage
  import opened RegexCode
  import opened RegexCourse
  import opened RegexInstructions
  import opened RegexEdges
  import opened RegexLoops
  import opened RegexMeaning
  import opened RegexPlaces
  import opened RegexTidy
  import opened RegexHalts

  // ---- no rank is above a bound ----

  function Most(f: Frag): nat
    decreases f, 1
  {
    match f
    case Then(a, b) => Most(a) + Work(b) + Most(b)
    case Again(b, _, _) => Most(b) + 2 + Work(b)
    case Group(_, _, alts) => MostAlts(alts) + Work(f)
    case _ => 1
  }

  function MostFront(front: Front): nat
    decreases front, 1
  {
    if front.None? then 0 else MostFront(front.before) + 2 + Work(front.branch) + Most(front.branch)
  }

  function MostAlts(alts: Alts): nat
    decreases alts, 1
  {
    MostFront(alts.front) + 1 + Work(alts.last) + Most(alts.last)
  }

  lemma {:induction false} RankBounded(f: Frag, n: nat, x: int, a: Act)
    ensures Rank(f, n, x, a.regs) <= Most(f)
    decreases f, 1
  {
    hide Rank, Work, Held, Next, RankAlts, HeldAlts, NextAlts, AltBytes, IsAltStart, MostAlts, WorkAlts, IsStart, Bytes;
    match f
    case Then(p, q) =>
      ThenIs(f, n, x, a);
      RankBounded(p, n, x, a);
      RankBounded(q, n + Groups(p), x - |Bytes(p)|, a);
    case Again(b, zero, many) =>
      AgainIs(f, n, x, a);
      RankBounded(b, n, x - Body(zero), a);
    case Group(_, _, alts) =>
      GroupIs(f, n, x, a);
      AltRankBounded(alts, n + 1, x - 3, a);
    case _ => LeafIs(f, n, x, a);
  }

  lemma {:induction false} FrontRankBounded(front: Front, n: nat, x: int, a: Act)
    ensures RankFront(front, n, x, a.regs) <= MostFront(front)
    decreases front, 1
  {
    hide Rank, Work, Held, Next, HeldFront, NextFront, WorkFront, Bytes, IsStart, Most, FrontBytes, IsFrontStart;
    if front.More? {
      FrontIs(front, n, x, a);
      RankBounded(front.branch, n + GroupsFront(front.before), x - FrontSize(front.before) - 3, a);
      FrontRankBounded(front.before, n, x, a);
    }
  }

  lemma {:induction false} AltRankBounded(alts: Alts, n: nat, x: int, a: Act)
    ensures RankAlts(alts, n, x, a.regs) <= MostAlts(alts)
    decreases alts, 1
  {
    hide Rank, Work, Held, Next, RankAlts, HeldAlts, NextAlts, WorkFront, IsStart, IsFrontStart, RankFront, HeldFront, NextFront, WorkAlts, Most, MostFront, Bytes, FrontBytes;
    AltsIs(alts, n, x, a);
    RankBounded(alts.last, n, x, a);
    RankBounded(alts.last, n + GroupsFront(alts.front), x - |FrontBytes(alts.front)| - 3, a);
    FrontRankBounded(alts.front, n, x, a);
  }

  // ---- only the registers within the bounds matter ----

  ghost predicate SameSpan(a: Act, b: Act) {
    a.low == b.low && a.high == b.high && a.truth == b.truth && forall r | a.low <= r <= a.high :: Info(a.regs, r) == Info(b.regs, r)
  }

  lemma SpanReg(a: Act, b: Act, r: int)
    requires SameSpan(a, b)
    ensures HeldReg(a, r) == HeldReg(b, r) && (HeldReg(a, r) ==> HasMatched(a.regs, r) == HasMatched(b.regs, r))
  {
  }

  lemma {:induction false} SameFrag(f: Frag, n: nat, x: int, a: Act, b: Act)
    requires SameSpan(a, b) && IsStart(f, x) && Held(f, n, x, a)
    ensures Held(f, n, x, b) && Rank(f, n, x, b.regs) == Rank(f, n, x, a.regs)
    decreases f, 1
  {
    hide Rank, Work, Held, Next, RankAlts, HeldAlts, NextAlts, AltBytes, IsAltStart, WorkAlts, Bytes, SameSpan, HasMatched, HeldReg;
    match f
    case Then(p, q) =>
      ThenIs(f, n, x, a);
      ThenIs(f, n, x, b);
      if IsStart(p, x) {
        SameFrag(p, n, x, a, b);
      } else {
        SameFrag(q, n + Groups(p), x - |Bytes(p)|, a, b);
      }
    case Again(body, zero, many) =>
      var k := Body(zero);
      AgainIs(f, n, x, a);
      AgainIs(f, n, x, b);
      if IsStart(body, x - k) {
        SameFrag(body, n, x - k, a, b);
        if body.Group? {
          GroupIs(body, n, x - k, a);
          SpanReg(a, b, n + 1);
        }
      }
    case Group(_, _, alts) =>
      GroupIs(f, n, x, a);
      GroupIs(f, n, x, b);
      SpanReg(a, b, n + 1);
      if x != 0 && IsAltStart(alts, x - 3) {
        SameAlts(alts, n + 1, x - 3, a, b);
      }
    case _ =>
      LeafIs(f, n, x, a);
      LeafIs(f, n, x, b);
  }

  lemma {:induction false} SameFront(front: Front, n: nat, x: int, a: Act, b: Act)
    requires SameSpan(a, b) && IsFrontStart(front, x) && HeldFront(front, n, x, a)
    ensures HeldFront(front, n, x, b) && RankFront(front, n, x, b.regs) == RankFront(front, n, x, a.regs)
    decreases front, 1
  {
    hide Rank, Work, Held, Next, RankFront, HeldFront, NextFront, WorkFront, Bytes, IsStart, SameSpan;
    var k := FrontSize(front.before);
    FrontIs(front, n, x, a);
    FrontIs(front, n, x, b);
    if front.before.More? && IsFrontStart(front.before, x) {
      SameFront(front.before, n, x, a, b);
    } else if IsStart(front.branch, x - k - 3) {
      SameFrag(front.branch, n + GroupsFront(front.before), x - k - 3, a, b);
    }
  }

  lemma {:induction false} SameAlts(alts: Alts, n: nat, x: int, a: Act, b: Act)
    requires SameSpan(a, b) && IsAltStart(alts, x) && HeldAlts(alts, n, x, a)
    ensures HeldAlts(alts, n, x, b) && RankAlts(alts, n, x, b.regs) == RankAlts(alts, n, x, a.regs)
    decreases alts, 1
  {
    hide Rank, Work, Held, Next, RankAlts, HeldAlts, NextAlts, WorkFront, IsStart, IsFrontStart, RankFront, HeldFront, NextFront, WorkAlts, SameSpan, GroupsFront, FrontBytes;
    AltsIs(alts, n, x, a);
    AltsIs(alts, n, x, b);
    var k := |FrontBytes(alts.front)| + 3;
    if alts.front.None? {
      SameFrag(alts.last, n, x, a, b);
    } else if IsFrontStart(alts.front, x) {
      SameFront(alts.front, n, x, a, b);
    } else if IsStart(alts.last, x - k) {
      SameFrag(alts.last, n + GroupsFront(alts.front), x - k, a, b);
    }
  }

  // ---- where the commands lead ----

  function Of(st: State, truth: set<int>): Act {
    Act(st.low, st.high, st.regs, truth)
  }

  /** Which groups have matched something after the command at p. */
  function After(c: Code, p: int, truth: set<int>): set<int> {
    if Eats(c, p) then EVERY else if Peek(c, p) == START_MEMORY then truth - {Peek(c, p + 1) as int} else truth
  }

  /** The command at st may go on at q and d. */
  ghost predicate Steps(c: Code, text: Text, st: State, truth: set<int>, q: nat, d: nat, a: Act) {
    Leads(c, st.p, Of(st, truth), q, a) && if Eats(c, st.p) then st.d < d <= |text| else d == st.d
  }

  /** The command pushes a place that it may go on at, or a dummy, or it pops, or neither. */
  ghost predicate Stacks(c: Code, text: Text, st: State, truth: set<int>, next: State) {
    || next.stack == st.stack
    || (st.stack != [] && next.stack == st.stack[..|st.stack| - 1])
    || (|next.stack| == |st.stack| + 1 && next.stack[..|st.stack|] == st.stack && PushedLast(c, text, st, truth, next, next.stack[|st.stack|]))
  }

  ghost predicate PushedLast(c: Code, text: Text, st: State, truth: set<int>, next: State, f: FailurePoint) {
    && f.low == next.low && f.high == next.high && f.saved == Span(next.regs, next.low, next.high)
    && (f.pattern.Some? ==> f.str.Some? && Far(c, st.p, f.pattern.value) && Steps(c, text, st, truth, f.pattern.value, f.str.value, Of(next, After(c, st.p, truth))))
  }

  /** What is kept for later: where a failure jump leads, or the way out of the loop around a group. */
  predicate Far(c: Code, p: int, q: int) {
    (Peek(c, p) == ON_FAILURE_JUMP && q == JumpsTo(c, p)) || (Peek(c, p) == STOP_MEMORY && q == p + 6)
  }

  lemma PushedStacks(c: Code, text: Text, st: State, truth: set<int>, room: Room, t: State, pattern: Option<nat>, str: Option<nat>)
    requires t.stack == st.stack && (pattern.Some? ==> str.Some? && Far(c, st.p, pattern.value) && Steps(c, text, st, truth, pattern.value, str.value, Of(t, After(c, st.p, truth))))
    ensures Pushed(room, t, pattern, str).Some? ==>
      var u := Pushed(room, t, pattern, str).value; (forall tr :: Of(u, tr) == Of(t, tr)) && u.d == t.d && forall q :: Stacks(c, text, st, truth, u.(p := q))
  {
    hide Steps;
    if Pushed(room, t, pattern, str).Some? {
      var u := Pushed(room, t, pattern, str).value;
      forall q: nat ensures Stacks(c, text, st, truth, u.(p := q)) {
        assert u.stack[..|st.stack|] == st.stack;
        assert Of(u.(p := q), After(c, st.p, truth)) == Of(t, After(c, st.p, truth));
      }
    }
  }

  ghost predicate Carries(c: Code, text: Text, st: State, truth: set<int>, step: Step) {
    && (step.out != NoMemory ==> Stacks(c, text, st, truth, step.next))
    && (step.out == Go ==> Steps(c, text, st, truth, step.next.p, step.next.d, Of(step.next, After(c, st.p, truth))))
  }

  /** The jump behind the end of a group that leads to a failure jump is the loop's own. */
  lemma ExitBehind(alts: Alts, p: nat, reg: int)
    requires Laid(alts) && IsAltStart(alts, p) && p + 3 < |AltBytes(alts)| && AltBytes(alts)[p] == STOP_MEMORY
    requires LoopExit(AltBytes(alts), p, reg).Some?
    ensures Peek(AltBytes(alts), p + 3) == MAYBE_POP_JUMP && LoopExit(AltBytes(alts), p, reg).value == p + 6
  {
    hide IsAltStart, AltBytes, IsAltLoop, WellFormedAlts;
    var c := AltBytes(alts);
    AfterMark(alts, p);
    AtAll(c);
    BackwardAlts(alts, c, 0, p + 3);
    NoPopJump(alts, p + 3);
    ExitIs(c, p, reg, IsAltLoop(alts, Target(c, p + 3), p + 3), p + 6 == |c| || DummyAt(c, p + 6));
    AltLoopHasEnds(alts, c, 0, Target(c, p + 3), p + 3);
    ExitEnds(c, p, reg);
  }

  lemma ExitIs(c: Code, p: nat, reg: int, looped: bool, atEnd: bool)
    requires Fits(c, p + 3) && BackIsLoop(c, p + 3, looped, atEnd) && LoopExit(c, p, reg).Some? && c[p + 3] != POP_FAILURE_JUMP && c[p + 3] != JUMP
    ensures c[p + 3] == MAYBE_POP_JUMP && looped
  {
  }

  lemma ExitEnds(c: Code, p: nat, reg: int)
    requires Fits(c, p + 3) && LoopExit(c, p, reg).Some? && c[p + 3] == MAYBE_POP_JUMP && LoopEnds(c, Target(c, p + 3), p + 3)
    ensures LoopExit(c, p, reg).value == p + 6
  {
  }

  lemma CarriesStop(alts: Alts, text: Text, st: State, truth: set<int>, room: Room)
    requires Laid(alts) && IsAltStart(alts, st.p) && st.p < |AltBytes(alts)| && AltBytes(alts)[st.p] == STOP_MEMORY
    ensures Carries(AltBytes(alts), text, st, truth, ExecStop(AltBytes(alts), room, st))
  {
    hide IsAltStart, AltBytes, Laid, Highest, Pushed, Stacks, LoopExit;
    var c := AltBytes(alts);
    var reg: int := Peek(c, st.p + 1);
    var matched := Info(st.regs, reg).matched;
    var t := Left(st.(regs := st.regs[reg := RegInfo(false, matched)]), reg);
    assert Of(t, truth) == Ended(Of(st, truth), reg);
    var exit := if (!matched || Peek(c, st.p - 2) == START_MEMORY) && st.p + 3 < |c| then LoopExit(c, st.p, reg) else Option.None;
    if exit.Some? {
      ExitBehind(alts, st.p, reg);
      PushedStacks(c, text, st, truth, room, t, Some(st.p + 6), Some(st.d));
      if Pushed(room, t, exit, Some(st.d)).Some? {
        var u := Pushed(room, t, exit, Some(st.d)).value;
        assert u.(p := u.p) == u;
      }
    } else {
      SameStacks(c, text, st, truth, t.(p := st.p + 3));
    }
  }

  lemma SameStacks(c: Code, text: Text, st: State, truth: set<int>, next: State)
    requires next.stack == st.stack
    ensures Stacks(c, text, st, truth, next)
  {
  }

  lemma CarriesFailure(c: Code, text: Text, st: State, truth: set<int>, room: Room)
    requires Peek(c, st.p) == ON_FAILURE_JUMP
    ensures Carries(c, text, st, truth, ExecFailureJump(c, room, st))
  {
    hide Pushed, Stacks;
    var p1 := st.p + 3;
    var t :=
      if Peek(c, p1) == START_MEMORY then
        st.(high := Peek(c, p1 + 1) + Peek(c, p1 + 2), low := if st.low == NO_LOWEST_ACTIVE_REG then Peek(c, p1 + 1) else st.low)
      else st;
    assert Of(t, truth) == Readied(c, p1, Of(st, truth));
    PushedStacks(c, text, st, truth, room, t, Some(JumpsTo(c, st.p)), Some(st.d));
  }

  lemma CarriesPlain(c: Code, text: Text, st: State, truth: set<int>, room: Room)
    requires Fits(c, st.p) && st.d <= |text| && c[st.p] != STOP_MEMORY && c[st.p] != ON_FAILURE_JUMP && c[st.p] != PUSH_DUMMY_FAILURE && c[st.p] != DUMMY_FAILURE_JUMP
    ensures Carries(c, text, st, truth, Exec(c, text, room, st))
  {
    hide Pops, Pushed, SetMatched;
  }

  lemma CarriesDummy(c: Code, text: Text, st: State, truth: set<int>, room: Room)
    requires Fits(c, st.p) && (c[st.p] == PUSH_DUMMY_FAILURE || c[st.p] == DUMMY_FAILURE_JUMP)
    ensures Carries(c, text, st, truth, Exec(c, text, room, st))
  {
    hide Pops, Pushed, Stacks;
    PushedStacks(c, text, st, truth, room, st, Option.None, Option.None);
  }

  lemma ExecCarries(alts: Alts, text: Text, st: State, truth: set<int>, room: Room)
    requires Laid(alts) && IsAltStart(alts, st.p) && st.d <= |text|
    ensures Carries(AltBytes(alts), text, st, truth, Exec(AltBytes(alts), text, room, st)) && st.p < |AltBytes(alts)|
  {
    hide IsAltStart, AltBytes, Carries, Pops, Pushed, ExecStop, ExecFailureJump, ExecExact, ExecAny, ExecStart, ExecJump, ExecDummy;
    var c := AltBytes(alts);
    AtAll(c);
    StartsInside(alts, st.p);
    AltOpcodes(alts, c, 0, st.p);
    var op := c[st.p];
    if op == STOP_MEMORY {
      CarriesStop(alts, text, st, truth, room);
    } else if op == ON_FAILURE_JUMP {
      CarriesFailure(c, text, st, truth, room);
    } else if op == PUSH_DUMMY_FAILURE || op == DUMMY_FAILURE_JUMP {
      CarriesDummy(c, text, st, truth, room);
    } else {
      CarriesPlain(c, text, st, truth, room);
    }
  }

  // ---- the budget ----

  /** A program of numbered groups with loops around single pieces. */
  ghost predicate Tame(alts: Alts) {
    Laid(alts) && TidyAlts(alts, 0) && GroupsAlts(alts) <= MAX_REGNUM
  }

  ghost predicate Live(alts: Alts, text: Text, q: nat, d: nat, a: Act) {
    d <= |text| && (q == |AltBytes(alts)| || HereAlts(alts, 0, q, a))
  }

  /** So much is left to do at place q of the program and d of the string. */
  function Cost(alts: Alts, text: Text, q: nat, d: nat, regs: Registers): nat {
    Times(if d < |text| then |text| - d else 0, MostAlts(alts)) + (if q == |AltBytes(alts)| then 0 else RankAlts(alts, 0, q, regs))
  }

  /** The cost of so many characters. */
  function Times(k: nat, m: nat): nat {
    k * (m + 1)
  }

  lemma CostLess(k: nat, k': nat, m: nat, r: nat, r': nat)
    requires k' < k && r' <= m
    ensures Times(k', m) + r' < Times(k, m) + r
  {
    assert (k' + 1) * (m + 1) <= k * (m + 1);
  }

  lemma PutTame(alts: Alts)
    requires Tame(alts)
    ensures PutAlts(alts, 0, AltBytes(alts), 0)
  {
    hide TidyAlts, GroupsAlts, AltBytes;
    AtAll(AltBytes(alts));
  }

  /** Wherever a command leads, less is left to do. */
  lemma Advances(alts: Alts, text: Text, st: State, truth: set<int>, q: nat, d: nat, a: Act)
    requires Tame(alts) && Live(alts, text, st.p, st.d, Of(st, truth)) && st.p != |AltBytes(alts)| && Steps(AltBytes(alts), text, st, truth, q, d, a)
    ensures Live(alts, text, q, d, a) && Cost(alts, text, q, d, a.regs) < Cost(alts, text, st.p, st.d, st.regs)
    ensures Behind(AltBytes(alts), st.p, q)
  {
    hide Tame, AltBytes, Leads, HereAlts, PutAlts, RankAlts, MostAlts, GroupsAlts, Eats;
    var a0 := Of(st, truth);
    var c := AltBytes(alts);
    PutTame(alts);
    GoAlts(alts, 0, c, 0, st.p, a0, q, a);
    AltRankBounded(alts, 0, q, a);
    HereAltsIs(alts, 0, st.p, a0);
    AltRankPositive(alts, 0, st.p, a0);
    if Eats(c, st.p) {
      CostLess(|text| - st.d, |text| - d, MostAlts(alts), RankAlts(alts, 0, st.p, st.regs), if q == |c| then 0 else RankAlts(alts, 0, q, a.regs));
    }
  }

  /** With the registers of a failure point put back, the place is what it was. */
  lemma LiveSame(alts: Alts, text: Text, q: nat, d: nat, a: Act, b: Act)
    requires Live(alts, text, q, d, a) && SameSpan(a, b)
    ensures Live(alts, text, q, d, b) && Cost(alts, text, q, d, b.regs) == Cost(alts, text, q, d, a.regs)
  {
    hide AltBytes, RankAlts, MostAlts, IsAltStart, HeldAlts, NextAlts;
    if q != |AltBytes(alts)| {
      SameAlts(alts, 0, q, a, b);
    }
  }

  function Pow3(n: nat): nat {
    if n == 0 then 1 else 3 * Pow3(n - 1)
  }

  lemma {:induction false} Pow3Grows(m: nat, n: nat)
    requires m <= n
    ensures 1 <= Pow3(m) <= Pow3(n) && (m < n ==> 3 * Pow3(m) <= Pow3(n))
    decreases n
  {
    if m < n {
      Pow3Grows(m, n - 1);
    } else if n > 0 {
      Pow3Grows(m - 1, n - 1);
    }
  }

  ghost predicate LivePoint(alts: Alts, text: Text, f: FailurePoint) {
    && (forall r | f.low <= r <= f.high :: r in f.saved)
    && (f.pattern.Some? ==> f.str.Some? && exists truth :: Live(alts, text, f.pattern.value, f.str.value, Act(f.low, f.high, f.saved, truth)))
  }

  ghost predicate LiveStack(alts: Alts, text: Text, stack: seq<FailurePoint>) {
    forall f | f in stack :: LivePoint(alts, text, f)
  }

  function Weight(alts: Alts, text: Text, f: FailurePoint): nat {
    if f.pattern.Some? && f.str.Some? then Pow3(Cost(alts, text, f.pattern.value, f.str.value, f.saved)) else 0
  }

  function Total(alts: Alts, text: Text, stack: seq<FailurePoint>): nat {
    if stack == [] then 0 else Total(alts, text, stack[..|stack| - 1]) + Weight(alts, text, stack[|stack| - 1])
  }

  /** So many commands at most are carried out from st on. */
  function Potential(alts: Alts, text: Text, st: State): nat {
    Pow3(Cost(alts, text, st.p, st.d, st.regs)) + Total(alts, text, st.stack)
  }

  /** Going on from a failure point uses up what was kept for it. */
  lemma {:induction false} BackLive(alts: Alts, text: Text, c: Code, st: State)
    requires LiveStack(alts, text, st.stack)
    ensures Back(c, st).Some? ==>
      var t := Back(c, st).value;
      (exists truth :: Live(alts, text, t.p, t.d, Of(t, truth))) && LiveStack(alts, text, t.stack) && Potential(alts, text, t) <= Total(alts, text, st.stack)
    decreases |st.stack|
  {
    hide Live, Cost, Pow3, Back, JumpsBack;
    if st.stack == [] {
      BackEnd(c, st);
    } else {
      var n := |st.stack| - 1;
      var f := st.stack[n];
      BackStep(c, st);
      assert LivePoint(alts, text, f);
      var t := State(if f.pattern.Some? then f.pattern.value else st.p, if f.str.Some? then f.str.value else st.d, st.stack[..n],
        f.low, f.high, st.regs + f.saved, st.best);
      BackLive(alts, text, c, t);
      if f.pattern.Some? {
        var truth :| Live(alts, text, t.p, t.d, Act(f.low, f.high, f.saved, truth));
        LiveSame(alts, text, t.p, t.d, Act(f.low, f.high, f.saved, truth), Of(t, truth));
      }
    }
  }

  lemma PointLive(alts: Alts, text: Text, st: State, truth: set<int>, next: State, f: FailurePoint)
    requires Tame(alts) && Live(alts, text, st.p, st.d, Of(st, truth)) && st.p != |AltBytes(alts)|
    requires PushedLast(AltBytes(alts), text, st, truth, next, f)
    ensures LivePoint(alts, text, f) && 3 * Weight(alts, text, f) <= Pow3(Cost(alts, text, st.p, st.d, st.regs))
  {
    hide Tame, Live, Cost, Steps, Pow3, AltBytes;
    if f.pattern.Some? {
      var truth' := After(AltBytes(alts), st.p, truth);
      Advances(alts, text, st, truth, f.pattern.value, f.str.value, Of(next, truth'));
      LiveSame(alts, text, f.pattern.value, f.str.value, Of(next, truth'), Act(f.low, f.high, f.saved, truth'));
      Pow3Grows(Cost(alts, text, f.pattern.value, f.str.value, f.saved), Cost(alts, text, st.p, st.d, st.regs));
    }
  }

  /** A command leaves more on the stack only as far as its own budget allows. */
  lemma StackLive(alts: Alts, text: Text, st: State, truth: set<int>, next: State)
    requires Tame(alts) && Live(alts, text, st.p, st.d, Of(st, truth)) && st.p != |AltBytes(alts)| && LiveStack(alts, text, st.stack)
    requires Stacks(AltBytes(alts), text, st, truth, next)
    ensures LiveStack(alts, text, next.stack)
    ensures 3 * Total(alts, text, next.stack) <= Pow3(Cost(alts, text, st.p, st.d, st.regs)) + 3 * Total(alts, text, st.stack)
  {
    hide Tame, Live, Cost, Pow3, PushedLast, LivePoint, Weight, AltBytes;
    if |next.stack| == |st.stack| + 1 {
      var f := next.stack[|st.stack|];
      PointLive(alts, text, st, truth, next, f);
      assert next.stack == st.stack + [f];
    }
  }

  /** The steps that are left are always enough. */
  lemma {:induction false} CourseEnds(alts: Alts, text: Text, room: Room, pos: nat, st: State, truth: set<int>, steps: nat)
    requires Tame(alts) && Live(alts, text, st.p, st.d, Of(st, truth)) && LiveStack(alts, text, st.stack) && Potential(alts, text, st) <= steps
    ensures Course(AltBytes(alts), text, room, pos, st, steps) != OutOfSteps
    decreases steps, 2
  {
    hide Tame, Live, LiveStack, Cost, Pow3, Course, FailOn, Exec, AltBytes, Stacks, Steps, Total, Report, Of, After, Behind;
    var c := AltBytes(alts);
    var cost := Cost(alts, text, st.p, st.d, st.regs);
    Pow3Grows(0, cost);
    if st.p == |c| {
      CourseAtEnd(c, text, room, pos, st, steps);
      FailEnds(alts, text, room, pos, st, steps - 1);
      FailEnds(alts, text, room, pos, st.(best := Some(st.d)), steps - 1);
      NeverOutOfSteps(st, pos);
    } else {
      CourseAtCommand(c, text, room, pos, st, steps);
      LivePlace(alts, text, st, truth);
      ExecCarries(alts, text, st, truth, room);
      var step := Exec(c, text, room, st);
      if step.out != NoMemory {
        StackLive(alts, text, st, truth, step.next);
        if step.out == Go {
          var truth' := After(c, st.p, truth);
          Advances(alts, text, st, truth, step.next.p, step.next.d, Of(step.next, truth'));
          OfIs(step.next, truth');
          Pow3Grows(Cost(alts, text, step.next.p, step.next.d, step.next.regs), cost);
          CourseEnds(alts, text, room, pos, step.next, truth', steps - 1);
        } else {
          FailEnds(alts, text, room, pos, step.next, steps - 1);
        }
      }
    }
  }

  lemma OfIs(st: State, truth: set<int>)
    ensures Of(st, truth).regs == st.regs
  {
  }

  lemma NeverOutOfSteps(st: State, pos: nat)
    ensures Report(st.best, pos) != OutOfSteps && Report(Some(st.d), pos) != OutOfSteps
  {
  }

  lemma LivePlace(alts: Alts, text: Text, st: State, truth: set<int>)
    requires Tame(alts) && Live(alts, text, st.p, st.d, Of(st, truth)) && st.p != |AltBytes(alts)|
    ensures Laid(alts) && IsAltStart(alts, st.p) && st.d <= |text|
  {
  }

  lemma {:induction false} FailEnds(alts: Alts, text: Text, room: Room, pos: nat, st: State, steps: nat)
    requires Tame(alts) && LiveStack(alts, text, st.stack) && Total(alts, text, st.stack) <= steps
    ensures FailOn(AltBytes(alts), text, room, pos, st, steps) != OutOfSteps
    decreases steps, 3
  {
    hide Tame, Live, LiveStack, Cost, Pow3, Course, FailOn, Exec, AltBytes, Back, Total, Report;
    CourseFails(AltBytes(alts), text, room, pos, st, steps);
    BackLive(alts, text, AltBytes(alts), st);
    NeverOutOfSteps(st, pos);
    if Back(AltBytes(alts), st).Some? {
      var t := Back(AltBytes(alts), st).value;
      var truth :| Live(alts, text, t.p, t.d, Of(t, truth));
      CourseEnds(alts, text, room, pos, t, truth, steps);
    }
  }

  /** Enough for every start in a string. */
  function Budget(alts: Alts, text: Text): nat {
    Pow3(Times(|text| + 1, MostAlts(alts)))
  }

  lemma BeginLive(alts: Alts, text: Text, start: nat)
    requires Tame(alts) && start <= |text|
    ensures Live(alts, text, 0, start, Of(Begin(start), {})) && Potential(alts, text, Begin(start)) <= Budget(alts, text)
  {
    hide TidyAlts, GroupsAlts, AltBytes, HeldAlts, RankAlts, NextAlts, IsAltStart, Pow3, WorkAlts, MostAlts, PutAlts;
    var a := Of(Begin(start), {});
    PutTame(alts);
    AtFirstAlts(alts, 0, AltBytes(alts), 0, a);
    AltRankBounded(alts, 0, 0, a);
    var cost := Cost(alts, text, 0, start, a.regs);
    CostLess(|text| + 1, |text| - start, MostAlts(alts), 0, if 0 == |AltBytes(alts)| then 0 else RankAlts(alts, 0, 0, a.regs));
    Pow3Grows(cost, Times(|text| + 1, MostAlts(alts)));
  }

  /** The matcher comes to a verdict on every start of every string. */
  lemma VerdictComes(alts: Alts, text: Text, room: Room, start: int, steps: nat)
    requires Tame(alts) && Budget(alts, text) <= steps
    ensures Verdict(AltBytes(alts), text, room, start, steps) != OutOfSteps
  {
    hide Tame, AltBytes, Live, Potential, Budget, Course, Of;
    VerdictIs(AltBytes(alts), text, room, start, steps);
    if 0 <= start <= |text| {
      BeginLive(alts, text, start);
      CourseEnds(alts, text, room, start, Begin(start), {}, steps);
    }
  }

  /** A verdict stands, whatever more commands are allowed. */
  lemma {:induction false} MoreSteps(c: Code, text: Text, room: Room, pos: nat, st: State, steps: nat, more: nat)
    requires Course(c, text, room, pos, st, steps) != OutOfSteps && steps <= more
    ensures Course(c, text, room, pos, st, more) == Course(c, text, room, pos, st, steps)
    decreases steps, 2
  {
    hide Exec, Back, Course, FailOn, Report;
    if steps == 0 {
      CourseOver(c, text, room, pos, st);
    } else if st.p == |c| {
      CourseAtEnd(c, text, room, pos, st, steps);
      CourseAtEnd(c, text, room, pos, st, more);
      if st.d != |text| && st.stack != [] {
        MoreAfterFail(c, text, room, pos, if st.best.None? || st.d > st.best.value then st.(best := Some(st.d)) else st, steps - 1, more - 1);
      }
    } else {
      CourseAtCommand(c, text, room, pos, st, steps);
      CourseAtCommand(c, text, room, pos, st, more);
      var step := Exec(c, text, room, st);
      if step.out == Go {
        MoreSteps(c, text, room, pos, step.next, steps - 1, more - 1);
      } else if step.out == Failed {
        MoreAfterFail(c, text, room, pos, step.next, steps - 1, more - 1);
      }
    }
  }

  lemma {:induction false} MoreAfterFail(c: Code, text: Text, room: Room, pos: nat, st: State, steps: nat, more: nat)
    requires FailOn(c, text, room, pos, st, steps) != OutOfSteps && steps <= more
    ensures FailOn(c, text, room, pos, st, more) == FailOn(c, text, room, pos, st, steps)
    decreases steps, 3
  {
    hide Exec, Back, Course, FailOn, Report;
    CourseFails(c, text, room, pos, st, steps);
    CourseFails(c, text, room, pos, st, more);
    if Back(c, st).Some? {
      MoreSteps(c, text, room, pos, Back(c, st).value, steps, more);
    }
  }

  /** All large enough budgets give the same verdict. */
  lemma VerdictSettles(alts: Alts, text: Text, room: Room, start: int, steps: nat)
    requires Tame(alts) && Budget(alts, text) <= steps
    ensures Verdict(AltBytes(alts), text, room, start, steps) == Verdict(AltBytes(alts), text, room, start, Budget(alts, text)) != OutOfSteps
  {
    hide Tame, AltBytes, Budget, Course;
    VerdictIs(AltBytes(alts), text, room, start, steps);
    VerdictIs(AltBytes(alts), text, room, start, Budget(alts, text));
    VerdictComes(alts, text, room, start, Budget(alts, text));
    if 0 <= start <= |text| {
      MoreSteps(AltBytes(alts), text, room, start, Begin(start), Budget(alts, text), steps);
    }
  }

  /** Where no failure point is refused, memory does not run out. */
  lemma {:induction false} MemoryLasts(c: Code, text: Text, room: Room, pos: nat, st: State, steps: nat)
    requires forall stack :: room(stack)
    ensures Course(c, text, room, pos, st, steps) != OutOfMemory
    decreases steps, 2
  {
    hide Back, Course, FailOn, Report, Exec;
    if steps == 0 {
      CourseOver(c, text, room, pos, st);
    } else if st.p == |c| {
      CourseAtEnd(c, text, room, pos, st, steps);
      MemoryLastsOn(c, text, room, pos, st, steps - 1);
      MemoryLastsOn(c, text, room, pos, st.(best := Some(st.d)), steps - 1);
      ReportsNoError(st, pos);
    } else {
      CourseAtCommand(c, text, room, pos, st, steps);
      HasMemory(c, text, room, st);
      var step := Exec(c, text, room, st);
      if step.out == Go {
        MemoryLasts(c, text, room, pos, step.next, steps - 1);
      } else {
        MemoryLastsOn(c, text, room, pos, step.next, steps - 1);
      }
    }
  }

  lemma HasMemory(c: Code, text: Text, room: Room, st: State)
    requires forall stack :: room(stack)
    ensures Exec(c, text, room, st).out != NoMemory
  {
    hide Pops, LoopExit, Left, SetMatched;
  }

  lemma ReportsNoError(st: State, pos: nat)
    ensures Report(st.best, pos) != OutOfMemory && Report(Some(st.d), pos) != OutOfMemory
  {
  }

  lemma {:induction false} MemoryLastsOn(c: Code, text: Text, room: Room, pos: nat, st: State, steps: nat)
    requires forall stack :: room(stack)
    ensures FailOn(c, text, room, pos, st, steps) != OutOfMemory
    decreases steps, 3
  {
    hide Back, Course, FailOn, Report;
    CourseFails(c, text, room, pos, st, steps);
    ReportsNoError(st, pos);
    if Back(c, st).Some? {
      MemoryLasts(c, text, room, pos, Back(c, st).value, steps);
    }
  }

  /** With enough steps and memory, a start matches or does not. */
  lemma VerdictDecides(alts: Alts, text: Text, room: Room, start: int, steps: nat)
    requires Tame(alts) && Budget(alts, text) <= steps && forall stack :: room(stack)
    ensures var v := Verdict(AltBytes(alts), text, room, start, steps); v.Matched? || v == Mismatch
  {
    hide Tame, AltBytes, Budget, Course;
    VerdictComes(alts, text, room, start, steps);
    VerdictIs(AltBytes(alts), text, room, start, steps);
    if 0 <= start <= |text| {
      MemoryLasts(AltBytes(alts), text, room, start, Begin(start), steps);
    }
  }
}
