/** The matcher finds a match wherever its search can end: no way that is still open is lost. */
module RegexFinds {
  import opened Wrappers
  import opened RegexLanguage
  import opened RegexCode
  import opened RegexCourse
  import opened RegexInstructions
  import opened RegexEdges
  import opened RegexMeaning
  import opened RegexPlaces
  import opened RegexHalts
  import opened RegexBudget
  import opened RegexTops
  import opened RegexTurns

  // ---- taking a failure point off loses nothing ----

  lemma {:induction false} PastMarksStart(alts: Alts, q: nat)
    requires Laid(alts) && (q == |AltBytes(alts)| || IsAltStart(alts, q))
    ensures var p2 := PastMarks(AltBytes(alts), q); p2 == |AltBytes(alts)| || IsAltStart(alts, p2)
    decreases |AltBytes(alts)| - q
  {
    hide IsAltStart, AltBytes, WellFormedAlts, Length, Fits;
    var c := AltBytes(alts);
    AtAll(c);
    StartsInside(alts, q);
    if q + 2 < |c| && (c[q] == STOP_MEMORY || c[q] == START_MEMORY) {
      NextAltStart(alts, c, 0, q);
      MarkLength(c, q);
      PastMarksStart(alts, q + 3);
    }
  }

  /** `maybe_pop_jump` takes a failure point off only if the program can be ended without it, or
      cannot be ended from it. */
  lemma PopSafe(alts: Alts, text: Text, st: State, truth: set<int>, truth': set<int>)
    requires Tame(alts) && IsAltStart(alts, st.p) && Peek(AltBytes(alts), st.p) == MAYBE_POP_JUMP && Pops(AltBytes(alts), st.p)
    requires Topped(alts, text, st) && st.stack != []
    ensures var c, f := AltBytes(alts), st.stack[|st.stack| - 1];
      || Wins(c, text, st.p, st.d, truth)
      || f.pattern.None? || f.str.None? || !Wins(c, text, f.pattern.value, f.str.value, truth')
  {
    hide IsAltStart, AltBytes, Wins, Tame, Heads, PastMarks, WayOut, Fits, Length;
    var c, l := AltBytes(alts), st.p;
    TameLaid(alts);
    BackLoop(alts, l);
    BackEnds(alts, l);
    var t, p2 := JumpsTo(c, l), PastMarks(c, l + 3);
    if p2 == |c| {
      MarksToEnd(c, text, l + 3, st.d, truth);
      TurnWins(c, text, t, st.d, truth, l + 3, st.d);
      TurnWins(c, text, l, st.d, truth, t, st.d);
    } else {
      PastMarksStart(alts, l + 3);
      StartsInside(alts, p2);
      PoppedLoses(alts, text, st, truth');
    }
  }

  lemma TameLaid(alts: Alts)
    requires Tame(alts)
    ensures Laid(alts)
  {
  }

  /** Behind the jump back comes an instruction, or the end. */
  lemma BackEnds(alts: Alts, l: nat)
    requires Tame(alts) && IsAltStart(alts, l) && Peek(AltBytes(alts), l) == MAYBE_POP_JUMP
    ensures l + 3 == |AltBytes(alts)| || IsAltStart(alts, l + 3)
  {
    hide IsAltStart, AltBytes, WellFormedAlts, Length, Fits;
    AtAll(AltBytes(alts));
    StartsInside(alts, l);
    NextAltStart(alts, AltBytes(alts), 0, l);
    JumpIsThree(AltBytes(alts), l);
  }

  lemma PoppedLoses(alts: Alts, text: Text, st: State, truth: set<int>)
    requires Tame(alts) && IsAltStart(alts, st.p) && Peek(AltBytes(alts), st.p) == MAYBE_POP_JUMP && Topped(alts, text, st) && st.stack != []
    requires var c := AltBytes(alts);
      var p2, t := PastMarks(c, st.p + 3), JumpsTo(c, st.p);
      && p2 < |c| && Fits(c, p2) && c[p2] == EXACTN && Peek(c, t + 3) == EXACTN && Peek(c, t + 5) != Peek(c, p2 + 2) && st.p + 3 <= |c|
    ensures var f := st.stack[|st.stack| - 1];
      f.pattern.None? || f.str.None? || !Wins(AltBytes(alts), text, f.pattern.value, f.str.value, truth)
  {
    hide IsAltStart, AltBytes, Wins, Tame, Heads, PastMarks, Fits;
    var c, f := AltBytes(alts), st.stack[|st.stack| - 1];
    BackLoop(alts, st.p);
    var d: nat :| WayOut(f, st.p + 3, d) && d < |text| && text[d] == Peek(c, JumpsTo(c, st.p) + 5);
    if f.pattern.Some? && Wins(c, text, st.p + 3, d, truth) {
      MarksToExact(c, text, st.p + 3, d, truth);
    }
  }

  // ---- what can still be hoped for ----

  ghost predicate WinsPoint(alts: Alts, text: Text, f: FailurePoint) {
    f.pattern.Some? && f.str.Some? && exists truth ::
      Live(alts, text, f.pattern.value, f.str.value, Act(f.low, f.high, f.saved, truth)) && Wins(AltBytes(alts), text, f.pattern.value, f.str.value, truth)
  }

  ghost predicate Promise(alts: Alts, text: Text, stack: seq<FailurePoint>) {
    exists f :: f in stack && WinsPoint(alts, text, f)
  }

  /** Nothing goes back before the start of the match. */
  ghost predicate From(pos: nat, stack: seq<FailurePoint>, best: Option<nat>) {
    (forall f | f in stack :: f.pattern.Some? && f.str.Some? ==> pos <= f.str.value) && (best.Some? ==> pos <= best.value)
  }

  /** The failure stack is in order. */
  ghost predicate Sound(alts: Alts, text: Text, pos: nat, st: State) {
    Tame(alts) && LiveStack(alts, text, st.stack) && PlainStack(alts, st.stack) && From(pos, st.stack, st.best)
  }

  ghost predicate Ready(alts: Alts, text: Text, pos: nat, st: State, truth: set<int>) {
    Sound(alts, text, pos, st) && pos <= st.d && Live(alts, text, st.p, st.d, Of(st, truth)) && Topped(alts, text, st)
  }

  ghost predicate Hopes(alts: Alts, text: Text, st: State, truth: set<int>) {
    st.best.Some? || Wins(AltBytes(alts), text, st.p, st.d, truth) || Promise(alts, text, st.stack)
  }

  predicate Settled(r: Result) {
    r.Matched? || r == OutOfMemory || r == OutOfSteps
  }

  // ---- going back ----

  lemma NotSkipped(alts: Alts, q: nat, d: nat, text: Text, a: Act)
    requires Tame(alts) && Live(alts, text, q, d, a) && Plain(alts, q)
    ensures !(q < |AltBytes(alts)| && JumpsBack(AltBytes(alts), q))
  {
    hide IsAltStart, AltBytes, WellFormedAlts, Heads, HeldAlts;
    if q != |AltBytes(alts)| {
      NoPopJump(alts, q);
    }
  }

  /** Going back ends at a point that is fit to go on from, and keeps the promise. */
  lemma {:induction false} BackFinds(alts: Alts, text: Text, pos: nat, st: State) returns (truth: set<int>)
    requires Sound(alts, text, pos, st)
    ensures var back := Back(AltBytes(alts), st);
      && (Promise(alts, text, st.stack) ==> back.Some?)
      && (back.Some? ==> back.value.best == st.best && Ready(alts, text, pos, back.value, truth))
      && (back.Some? && Promise(alts, text, st.stack) ==> Hopes(alts, text, back.value, truth))
    decreases |st.stack|
  {
    hide Tame, AltBytes, Live, Back, JumpsBack, Plain, WinsPoint, Wins, Topped, LivePoint;
    truth := {};
    if st.stack == [] {
      BackEnd(AltBytes(alts), st);
    } else {
      var n := |st.stack| - 1;
      var f := st.stack[n];
      BackStep(AltBytes(alts), st);
      var t := State(if f.pattern.Some? then f.pattern.value else st.p, if f.str.Some? then f.str.value else st.d, st.stack[..n],
        f.low, f.high, st.regs + f.saved, st.best);
      assert f in st.stack && LivePoint(alts, text, f);
      PromiseParts(alts, text, st.stack);
      if f.pattern.Some? {
        truth := PointReady(alts, text, f, t);
        NotSkipped(alts, t.p, t.d, text, Of(t, truth));
        PlainTopped(alts, text, t);
      } else {
        NoPoint(alts, text, f);
        truth := BackFinds(alts, text, pos, t);
      }
    }
  }

  lemma NoPoint(alts: Alts, text: Text, f: FailurePoint)
    requires f.pattern.None?
    ensures !WinsPoint(alts, text, f)
  {
  }

  lemma PromiseParts(alts: Alts, text: Text, stack: seq<FailurePoint>)
    requires stack != []
    ensures var n := |stack| - 1; Promise(alts, text, stack) ==> WinsPoint(alts, text, stack[n]) || Promise(alts, text, stack[..n])
  {
    hide WinsPoint;
    if Promise(alts, text, stack) {
      var f :| f in stack && WinsPoint(alts, text, f);
      var i :| 0 <= i < |stack| && stack[i] == f;
      if i < |stack| - 1 {
        assert stack[..|stack| - 1][i] == f;
      }
    }
  }

  /** With its registers put back, a failure point is what it was when it was pushed. */
  lemma PointReady(alts: Alts, text: Text, f: FailurePoint, t: State) returns (truth: set<int>)
    requires LivePoint(alts, text, f) && f.pattern.Some?
    requires f.str.Some? ==> t.p == f.pattern.value && t.d == f.str.value && t.low == f.low && t.high == f.high && exists regs: Registers :: t.regs == regs + f.saved
    ensures f.str.Some? && Live(alts, text, t.p, t.d, Of(t, truth))
    ensures WinsPoint(alts, text, f) ==> Wins(AltBytes(alts), text, t.p, t.d, truth)
  {
    hide Live, Wins, AltBytes, Cost;
    if WinsPoint(alts, text, f) {
      truth :| Live(alts, text, f.pattern.value, f.str.value, Act(f.low, f.high, f.saved, truth)) && Wins(AltBytes(alts), text, f.pattern.value, f.str.value, truth);
    } else {
      truth :| Live(alts, text, f.pattern.value, f.str.value, Act(f.low, f.high, f.saved, truth));
    }
    LiveSame(alts, text, t.p, t.d, Act(f.low, f.high, f.saved, truth), Of(t, truth));
  }

  // ---- one command ----

  lemma ExecKeepsBest(c: Code, text: Text, room: Room, st: State)
    ensures Exec(c, text, room, st).next.best == st.best
  {
    hide Pops, SetMatched, Span, LoopExit, Highest;
  }

  /** Only `maybe_pop_jump` takes a failure point off. */
  lemma ExecPops(c: Code, text: Text, room: Room, st: State)
    requires Fits(c, st.p) && c[st.p] != POP_FAILURE_JUMP
    ensures |Exec(c, text, room, st).next.stack| < |st.stack| ==> c[st.p] == MAYBE_POP_JUMP && Pops(c, st.p)
  {
    hide Pops, SetMatched, Span, LoopExit, Highest;
  }

  lemma StacksFrom(c: Code, text: Text, pos: nat, st: State, truth: set<int>, next: State)
    requires From(pos, st.stack, st.best) && pos <= st.d && Stacks(c, text, st, truth, next) && next.best == st.best
    ensures From(pos, next.stack, next.best)
  {
    hide Leads, Eats;
    if |next.stack| == |st.stack| + 1 {
      var f := next.stack[|st.stack|];
      assert next.stack == st.stack + [f];
    }
  }

  /** What wins at a state is gone on with, or kept. */
  lemma WinGoesOn(alts: Alts, text: Text, room: Room, pos: nat, st: State, truth: set<int>)
    requires Ready(alts, text, pos, st, truth) && st.p != |AltBytes(alts)| && Wins(AltBytes(alts), text, st.p, st.d, truth)
    ensures var step, truth' := Exec(AltBytes(alts), text, room, st), After(AltBytes(alts), st.p, truth);
      && (step.out == Go ==> Wins(AltBytes(alts), text, step.next.p, step.next.d, truth') || Promise(alts, text, step.next.stack))
      && (step.out == Failed ==> Promise(alts, text, step.next.stack))
  {
    hide Tame, AltBytes, Live, Turn, Wins, After, Steps, Exec, Topped, LiveStack, PlainStack, From, Of, Far;
    var c := AltBytes(alts);
    var q, e := WinsTurn(c, text, st.p, st.d, truth);
    TurnTaken(alts, text, st, truth, room, q, e);
    LivePlace(alts, text, st, truth);
    ExecCarries(alts, text, st, truth, room);
    var step := Exec(c, text, room, st);
    if step.out != NoMemory && !(step.out == Go && step.next.p == q && step.next.d == e) {
      var f := step.next.stack[|st.stack|];
      PointWins(alts, text, st, truth, step.next, f);
    }
  }

  lemma PointWins(alts: Alts, text: Text, st: State, truth: set<int>, next: State, f: FailurePoint)
    requires Tame(alts) && Live(alts, text, st.p, st.d, Of(st, truth)) && st.p != |AltBytes(alts)| && PushedLast(AltBytes(alts), text, st, truth, next, f)
    requires f.pattern.Some? && f.str.Some? && Wins(AltBytes(alts), text, f.pattern.value, f.str.value, After(AltBytes(alts), st.p, truth))
    ensures WinsPoint(alts, text, f)
  {
    hide Tame, Live, Cost, Steps, AltBytes, Wins;
    var truth' := After(AltBytes(alts), st.p, truth);
    Advances(alts, text, st, truth, f.pattern.value, f.str.value, Of(next, truth'));
    LiveSame(alts, text, f.pattern.value, f.str.value, Of(next, truth'), Act(f.low, f.high, f.saved, truth'));
  }

  /** What a failure point promises is not lost. */
  lemma PromiseGoesOn(alts: Alts, text: Text, room: Room, pos: nat, st: State, truth: set<int>)
    requires Ready(alts, text, pos, st, truth) && st.p != |AltBytes(alts)| && Promise(alts, text, st.stack)
    ensures var step := Exec(AltBytes(alts), text, room, st);
      step.out != NoMemory ==> Promise(alts, text, step.next.stack) || Wins(AltBytes(alts), text, st.p, st.d, truth)
  {
    hide Tame, AltBytes, Live, Wins, After, Steps, Exec, Topped, LiveStack, PlainStack, From, Of, WinsPoint, PushedLast, Fits, Pops;
    var c := AltBytes(alts);
    LivePlace(alts, text, st, truth);
    ExecCarries(alts, text, st, truth, room);
    StartsInside(alts, st.p);
    NoPopJump(alts, st.p);
    ExecPops(c, text, room, st);
    var step := Exec(c, text, room, st);
    PromiseParts(alts, text, st.stack);
    if step.out != NoMemory && |step.next.stack| < |st.stack| && WinsPoint(alts, text, st.stack[|st.stack| - 1]) {
      TopLoses(alts, text, st, truth);
    }
  }

  lemma TopLoses(alts: Alts, text: Text, st: State, truth: set<int>)
    requires Tame(alts) && IsAltStart(alts, st.p) && Peek(AltBytes(alts), st.p) == MAYBE_POP_JUMP && Pops(AltBytes(alts), st.p)
    requires Topped(alts, text, st) && st.stack != [] && WinsPoint(alts, text, st.stack[|st.stack| - 1])
    ensures Wins(AltBytes(alts), text, st.p, st.d, truth)
  {
    hide Tame, AltBytes, Live, Wins, Topped, Pops, IsAltStart;
    var f := st.stack[|st.stack| - 1];
    var truth' :| Live(alts, text, f.pattern.value, f.str.value, Act(f.low, f.high, f.saved, truth')) && Wins(AltBytes(alts), text, f.pattern.value, f.str.value, truth');
    PopSafe(alts, text, st, truth, truth');
  }

  /** After a command the state is ready again, and what could be hoped for still can. */
  lemma ReadyOn(alts: Alts, text: Text, room: Room, pos: nat, st: State, truth: set<int>)
    requires Ready(alts, text, pos, st, truth) && Hopes(alts, text, st, truth) && st.p != |AltBytes(alts)|
    ensures var step, truth' := Exec(AltBytes(alts), text, room, st), After(AltBytes(alts), st.p, truth);
      && (step.out != NoMemory ==> Sound(alts, text, pos, step.next) && step.next.best == st.best)
      && (step.out == Go ==> Ready(alts, text, pos, step.next, truth') && Hopes(alts, text, step.next, truth'))
      && (step.out == Failed ==> st.best.Some? || Promise(alts, text, step.next.stack))
  {
    hide Tame, AltBytes, Live, Wins, After, Leads, Exec, Topped, LiveStack, PlainStack, From, Of, Promise, Stacks;
    var c := AltBytes(alts);
    LivePlace(alts, text, st, truth);
    ExecCarries(alts, text, st, truth, room);
    ExecKeepsBest(c, text, room, st);
    var step := Exec(c, text, room, st);
    if step.out != NoMemory {
      StackLive(alts, text, st, truth, step.next);
      PushesPlain(alts, text, st, truth, step.next);
      StacksFrom(c, text, pos, st, truth, step.next);
      if Wins(c, text, st.p, st.d, truth) {
        WinGoesOn(alts, text, room, pos, st, truth);
      } else if Promise(alts, text, st.stack) {
        PromiseGoesOn(alts, text, room, pos, st, truth);
      }
      if step.out == Go {
        Advances(alts, text, st, truth, step.next.p, step.next.d, Of(step.next, After(c, st.p, truth)));
        ToppedOn(alts, text, st, truth, room);
      }
    }
  }

  // ---- the whole course ----

  lemma {:induction false} CourseFinds(alts: Alts, text: Text, room: Room, pos: nat, st: State, truth: set<int>, steps: nat)
    requires Ready(alts, text, pos, st, truth) && Hopes(alts, text, st, truth)
    ensures Settled(Course(AltBytes(alts), text, room, pos, st, steps))
    decreases steps, 2
  {
    hide *;
    var c := AltBytes(alts);
    SettledBy(OutOfMemory);
    SettledBy(OutOfSteps);
    ReadyParts(alts, text, pos, st, truth);
    if steps == 0 {
      CourseOver(c, text, room, pos, st);
    } else if st.p == |c| {
      CourseAtEnd(c, text, room, pos, st, steps);
      Reported(Some(st.d), pos);
      SettledBy(Report(Some(st.d), pos));
      if st.best.Some? {
        Reported(st.best, pos);
        SettledBy(Report(st.best, pos));
        FailFinds(alts, text, room, pos, st, steps - 1);
      }
      BestSound(alts, text, pos, st);
      FailFinds(alts, text, room, pos, st.(best := Some(st.d)), steps - 1);
    } else {
      CourseAtCommand(c, text, room, pos, st, steps);
      ReadyOn(alts, text, room, pos, st, truth);
      var step := Exec(c, text, room, st);
      if step.out == Go {
        CourseFinds(alts, text, room, pos, step.next, After(c, st.p, truth), steps - 1);
      } else if step.out == Failed {
        FailFinds(alts, text, room, pos, step.next, steps - 1);
      }
    }
  }

  lemma SettledBy(r: Result)
    ensures Settled(r) == (r.Matched? || r == OutOfMemory || r == OutOfSteps)
  {
  }

  lemma ReadyParts(alts: Alts, text: Text, pos: nat, st: State, truth: set<int>)
    requires Ready(alts, text, pos, st, truth)
    ensures Sound(alts, text, pos, st) && pos <= st.d && (st.best.Some? ==> pos <= st.best.value)
  {
    hide Tame, LiveStack, PlainStack, Live, Topped;
  }

  lemma BestSound(alts: Alts, text: Text, pos: nat, st: State)
    requires Sound(alts, text, pos, st) && pos <= st.d
    ensures Sound(alts, text, pos, st.(best := Some(st.d)))
  {
    hide Tame, LiveStack, PlainStack;
  }

  lemma {:induction false} FailFinds(alts: Alts, text: Text, room: Room, pos: nat, st: State, steps: nat)
    requires Sound(alts, text, pos, st) && (st.best.Some? || Promise(alts, text, st.stack))
    ensures Settled(FailOn(AltBytes(alts), text, room, pos, st, steps))
    decreases steps, 3
  {
    hide *;
    CourseFails(AltBytes(alts), text, room, pos, st, steps);
    var truth := BackFinds(alts, text, pos, st);
    var back := Back(AltBytes(alts), st);
    if back.Some? {
      BestHopes(alts, text, back.value, truth);
      CourseFinds(alts, text, room, pos, back.value, truth, steps);
    } else {
      SoundBest(alts, text, pos, st);
      Reported(st.best, pos);
      SettledBy(Report(st.best, pos));
    }
  }

  lemma BestHopes(alts: Alts, text: Text, st: State, truth: set<int>)
    ensures st.best.Some? ==> Hopes(alts, text, st, truth)
  {
  }

  lemma SoundBest(alts: Alts, text: Text, pos: nat, st: State)
    requires Sound(alts, text, pos, st)
    ensures st.best.Some? ==> pos <= st.best.value
  {
    hide Tame, LiveStack, PlainStack;
  }

  lemma BeginReady(alts: Alts, text: Text, start: nat)
    requires Tame(alts) && start <= |text|
    ensures Ready(alts, text, start, Begin(start), {})
  {
    hide Tame, AltBytes, Live, Topped, Potential, Budget;
    BeginLive(alts, text, start);
    BeginTopped(alts, text, start);
  }

  lemma BeginTopped(alts: Alts, text: Text, start: nat)
    requires Tame(alts) && start <= |text|
    ensures Topped(alts, text, Begin(start))
  {
    hide Tame, AltBytes, IsAltStart, PutAlts, Heads;
    PutTame(alts);
    AtFirstAlts(alts, 0, AltBytes(alts), 0, Of(Begin(start), {}));
    if Heads(alts, 0) {
      HeadPlaces(alts, 0);
    }
  }

  /** If the program can be ended from a start, the start matches. */
  lemma WinsMatch(alts: Alts, text: Text, room: Room, start: nat, steps: nat)
    requires Tame(alts) && start <= |text| && Wins(AltBytes(alts), text, 0, start, {})
    ensures Settled(Verdict(AltBytes(alts), text, room, start, steps))
  {
    hide Tame, AltBytes, Wins, Ready, Promise, Course, Settled;
    VerdictIs(AltBytes(alts), text, room, start, steps);
    BeginReady(alts, text, start);
    CourseFinds(alts, text, room, start, Begin(start), {}, steps);
  }
}
