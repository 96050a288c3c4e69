/** What the matcher and the search say, exactly: a start matches if and only if a string that the
    pattern takes begins there. */
module RegexDecides {
  import opened Wrappers
  import opened RegexLanguage
  import opened RegexCode
  import opened RegexCourse
  import opened RegexMeaning
  import opened RegexPlaces
  import opened RegexTidy
  import opened RegexHalts
  import opened RegexBudget
  import opened RegexTurns
  import opened RegexFinds
  import opened RegexTakes
  import opened RegexWins
  import opened RegexEnds

  // ---- the matcher takes no way that the search does not ----

  ghost predicate Turned(c: Code, text: Text, st: State, truth: set<int>, step: Step) {
    && (step.out == Go ==> Turn(c, text, st.p, st.d, truth, step.next.p, step.next.d))
    && (step.out != NoMemory && |step.next.stack| == |st.stack| + 1 ==>
         var f := step.next.stack[|st.stack|];
         f.pattern.Some? ==> f.str.Some? && Turn(c, text, st.p, st.d, truth, f.pattern.value, f.str.value))
  }

  lemma PlainTurned(c: Code, text: Text, st: State, truth: set<int>, room: Room)
    requires Fits(c, st.p) && c[st.p] != STOP_MEMORY
    ensures Turned(c, text, st, truth, Exec(c, text, room, st))
  {
    hide Pops, SetMatched, Span;
  }

  lemma StopTurned(alts: Alts, text: Text, st: State, truth: set<int>, room: Room)
    requires Laid(alts) && IsAltStart(alts, st.p) && Peek(AltBytes(alts), st.p) == STOP_MEMORY
    requires HeldReg(Of(st, truth), Peek(AltBytes(alts), st.p + 1))
    ensures Turned(AltBytes(alts), text, st, truth, ExecStop(AltBytes(alts), room, st))
  {
    hide IsAltStart, AltBytes, WellFormedAlts, Highest, LoopExit, Span;
    var c := AltBytes(alts);
    StartsInside(alts, st.p);
    if Exits(c, st.p) {
      ExitBehind(alts, st.p, Peek(c, st.p + 1));
    }
  }

  lemma ExecTurned(alts: Alts, text: Text, st: State, truth: set<int>, room: Room)
    requires Tame(alts) && Live(alts, text, st.p, st.d, Of(st, truth)) && st.p != |AltBytes(alts)|
    ensures Turned(AltBytes(alts), text, st, truth, Exec(AltBytes(alts), text, room, st))
  {
    hide IsAltStart, AltBytes, Live, HeldReg, Turned, TidyAlts, GroupsAlts, ExecStop, ExecExact, ExecAny, ExecStart, ExecFailureJump, ExecJump, ExecDummy, Pops;
    LivePlace(alts, text, st, truth);
    StartsInside(alts, st.p);
    if Peek(AltBytes(alts), st.p) == STOP_MEMORY {
      StopHeld(alts, text, st, truth);
      StopTurned(alts, text, st, truth, room);
    } else {
      PlainTurned(AltBytes(alts), text, st, truth, room);
    }
  }

  // ---- what the matcher reports can be reached by turns ----

  ghost predicate Ends(c: Code, text: Text, p: nat, d: nat, truth: set<int>, e: nat) {
    exists k: nat :: EndsIn(c, text, p, d, truth, e, k)
  }

  /** What can be reached from p and d can be reached from the start. */
  ghost predicate Sure(c: Code, text: Text, start: nat, p: nat, d: nat, truth: set<int>) {
    forall e: nat {:trigger Ends(c, text, p, d, truth, e)} :: Ends(c, text, p, d, truth, e) ==> Ends(c, text, 0, start, {}, e)
  }

  lemma SureTurn(c: Code, text: Text, start: nat, p: nat, d: nat, truth: set<int>, q: nat, x: nat)
    requires Sure(c, text, start, p, d, truth) && p != |c| && Turn(c, text, p, d, truth, q, x)
    ensures Sure(c, text, start, q, x, After(c, p, truth))
  {
    hide Turn, After;
    var truth' := After(c, p, truth);
    forall e: nat {:trigger Ends(c, text, q, x, truth', e)} | Ends(c, text, q, x, truth', e)
      ensures Ends(c, text, 0, start, {}, e)
    {
      var k: nat :| EndsIn(c, text, q, x, truth', e, k);
      assert EndsIn(c, text, p, d, truth, e, k + 1);
      assert Ends(c, text, p, d, truth, e);
    }
  }

  lemma SureEnd(c: Code, text: Text, start: nat, d: nat, truth: set<int>)
    requires Sure(c, text, start, |c|, d, truth)
    ensures Ends(c, text, 0, start, {}, d)
  {
    assert EndsIn(c, text, |c|, d, truth, d, 0);
    assert Ends(c, text, |c|, d, truth, d);
  }

  ghost predicate SurePoint(alts: Alts, text: Text, start: nat, f: FailurePoint) {
    f.pattern.Some? ==> f.str.Some? && exists truth ::
      Live(alts, text, f.pattern.value, f.str.value, Act(f.low, f.high, f.saved, truth)) && Sure(AltBytes(alts), text, start, f.pattern.value, f.str.value, truth)
  }

  /** What is on the failure stack, and the best match so far, can be reached from the start. */
  ghost predicate Kept(alts: Alts, text: Text, start: nat, st: State) {
    && Tame(alts) && LiveStack(alts, text, st.stack)
    && (forall f | f in st.stack :: SurePoint(alts, text, start, f))
    && (st.best.Some? ==> Ends(AltBytes(alts), text, 0, start, {}, st.best.value))
  }

  ghost predicate SureState(alts: Alts, text: Text, start: nat, st: State, truth: set<int>) {
    Kept(alts, text, start, st) && Live(alts, text, st.p, st.d, Of(st, truth)) && Sure(AltBytes(alts), text, start, st.p, st.d, truth)
  }

  lemma PointSure(alts: Alts, text: Text, start: nat, st: State, truth: set<int>, next: State, f: FailurePoint)
    requires Tame(alts) && Live(alts, text, st.p, st.d, Of(st, truth)) && st.p != |AltBytes(alts)| && PushedLast(AltBytes(alts), text, st, truth, next, f)
    requires Sure(AltBytes(alts), text, start, st.p, st.d, truth)
    requires f.pattern.Some? ==> f.str.Some? && Turn(AltBytes(alts), text, st.p, st.d, truth, f.pattern.value, f.str.value)
    ensures SurePoint(alts, text, start, f)
  {
    hide Tame, Live, Cost, Steps, AltBytes, Sure, Turn;
    if f.pattern.Some? {
      var truth' := After(AltBytes(alts), st.p, truth);
      Advances(alts, text, st, truth, f.pattern.value, f.str.value, Of(next, truth'));
      LiveSame(alts, text, f.pattern.value, f.str.value, Of(next, truth'), Act(f.low, f.high, f.saved, truth'));
      SureTurn(AltBytes(alts), text, start, st.p, st.d, truth, f.pattern.value, f.str.value);
    }
  }

  lemma SureOn(alts: Alts, text: Text, room: Room, start: nat, st: State, truth: set<int>)
    requires SureState(alts, text, start, st, truth) && st.p != |AltBytes(alts)|
    ensures var step := Exec(AltBytes(alts), text, room, st);
      && (step.out != NoMemory ==> Kept(alts, text, start, step.next))
      && (step.out == Go ==> SureState(alts, text, start, step.next, After(AltBytes(alts), st.p, truth)))
  {
    hide Tame, AltBytes, Live, Turn, After, Leads, Exec, LiveStack, Of, SurePoint, Sure, PushedLast, Ends;
    var c := AltBytes(alts);
    LivePlace(alts, text, st, truth);
    ExecCarries(alts, text, st, truth, room);
    ExecKeepsBest(c, text, room, st);
    ExecTurned(alts, text, st, truth, room);
    var step := Exec(c, text, room, st);
    if step.out != NoMemory {
      StackLive(alts, text, st, truth, step.next);
      if |step.next.stack| == |st.stack| + 1 {
        var f := step.next.stack[|st.stack|];
        PointSure(alts, text, start, st, truth, step.next, f);
        assert step.next.stack == st.stack + [f];
      }
      if step.out == Go {
        Advances(alts, text, st, truth, step.next.p, step.next.d, Of(step.next, After(c, st.p, truth)));
        SureTurn(c, text, start, st.p, st.d, truth, step.next.p, step.next.d);
      }
    }
  }

  lemma {:induction false} BackSure(alts: Alts, text: Text, start: nat, st: State) returns (truth: set<int>)
    requires Kept(alts, text, start, st)
    ensures var back := Back(AltBytes(alts), st);
      back.Some? ==> back.value.best == st.best && SureState(alts, text, start, back.value, truth)
    decreases |st.stack|
  {
    hide Tame, AltBytes, Live, Back, JumpsBack, Sure, SurePoint, Ends, LivePoint;
    truth := {};
    if st.stack == [] {
      BackEnd(AltBytes(alts), st);
    } else {
      var n := |st.stack| - 1;
      var f := st.stack[n];
      BackStep(AltBytes(alts), st);
      var t := State(if f.pattern.Some? then f.pattern.value else st.p, if f.str.Some? then f.str.value else st.d, st.stack[..n],
        f.low, f.high, st.regs + f.saved, st.best);
      assert f in st.stack && LivePoint(alts, text, f) && SurePoint(alts, text, start, f);
      var further := BackSure(alts, text, start, t);
      if f.pattern.Some? && !(f.pattern.value < |AltBytes(alts)| && JumpsBack(AltBytes(alts), f.pattern.value)) {
        truth := PointBack(alts, text, start, f, t);
      } else {
        truth := further;
      }
    }
  }

  lemma PointBack(alts: Alts, text: Text, start: nat, f: FailurePoint, t: State) returns (truth: set<int>)
    requires LivePoint(alts, text, f) && SurePoint(alts, text, start, f) && f.pattern.Some?
    requires f.str.Some? ==> t.p == f.pattern.value && t.d == f.str.value && t.low == f.low && t.high == f.high && exists regs: Registers :: t.regs == regs + f.saved
    ensures f.str.Some? && Live(alts, text, t.p, t.d, Of(t, truth)) && Sure(AltBytes(alts), text, start, t.p, t.d, truth)
  {
    hide Live, Sure, AltBytes, Cost;
    truth :| Live(alts, text, f.pattern.value, f.str.value, Act(f.low, f.high, f.saved, truth)) && Sure(AltBytes(alts), text, start, f.pattern.value, f.str.value, truth);
    LiveSame(alts, text, t.p, t.d, Act(f.low, f.high, f.saved, truth), Of(t, truth));
  }

  ghost predicate Reached(c: Code, text: Text, start: nat, r: Result) {
    r.Matched? ==> Ends(c, text, 0, start, {}, start + r.length)
  }

  lemma ReportReached(c: Code, text: Text, start: nat, best: Option<nat>)
    requires best.Some? ==> Ends(c, text, 0, start, {}, best.value)
    ensures Reached(c, text, start, Report(best, start))
  {
    hide Ends;
  }

  lemma NoMatchReached(c: Code, text: Text, start: nat, r: Result)
    requires !r.Matched?
    ensures Reached(c, text, start, r)
  {
  }

  lemma {:induction false} CourseSure(alts: Alts, text: Text, room: Room, start: nat, st: State, truth: set<int>, steps: nat)
    requires SureState(alts, text, start, st, truth)
    ensures Reached(AltBytes(alts), text, start, Course(AltBytes(alts), text, room, start, st, steps))
    decreases steps, 2
  {
    hide *;
    var c := AltBytes(alts);
    NoMatchReached(c, text, start, OutOfSteps);
    NoMatchReached(c, text, start, OutOfMemory);
    SureParts(alts, text, start, st, truth);
    if steps == 0 {
      CourseOver(c, text, room, start, st);
    } else if st.p == |c| {
      CourseAtEnd(c, text, room, start, st, steps);
      SureEnd(c, text, start, st.d, truth);
      ReportReached(c, text, start, Some(st.d));
      ReportReached(c, text, start, st.best);
      KeptBest(alts, text, start, st);
      FailSure(alts, text, room, start, st, steps - 1);
      FailSure(alts, text, room, start, st.(best := Some(st.d)), steps - 1);
    } else {
      CourseAtCommand(c, text, room, start, st, steps);
      SureOn(alts, text, room, start, st, truth);
      var step := Exec(c, text, room, st);
      if step.out == Go {
        CourseSure(alts, text, room, start, step.next, After(c, st.p, truth), steps - 1);
      } else if step.out == Failed {
        FailSure(alts, text, room, start, step.next, steps - 1);
      }
    }
  }

  lemma SureParts(alts: Alts, text: Text, start: nat, st: State, truth: set<int>)
    requires SureState(alts, text, start, st, truth)
    ensures Kept(alts, text, start, st) && Sure(AltBytes(alts), text, start, st.p, st.d, truth)
    ensures st.best.Some? ==> Ends(AltBytes(alts), text, 0, start, {}, st.best.value)
  {
    hide Tame, LiveStack, Live, Sure, Ends, SurePoint;
  }

  lemma KeptBest(alts: Alts, text: Text, start: nat, st: State)
    requires Kept(alts, text, start, st) && Ends(AltBytes(alts), text, 0, start, {}, st.d)
    ensures Kept(alts, text, start, st.(best := Some(st.d)))
  {
    hide Tame, LiveStack, Ends, SurePoint;
  }

  lemma {:induction false} FailSure(alts: Alts, text: Text, room: Room, start: nat, st: State, steps: nat)
    requires Kept(alts, text, start, st)
    ensures Reached(AltBytes(alts), text, start, FailOn(AltBytes(alts), text, room, start, st, steps))
    decreases steps, 3
  {
    hide *;
    var c := AltBytes(alts);
    CourseFails(c, text, room, start, st, steps);
    var truth := BackSure(alts, text, start, st);
    KeptReached(alts, text, start, st);
    if Back(c, st).Some? {
      CourseSure(alts, text, room, start, Back(c, st).value, truth, steps);
    }
  }

  lemma KeptReached(alts: Alts, text: Text, start: nat, st: State)
    requires Kept(alts, text, start, st)
    ensures Reached(AltBytes(alts), text, start, Report(st.best, start))
  {
    hide Tame, LiveStack, Ends, SurePoint, Report, Reached;
    ReportReached(AltBytes(alts), text, start, st.best);
  }

  // ---- the matcher ----

  /** A length that is given is that of a string that the pattern takes. */
  lemma MatchIsTaken(alts: Alts, text: Text, room: Room, start: int, steps: nat)
    requires Tame(alts)
    ensures var v := Verdict(AltBytes(alts), text, room, start, steps);
      v.Matched? ==> 0 <= start && start + v.length <= |text| && Denotes(TakesAlts(alts), text[start..start + v.length])
  {
    hide *;
    var c := AltBytes(alts);
    VerdictIs(c, text, room, start, steps);
    if 0 <= start <= |text| {
      BeginSure(alts, text, start);
      CourseSure(alts, text, room, start, Begin(start), {}, steps);
      var v := Verdict(c, text, room, start, steps);
      if v.Matched? {
        ReachedEnds(c, text, start, v);
        EndsAreTaken(alts, text, start, start + v.length);
      }
    }
  }

  lemma ReachedEnds(c: Code, text: Text, start: nat, r: Result)
    requires Reached(c, text, start, r) && r.Matched?
    ensures Ends(c, text, 0, start, {}, start + r.length)
  {
  }

  lemma BeginSure(alts: Alts, text: Text, start: nat)
    requires Tame(alts) && start <= |text|
    ensures SureState(alts, text, start, Begin(start), {})
  {
    hide Tame, AltBytes, Live, Potential, Budget, Ends;
    BeginLive(alts, text, start);
  }

  lemma EndsAreTaken(alts: Alts, text: Text, start: nat, e: nat)
    requires Tame(alts) && start <= |text| && Ends(AltBytes(alts), text, 0, start, {}, e)
    ensures start <= e <= |text| && Denotes(TakesAlts(alts), text[start..e])
  {
    hide Tame, AltBytes, TakesAlts, Denotes, Turn, PutAlts;
    var c := AltBytes(alts);
    var k: nat :| EndsIn(c, text, 0, start, {}, e, k);
    PutTame(alts);
    var w := AltsEnd(alts, 0, c, 0, text, Way(start, {}, k), e);
    assert w.d == e;
  }

  /** Where the pattern takes a string, there is a match, unless memory or steps run out. */
  lemma TakenMatches(alts: Alts, text: Text, room: Room, start: nat, e: nat, steps: nat)
    requires Tame(alts) && start <= e <= |text| && Denotes(TakesAlts(alts), text[start..e])
    ensures Settled(Verdict(AltBytes(alts), text, room, start, steps))
  {
    hide Tame, AltBytes, TakesAlts, Denotes, Wins, PutAlts;
    var c := AltBytes(alts);
    PutTame(alts);
    forall t {:trigger Wins(c, text, |c|, e, t)} | Outer(0, start < e, {}, t)
      ensures Wins(c, text, |c|, e, t)
    {
      EndWins(c, text, e, t);
    }
    OnwardFrom(c, text, |c|, e, 0, start < e, {});
    AltsWin(alts, 0, c, 0, text, start, e, {});
    WinsMatch(alts, text, room, start, steps);
  }

  lemma BeginsFrom(r: Regex, text: Text, start: int, n: nat)
    requires 0 <= start && start + n <= |text| && Denotes(r, text[start..start + n])
    ensures BeginsAt(r, text, start)
  {
    assert Prefix(text, start, n) == text[start..start + n];
  }

  /** With enough steps and memory, a start matches if and only if a string that the pattern takes
      begins there. */
  lemma MatchesWhatItTakes(alts: Alts, text: Text, room: Room, start: int, steps: nat)
    requires Tame(alts) && Budget(alts, text) <= steps && forall stack :: room(stack)
    ensures var v := Verdict(AltBytes(alts), text, room, start, steps);
      if BeginsAt(TakesAlts(alts), text, start) then v.Matched? else v == Mismatch
  {
    hide Tame, AltBytes, TakesAlts, Denotes, Budget, Verdict;
    VerdictDecides(alts, text, room, start, steps);
    MatchIsTaken(alts, text, room, start, steps);
    var v := Verdict(AltBytes(alts), text, room, start, steps);
    if v.Matched? {
      BeginsFrom(TakesAlts(alts), text, start, v.length);
    }
    if BeginsAt(TakesAlts(alts), text, start) {
      var n: nat :| start + n <= |text| && Denotes(TakesAlts(alts), Prefix(text, start, n));
      TakenMatches(alts, text, room, start, start + n, steps);
    }
  }

  /** If no loop is around a group with a disturbed end, the pattern takes what it denotes. */
  lemma MatchesWhatItMeans(alts: Alts, text: Text, room: Room, start: int, steps: nat)
    requires Tame(alts) && CalmAlts(alts) && Budget(alts, text) <= steps && forall stack :: room(stack)
    ensures var v := Verdict(AltBytes(alts), text, room, start, steps);
      if BeginsAt(MeansAlts(alts), text, start) then v.Matched? else v == Mismatch
  {
    hide *;
    CalmTakesAlts(alts);
    MatchesWhatItTakes(alts, text, room, start, steps);
  }
}
