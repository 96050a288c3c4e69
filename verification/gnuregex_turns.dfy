/** What the matcher searches: from place to place of the program and the string, with no failure
    stack and no registers, but with the way out of a loop whose group has matched nothing. */
module RegexTurns {
  import opened Wrappers
  import opened RegexLanguage
  import opened RegexCode
  import opened RegexCourse
  import opened RegexInstructions
  import opened RegexMeaning
  import opened RegexPlaces
  import opened RegexTidy
  import opened RegexHalts
  import opened RegexBudget
  import opened RegexTops

  /** The end of a group at p leaves the group's loop: the group has matched nothing, or the byte two
      places before looks like `start_memory`. */
  predicate GetsOut(c: Code, p: int, truth: set<int>) {
    (Peek(c, p + 1) as int !in truth || Peek(c, p - 2) == START_MEMORY) && Exits(c, p)
  }

  /** From p and d, with the groups of truth having matched something, control may turn to q and e. */
  ghost predicate Turn(c: Code, text: Text, p: nat, d: nat, truth: set<int>, q: nat, e: nat) {
    var op := Peek(c, p);
    if op == EXACTN then
      var n := Peek(c, p + 1);
      e == d + n && e <= |text| && q == p + 2 + n && q <= |c| && text[d..e] == c[p + 2..q]
    else if op == ANYCHAR then d < |text| && text[d] != 0 && e == d + 1 && q == p + 1
    else
      && e == d
      && if op == START_MEMORY then q == p + 3
         else if op == STOP_MEMORY then q == if GetsOut(c, p, truth) then p + 6 else p + 3
         else if op == ON_FAILURE_JUMP then q == p + 3 || q == JumpsTo(c, p)
         else if op == PUSH_DUMMY_FAILURE then q == p + 1
         else q == JumpsTo(c, p)
  }

  ghost predicate WinsIn(c: Code, text: Text, p: nat, d: nat, truth: set<int>, n: nat)
    decreases n
  {
    p == |c| || (n > 0 && exists q: nat, e: nat :: Turn(c, text, p, d, truth, q, e) && WinsIn(c, text, q, e, After(c, p, truth), n - 1))
  }

  /** The end of the program can be reached. */
  ghost predicate Wins(c: Code, text: Text, p: nat, d: nat, truth: set<int>) {
    exists n: nat :: WinsIn(c, text, p, d, truth, n)
  }

  lemma EndWins(c: Code, text: Text, d: nat, truth: set<int>)
    ensures Wins(c, text, |c|, d, truth)
  {
    assert WinsIn(c, text, |c|, d, truth, 0);
  }

  lemma TurnWins(c: Code, text: Text, p: nat, d: nat, truth: set<int>, q: nat, e: nat)
    requires Turn(c, text, p, d, truth, q, e) && Wins(c, text, q, e, After(c, p, truth))
    ensures Wins(c, text, p, d, truth)
  {
    hide Turn, After;
    var n: nat :| WinsIn(c, text, q, e, After(c, p, truth), n);
    assert WinsIn(c, text, p, d, truth, n + 1);
  }

  lemma WinsTurn(c: Code, text: Text, p: nat, d: nat, truth: set<int>) returns (q: nat, e: nat)
    requires Wins(c, text, p, d, truth) && p != |c|
    ensures Turn(c, text, p, d, truth, q, e) && Wins(c, text, q, e, After(c, p, truth))
  {
    hide Turn, After;
    var n: nat :| WinsIn(c, text, p, d, truth, n);
    q, e :| Turn(c, text, p, d, truth, q, e) && WinsIn(c, text, q, e, After(c, p, truth), n - 1);
  }

  // ---- the matcher takes every turn, now or later ----

  ghost predicate Taken(st: State, step: Step, q: nat, e: nat) {
    || (step.out == Go && step.next.p == q && step.next.d == e)
    || (|step.next.stack| == |st.stack| + 1 && step.next.stack[|st.stack|].pattern == Some(q) && step.next.stack[|st.stack|].str == Some(e))
  }

  lemma PlainTaken(c: Code, text: Text, st: State, truth: set<int>, room: Room, q: nat, e: nat)
    requires Fits(c, st.p) && c[st.p] != STOP_MEMORY && Turn(c, text, st.p, st.d, truth, q, e)
    ensures Exec(c, text, room, st).out != NoMemory ==> Taken(st, Exec(c, text, room, st), q, e)
  {
    hide Pops, SetMatched, Span;
  }

  lemma StopTaken(alts: Alts, text: Text, st: State, truth: set<int>, room: Room, q: nat)
    requires Laid(alts) && IsAltStart(alts, st.p) && Peek(AltBytes(alts), st.p) == STOP_MEMORY && Turn(AltBytes(alts), text, st.p, st.d, truth, q, st.d)
    requires HeldReg(Of(st, truth), Peek(AltBytes(alts), st.p + 1))
    ensures var step := ExecStop(AltBytes(alts), room, st); step.out != NoMemory ==> Taken(st, step, q, st.d)
  {
    hide IsAltStart, AltBytes, WellFormedAlts, Highest, LoopExit, Span;
    var c := AltBytes(alts);
    StartsInside(alts, st.p);
    if Exits(c, st.p) {
      ExitBehind(alts, st.p, Peek(c, st.p + 1));
    }
  }

  /** The group that ends at a place is rightly noted. */
  lemma StopHeld(alts: Alts, text: Text, st: State, truth: set<int>)
    requires Tame(alts) && Live(alts, text, st.p, st.d, Of(st, truth)) && Peek(AltBytes(alts), st.p) == STOP_MEMORY
    ensures HeldReg(Of(st, truth), Peek(AltBytes(alts), st.p + 1))
  {
    hide IsAltStart, AltBytes, PutAlts, HereAlts, HeldReg, LoopExit, TidyAlts, GroupsAlts, GoesAlts;
    var c, a := AltBytes(alts), Of(st, truth);
    var reg := Peek(c, st.p + 1);
    PutTame(alts);
    HereAltsIs(alts, 0, st.p, a);
    var q := st.p + 3;
    if Exits(c, st.p) {
      ExitBehind(alts, st.p, reg);
      q := st.p + 6;
    }
    GoAlts(alts, 0, c, 0, st.p, a, q, Ended(a, reg));
  }

  lemma TurnTaken(alts: Alts, text: Text, st: State, truth: set<int>, room: Room, q: nat, e: nat)
    requires Tame(alts) && Live(alts, text, st.p, st.d, Of(st, truth)) && st.p != |AltBytes(alts)| && Turn(AltBytes(alts), text, st.p, st.d, truth, q, e)
    ensures var step := Exec(AltBytes(alts), text, room, st); step.out != NoMemory ==> Taken(st, step, q, e)
  {
    hide IsAltStart, AltBytes, Live, HeldReg, Taken, GetsOut, TidyAlts, GroupsAlts, ExecStop, ExecExact, ExecAny, ExecStart, ExecFailureJump, ExecJump, ExecDummy, Pops;
    LivePlace(alts, text, st, truth);
    StartsInside(alts, st.p);
    if Peek(AltBytes(alts), st.p) == STOP_MEMORY {
      StopHeld(alts, text, st, truth);
      StopTaken(alts, text, st, truth, room, q);
    } else {
      PlainTaken(AltBytes(alts), text, st, truth, room, q, e);
    }
  }

  // ---- what is taken off the stack ----

  /** Through group marks to the end of the program. */
  lemma {:induction false} MarksToEnd(c: Code, text: Text, q: nat, d: nat, truth: set<int>)
    requires q <= |c| && PastMarks(c, q) == |c|
    ensures Wins(c, text, q, d, truth)
    decreases |c| - q
  {
    hide Wins, Number;
    if q == |c| {
      EndWins(c, text, d, truth);
    } else {
      MarksToEnd(c, text, q + 3, d, After(c, q, truth));
      TurnWins(c, text, q, d, truth, q + 3, d);
    }
  }

  /** Through group marks to characters. */
  lemma {:induction false} MarksToExact(c: Code, text: Text, q: nat, d: nat, truth: set<int>)
    requires q <= |c| && PastMarks(c, q) < |c| && Fits(c, PastMarks(c, q)) && c[PastMarks(c, q)] == EXACTN
    requires Wins(c, text, q, d, truth)
    ensures d < |text| && text[d] == Peek(c, PastMarks(c, q) + 2)
    decreases |c| - q
  {
    hide Wins, Number;
    var q', e := WinsTurn(c, text, q, d, truth);
    if c[q] == EXACTN {
      assert text[d..e][0] == text[d] && c[q + 2..q'][0] == c[q + 2];
    } else {
      assert q' == q + 3;
      MarksToExact(c, text, q + 3, d, After(c, q, truth));
    }
  }
}
