/** Groups beyond the last register leave no marks, so a loop around one goes round without end. */
module RegexUnmarked {
  import opened Wrappers
  import opened RegexLanguage
  import opened RegexCode
  import opened RegexCourse

  /** So many empty groups, one after the other. */
  function EmptyGroups(n: nat): Frag {
    if n == 0 then Nothing else Then(EmptyGroups(n - 1), Group(n, 0, Alts(Front.None, Nothing)))
  }

  /** What `()` 255 times and `()*` once are laid out as. */
  const UNMARKED: Alts :=
    Alts(Front.None, Then(EmptyGroups(MAX_REGNUM), Again(Group(MAX_REGNUM + 1, 0, Alts(Front.None, Nothing)), true, true)))

  lemma EmptyGroupBytes(n: nat)
    requires 0 < n <= MAX_REGNUM
    ensures Bytes(EmptyGroups(n)) == Bytes(EmptyGroups(n - 1)) + [START_MEMORY, n, 0, STOP_MEMORY, n, 0]
  {
    assert Bytes(Group(n, 0, Alts(Front.None, Nothing))) == [START_MEMORY, n, 0, STOP_MEMORY, n, 0];
    assert EmptyGroups(n) == Then(EmptyGroups(n - 1), Group(n, 0, Alts(Front.None, Nothing)));
  }

  lemma {:induction false} EmptyGroupsSize(n: nat)
    requires n <= MAX_REGNUM
    ensures |Bytes(EmptyGroups(n))| == 6 * n
  {
    if n > 0 {
      EmptyGroupsSize(n - 1);
      EmptyGroupBytes(n);
      hide Bytes, EmptyGroups;
    }
  }

  /** The marks of group k + 1. */
  lemma {:induction false} GroupAt(n: nat, k: nat)
    requires k < n <= MAX_REGNUM
    ensures 6 * k + 6 <= |Bytes(EmptyGroups(n))| && Bytes(EmptyGroups(n))[6 * k] == START_MEMORY && Bytes(EmptyGroups(n))[6 * k + 3] == STOP_MEMORY
    decreases n
  {
    EmptyGroupsSize(n);
    EmptyGroupsSize(n - 1);
    EmptyGroupBytes(n);
    hide Bytes, EmptyGroups;
    if k < n - 1 {
      GroupAt(n - 1, k);
    }
  }

  lemma UnmarkedLoop()
    ensures Bytes(Group(MAX_REGNUM + 1, 0, Alts(Front.None, Nothing))) == []
    ensures LoopBytes([], true) == Jump(ON_FAILURE_JUMP, 3) + Jump(MAYBE_POP_JUMP, -6)
  {
    hide Jump;
    assert Jump(ON_FAILURE_JUMP, 3) + [] == Jump(ON_FAILURE_JUMP, 3);
  }

  lemma LoopLast(f: Frag, body: Frag)
    ensures AltBytes(Alts(Front.None, Then(f, Again(body, true, true)))) == Bytes(f) + LoopBytes(Bytes(body), true)
  {
    hide LoopBytes, Jump;
    assert Bytes(Again(body, true, true)) == [] + LoopBytes(Bytes(body), true);
  }

  lemma UnmarkedParts()
    ensures AltBytes(UNMARKED) == Bytes(EmptyGroups(MAX_REGNUM)) + (Jump(ON_FAILURE_JUMP, 3) + Jump(MAYBE_POP_JUMP, -6))
  {
    UnmarkedLoop();
    LoopLast(EmptyGroups(MAX_REGNUM), Group(MAX_REGNUM + 1, 0, Alts(Front.None, Nothing)));
    hide AltBytes, Bytes, Jump, LoopBytes, EmptyGroups;
  }

  lemma LoopAt(c: Code, m: nat, bs: Code)
    requires |bs| == m && c == bs + (Jump(ON_FAILURE_JUMP, 3) + Jump(MAYBE_POP_JUMP, -6))
    ensures |c| == m + 6 && c[m] == ON_FAILURE_JUMP && Number(c, m + 1) == 3 && c[m + 3] == MAYBE_POP_JUMP && Number(c, m + 4) == -6
    ensures forall i :: 0 <= i < m ==> c[i] == bs[i]
  {
    var loop := Jump(ON_FAILURE_JUMP, 3) + Jump(MAYBE_POP_JUMP, -6);
    assert c[m..m + |loop|] == loop;
    AtParts(c, m, Jump(ON_FAILURE_JUMP, 3), Jump(MAYBE_POP_JUMP, -6));
    AtJump(c, m, ON_FAILURE_JUMP, 3);
    AtJump(c, m + 3, MAYBE_POP_JUMP, -6);
  }

  lemma UnmarkedBytes()
    ensures var c, m := AltBytes(UNMARKED), 6 * MAX_REGNUM;
      && |c| == m + 6 && c[m] == ON_FAILURE_JUMP && Number(c, m + 1) == 3 && c[m + 3] == MAYBE_POP_JUMP && Number(c, m + 4) == -6
  {
    hide AltBytes, Bytes, EmptyGroups, Jump, Number;
    UnmarkedParts();
    EmptyGroupsSize(MAX_REGNUM);
    LoopAt(AltBytes(UNMARKED), 6 * MAX_REGNUM, Bytes(EmptyGroups(MAX_REGNUM)));
  }

  /** Round the loop the failure point is pushed and popped, and nothing else changes. */
  lemma {:induction false} RoundAndRound(text: Text, room: Room, pos: nat, st: State, steps: nat)
    requires st.p == 6 * MAX_REGNUM && st.stack == [] && room([])
    ensures Course(AltBytes(UNMARKED), text, room, pos, st, steps) == OutOfSteps
    decreases steps
  {
    hide AltBytes, Span;
    UnmarkedBytes();
    var c := AltBytes(UNMARKED);
    if steps > 1 {
      var st1 := Exec(c, text, room, st).next;
      assert st1.p == st.p + 3 && |st1.stack| == 1;
      assert Exec(c, text, room, st1).next == st1.(p := st.p, stack := []);
      RoundAndRound(text, room, pos, st1.(p := st.p, stack := []), steps - 2);
    }
  }

  lemma GroupBytes(k: nat)
    requires k < MAX_REGNUM
    ensures var c, p := AltBytes(UNMARKED), 6 * k;
      && |c| == 6 * MAX_REGNUM + 6 && c[p] == START_MEMORY && c[p + 3] == STOP_MEMORY
      && (Peek(c, p + 6) == START_MEMORY || Peek(c, p + 6) == ON_FAILURE_JUMP)
  {
    hide AltBytes, Bytes, EmptyGroups, Jump, Number;
    UnmarkedBytes();
    UnmarkedParts();
    EmptyGroupsSize(MAX_REGNUM);
    LoopAt(AltBytes(UNMARKED), 6 * MAX_REGNUM, Bytes(EmptyGroups(MAX_REGNUM)));
    GroupAt(MAX_REGNUM, k);
    if k + 1 < MAX_REGNUM {
      GroupAt(MAX_REGNUM, k + 1);
    }
  }

  /** The two marks of a group. */
  lemma ThroughOne(text: Text, room: Room, st: State, k: nat)
    requires k < MAX_REGNUM && st.p == 6 * k && st.stack == []
    ensures var c := AltBytes(UNMARKED);
      var step := Exec(c, text, room, st);
      var next := Exec(c, text, room, step.next);
      && st.p != |c| && step.out == Go && step.next.p != |c|
      && next.out == Go && next.next.p == 6 * (k + 1) && next.next.stack == []
  {
    hide AltBytes, Highest;
    GroupBytes(k);
  }

  lemma {:induction false} ThroughTheGroups(text: Text, room: Room, pos: nat, st: State, k: nat, steps: nat)
    requires k <= MAX_REGNUM && st.p == 6 * k && st.stack == [] && room([])
    ensures Course(AltBytes(UNMARKED), text, room, pos, st, steps) == OutOfSteps
    decreases MAX_REGNUM - k
  {
    hide *;
    if k == MAX_REGNUM {
      RoundAndRound(text, room, pos, st, steps);
    } else if steps == 0 {
      CourseOver(AltBytes(UNMARKED), text, room, pos, st);
    } else {
      var c := AltBytes(UNMARKED);
      ThroughOne(text, room, st, k);
      CourseAtCommand(c, text, room, pos, st, steps);
      var st1 := Exec(c, text, room, st).next;
      if steps == 1 {
        CourseOver(c, text, room, pos, st1);
      } else {
        CourseAtCommand(c, text, room, pos, st1, steps - 1);
        ThroughTheGroups(text, room, pos, Exec(c, text, room, st1).next, k + 1, steps - 2);
      }
    }
  }

  /** With 256 groups, the last of them empty and in a loop, no number of steps is enough. */
  lemma UnmarkedLoopNeverEnds(text: Text, room: Room, start: nat, steps: nat)
    requires start <= |text| && room([])
    ensures Verdict(AltBytes(UNMARKED), text, room, start, steps) == OutOfSteps
  {
    hide AltBytes, Course;
    ThroughTheGroups(text, room, start, Begin(start), 0, steps);
  }
}
