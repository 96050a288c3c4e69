/** The matcher goes on in search of the longest match, but a longer one that it finds last is given up
    for an earlier one. */
module RegexLongest {
  import opened Wrappers
  import opened RegexLanguage
  import opened RegexCode
  import opened RegexCourse

  /** `a|ab` */
  const SHORT_FIRST: Alts := Alts(More(Front.None, Then(Nothing, Exact([97]))), Then(Nothing, Exact([97, 98])))
  /** `abc` */
  const ABC: Text := [97, 98, 99]

  lemma ShortFirstBytes()
    ensures AltBytes(SHORT_FIRST) == [ON_FAILURE_JUMP, 6, 0, EXACTN, 1, 97, JUMP_PAST_ALT, 4, 0, EXACTN, 2, 97, 98]
  {
    var a, b := Then(Nothing, Exact([97])), Then(Nothing, Exact([97, 98]));
    assert Bytes(a) == [EXACTN, 1, 97] && Bytes(b) == [EXACTN, 2, 97, 98];
    assert FrontBytes(More(Front.None, a)) == Jump(ON_FAILURE_JUMP, 6) + [EXACTN, 1, 97];
    assert Jump(ON_FAILURE_JUMP, 6) == [ON_FAILURE_JUMP, 6, 0] && Jump(JUMP_PAST_ALT, 4) == [JUMP_PAST_ALT, 4, 0];
  }

  /** Two commands and a jump through the first alternative, with the way to the second one kept. */
  lemma FirstWay(room: Room, st: State)
    requires room([]) && st == Begin(0)
    ensures var c := AltBytes(SHORT_FIRST);
      var one := Exec(c, ABC, room, st);
      var two := Exec(c, ABC, room, one.next);
      var three := Exec(c, ABC, room, two.next);
      && |c| == 13 && one.out == two.out == three.out == Go && one.next.p == 3 && two.next.p == 6 && three.next.p == 13 && three.next.d == 1
      && |three.next.stack| == 1 && three.next.stack[0].pattern == Some(9) && three.next.stack[0].str == Some(0) && three.next.best.None?
  {
    ShortFirstBytes();
    hide AltBytes, Span, SetMatched;
    assert ABC[0..1] == [97];
  }

  /** The second alternative. */
  lemma SecondWay(room: Room, st: State)
    requires |st.stack| == 1 && st.stack[0].pattern == Some(9) && st.stack[0].str == Some(0)
    ensures var c := AltBytes(SHORT_FIRST);
      var back := Back(c, st);
      && back.Some? && back.value.p == 9 && back.value.stack == [] && back.value.best == st.best
      && var step := Exec(c, ABC, room, back.value);
         step.out == Go && step.next.p == |c| == 13 && step.next.d == 2 && step.next.stack == [] && step.next.best == st.best
  {
    ShortFirstBytes();
    hide AltBytes, Span, SetMatched;
    assert ABC[0..2] == [97, 98];
  }

  /** `a|ab` matches only the first character of `abc`, although it denotes the first two. */
  lemma ShorterMatchIsReported(room: Room, steps: nat)
    requires room([]) && steps >= 6
    ensures Verdict(AltBytes(SHORT_FIRST), ABC, room, 0, steps) == Matched(1)
    ensures Denotes(MeansAlts(SHORT_FIRST), ABC[..2])
  {
    LongerIsDenoted();
    hide AltBytes, Exec, Course, FailOn, Back, MeansAlts, Denotes;
    var c, st := AltBytes(SHORT_FIRST), Begin(0);
    FirstWay(room, st);
    CourseAtCommand(c, ABC, room, 0, st, steps);
    var one := Exec(c, ABC, room, st).next;
    CourseAtCommand(c, ABC, room, 0, one, steps - 1);
    var two := Exec(c, ABC, room, one).next;
    CourseAtCommand(c, ABC, room, 0, two, steps - 2);
    var three := Exec(c, ABC, room, two).next;
    CourseAtEnd(c, ABC, room, 0, three, steps - 3);
    var saved := three.(best := Some(1));
    SecondWay(room, saved);
    CourseFails(c, ABC, room, 0, saved, steps - 4);
    var back := Back(c, saved).value;
    CourseAtCommand(c, ABC, room, 0, back, steps - 4);
    CourseAtEnd(c, ABC, room, 0, Exec(c, ABC, room, back).next, steps - 5);
    VerdictIs(c, ABC, room, 0, steps);
  }

  lemma LongerIsDenoted()
    ensures Denotes(MeansAlts(SHORT_FIRST), ABC[..2])
  {
    var ab := Word([97, 98]);
    assert Means(Then(Nothing, Exact([97, 98]))) == Cat(Empty, ab);
    assert ABC[..2] == [97, 98] && [] + [97, 98] == [97, 98];
    WordDenotes([97, 98], [97, 98]);
    hide Denotes, Word;
    EmptyDenotes();
    CatOf(Empty, ab, [], [97, 98]);
    OrRight(Means(Then(Nothing, Exact([97]))), Cat(Empty, ab), [97, 98]);
  }

  lemma EmptyDenotes()
    ensures Denotes(Empty, [])
  {
  }

  lemma OrRight(a: Regex, b: Regex, w: Text)
    requires Denotes(b, w)
    ensures Denotes(Or(a, b), w)
  {
  }
}
