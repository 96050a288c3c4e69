/** What is on top of the failure stack in a loop around characters, where `maybe_pop_jump` may take
    it off: the loop's own way out, or a dummy. */
module RegexTops {
  import opened Wrappers
  import opened RegexLanguage
  import opened RegexCode
  import opened RegexCourse
  import opened RegexInstructions
  import opened RegexEdges
  import opened RegexLoops
  import opened RegexMeaning
  import opened RegexPlaces
  import opened RegexTidy
  import opened RegexHalts
  import opened RegexBudget

  // ---- a loop that begins with characters is around them alone ----

  predicate OfOne(c: Code, t: int, l: int) {
    Peek(c, t + 3) == EXACTN ==> l == t + 5 + Peek(c, t + 4)
  }

  lemma OfOneIs(c: Code, t: int, l: int)
    ensures OfOne(c, t, l) == (Peek(c, t + 3) == EXACTN ==> l == t + 5 + Peek(c, t + 4))
  {
  }

  lemma {:induction false} LoopOfOne(f: Frag, n: nat, c: Code, o: int, t: int, l: int)
    requires Put(f, n, c, o) && IsLoop(f, t, l)
    ensures OfOne(c, o + t, o + l)
    decreases f, 1
  {
    hide *;
    LoopCases(f, t, l);
    match f
    case Then(p, q) =>
      PutThen(p, q, n, c, o, 0);
      if IsLoop(p, t, l) {
        LoopOfOne(p, n, c, o, t, l);
      } else {
        LoopOfOne(q, n + Groups(p), c, o + |Bytes(p)|, t - |Bytes(p)|, l - |Bytes(p)|);
      }
    case Again(b, zero, many) =>
      var k: int := Body(zero);
      BodyIs(zero);
      OwnLoopCases(b, many, t - k + 3, l - k + 3);
      PutAgain(b, zero, many, n, c, o, 0);
      if IsLoop(b, t - k, l - k) {
        LoopOfOne(b, n, c, o + k, t - k, l - k);
      } else {
        BodyOfOne(b, n, c, o + k);
        OfOneIs(c, o + t, o + l);
      }
    case Group(reg, inner, alts) =>
      PutGroup(reg, inner, alts, n, c, o, 0);
      NumberedMark(reg, inner);
      AltLoopOfOne(alts, n + 1, c, o + 3, t - 3, l - 3);
    case _ =>
  }

  lemma BodyIs(zero: bool)
    ensures Body(zero) == if zero then 3 else 6
  {
  }

  lemma BodyOfOne(b: Frag, n: nat, c: Code, o: int)
    requires Put(b, n, c, o) && Single(b)
    ensures Peek(c, o) == EXACTN ==> |Bytes(b)| == 2 + Peek(c, o + 1)
  {
    hide Bytes, IsStart, PutAlts, Peek;
    if b.Group? {
      PutGroup(b.reg, b.inner, b.alts, n, c, o, 0);
    } else {
      LeafOpcode(b, c, o);
    }
  }

  lemma {:induction false} FrontLoopOfOne(front: Front, n: nat, c: Code, o: int, t: int, l: int)
    requires PutFront(front, n, c, o) && front.More? && IsFrontLoop(front, t, l)
    ensures OfOne(c, o + t, o + l)
    decreases front, 1
  {
    hide *;
    FrontLoopCases(front, t, l);
    PutInFront(front, n, c, o, 0);
    var k := FrontSize(front.before) + 3;
    if IsFrontLoop(front.before, t, l) {
      FrontLoopCases(front.before, t, l);
      FrontLoopOfOne(front.before, n, c, o, t, l);
    } else {
      LoopOfOne(front.branch, n + GroupsFront(front.before), c, o + k, t - k, l - k);
    }
  }

  lemma {:induction false} AltLoopOfOne(alts: Alts, n: nat, c: Code, o: int, t: int, l: int)
    requires PutAlts(alts, n, c, o) && IsAltLoop(alts, t, l)
    ensures OfOne(c, o + t, o + l)
    decreases alts, 1
  {
    hide *;
    AltLoopCases(alts, t, l);
    PutInAlts(alts, n, c, o, 0);
    if alts.front.None? {
      LoopOfOne(alts.last, n, c, o, t, l);
    } else {
      var k := |FrontBytes(alts.front)| + 3;
      if IsFrontLoop(alts.front, t, l) {
        FrontLoopOfOne(alts.front, n, c, o, t, l);
      } else {
        LoopOfOne(alts.last, n + GroupsFront(alts.front), c, o + k, t - k, l - k);
      }
    }
  }

  // ---- which commands lead into such a loop ----

  /** At b are the characters that a loop is around. */
  ghost predicate Heads(alts: Alts, b: int) {
    var c := AltBytes(alts);
    Peek(c, b) == EXACTN && IsAltLoop(alts, b - 3, b + 2 + Peek(c, b + 1))
  }

  /** The loop of a jump back. */
  lemma BackLoop(alts: Alts, l: nat)
    requires Tame(alts) && IsAltStart(alts, l) && Peek(AltBytes(alts), l) == MAYBE_POP_JUMP
    ensures var c := AltBytes(alts);
      var t := JumpsTo(c, l);
      && t == l + 3 + Argument(c, l + 1) && IsAltLoop(alts, t, l) && IsAltStart(alts, t) && t + 3 <= l && l + 3 <= |c| && Peek(c, t) == ON_FAILURE_JUMP && JumpsTo(c, t) == l + 3
      && (Peek(c, t + 3) == EXACTN ==> Heads(alts, t + 3) && l == t + 5 + Peek(c, t + 4))
  {
    hide IsAltStart, AltBytes, IsAltLoop, WellFormedAlts, TidyAlts, GroupsAlts, PutAlts;
    var c := AltBytes(alts);
    AtAll(c);
    StartsInside(alts, l);
    BackwardAlts(alts, c, 0, l);
    var t := Target(c, l);
    AltLoopHasEnds(alts, c, 0, t, l);
    AltLoopStart(alts, t, l);
    PutTame(alts);
    AltLoopOfOne(alts, 0, c, 0, t, l);
  }

  lemma HeadPlaces(alts: Alts, b: int)
    requires Tame(alts) && Heads(alts, b)
    ensures var c := AltBytes(alts);
      var l := b + 2 + Peek(c, b + 1);
      && 3 <= b < l && l + 3 <= |c| && IsAltStart(alts, b - 3) && IsAltStart(alts, b) && IsAltStart(alts, l)
      && c[b - 3] == ON_FAILURE_JUMP && JumpsTo(c, b - 3) == l + 3 && c[b] == EXACTN && Fits(c, b) && Peek(c, l) == MAYBE_POP_JUMP && JumpsTo(c, l) == b - 3
  {
    hide IsAltStart, AltBytes, IsAltLoop, WellFormedAlts, TidyAlts, GroupsAlts, Fits, Length;
    var c := AltBytes(alts);
    var l := b + 2 + Peek(c, b + 1);
    AtAll(c);
    AltLoopHasEnds(alts, c, 0, b - 3, l);
    AltLoopStart(alts, b - 3, l);
    NextAltStart(alts, c, 0, b - 3);
    FailureIsThree(c, b - 3);
    StartsInside(alts, b);
    NextAltStart(alts, c, 0, b);
    ExactIsLong(c, b);
  }

  lemma FailureIsThree(c: Code, p: int)
    requires Fits(c, p) && c[p] == ON_FAILURE_JUMP
    ensures Length(c, p) == 3
  {
  }

  lemma ExactIsLong(c: Code, p: int)
    requires Fits(c, p) && c[p] == EXACTN
    ensures Length(c, p) == 2 + Peek(c, p + 1) && Peek(c, p + 1) >= 1
  {
  }

  lemma ReadsFrom(c: Code, p: int) returns (s: Text)
    requires Fits(c, p)
    ensures c[p] == EXACTN ==> Move(c, s, p, 0, p + 2 + c[p + 1], c[p + 1])
    ensures c[p] == ANYCHAR ==> Move(c, s, p, 0, p + 1, 1)
  {
    s := [1];
    if c[p] == EXACTN {
      s := c[p + 2..p + 2 + c[p + 1]];
    }
  }

  /** Where a command leads, a move of the program leads; a jump back does not lead to characters. */
  lemma LeadsMoves(alts: Alts, p: nat, a: Act, q: nat, a': Act) returns (s: Text, e: int)
    requires Tame(alts) && IsAltStart(alts, p) && Leads(AltBytes(alts), p, a, q, a') && Peek(AltBytes(alts), q) == EXACTN
    requires Peek(AltBytes(alts), p) == STOP_MEMORY ==> q == p + 3
    ensures Move(AltBytes(alts), s, p, 0, q, e)
  {
    hide IsAltStart, AltBytes, IsAltLoop, WellFormedAlts, TidyAlts, GroupsAlts, Heads;
    var c := AltBytes(alts);
    AtAll(c);
    StartsInside(alts, p);
    BackwardAlts(alts, c, 0, p);
    NoPopJump(alts, p);
    s := ReadsFrom(c, p);
    e := if c[p] == EXACTN then c[p + 1] else if c[p] == ANYCHAR then 1 else 0;
    if c[p] == MAYBE_POP_JUMP {
      BackLoop(alts, p);
    }
  }

  /** The characters of a loop are come to from the failure jump in front of them, or from the dummy
      failure jump that skips it. */
  lemma IntoHead(alts: Alts, p: nat, a: Act, b: nat, a': Act)
    requires Tame(alts) && IsAltStart(alts, p) && Leads(AltBytes(alts), p, a, b, a') && Heads(alts, b)
    requires Peek(AltBytes(alts), p) == STOP_MEMORY ==> b == p + 3
    ensures (Peek(AltBytes(alts), p) == ON_FAILURE_JUMP && b == p + 3) || Peek(AltBytes(alts), p) == DUMMY_FAILURE_JUMP
  {
    hide IsAltStart, AltBytes, IsAltLoop, WellFormedAlts, TidyAlts, GroupsAlts, Move, Length;
    var c := AltBytes(alts);
    var l := b + 2 + Peek(c, b + 1);
    AtAll(c);
    HeadPlaces(alts, b);
    var s, e := LeadsMoves(alts, p, a, b, a');
    SingleEntryAlts(alts, c, 0, s, p, 0, b, e, b - 3, l);
    ApartAlts(alts, c, 0, b, p);
    ExactIsLong(c, b);
  }

  /** The way out of a loop, or past an alternative, does not lead to the characters of a loop. */
  lemma FarFromHead(alts: Alts, p: nat, a: Act, q: nat, a': Act)
    requires Tame(alts) && IsAltStart(alts, p) && Leads(AltBytes(alts), p, a, q, a')
    requires Far(AltBytes(alts), p, q)
    ensures !Heads(alts, q)
  {
    hide IsAltStart, AltBytes, IsAltLoop, WellFormedAlts, TidyAlts, GroupsAlts, Heads, Readied;
    var c := AltBytes(alts);
    if Heads(alts, q) {
      HeadPlaces(alts, q);
      if Peek(c, p) == ON_FAILURE_JUMP {
        IntoHead(alts, p, a, q, a');
      }
    }
  }

  /** The jump back of a loop around characters is come to from them alone. */
  lemma IntoBack(alts: Alts, p: nat, l: nat)
    requires Tame(alts) && IsAltStart(alts, p) && IsAltStart(alts, l) && Behind(AltBytes(alts), p, l)
    requires Peek(AltBytes(alts), l) == MAYBE_POP_JUMP && Heads(alts, JumpsTo(AltBytes(alts), l) + 3)
    ensures p == JumpsTo(AltBytes(alts), l) + 3
  {
    hide IsAltStart, AltBytes, IsAltLoop, WellFormedAlts, TidyAlts, GroupsAlts, Heads, Fits;
    var c := AltBytes(alts);
    AtAll(c);
    BackLoop(alts, l);
    var b := JumpsTo(c, l) + 3;
    HeadPlaces(alts, b);
    StartsInside(alts, p);
    ExactIsLong(c, b);
    ApartAlts(alts, c, 0, b, p);
    ApartAlts(alts, c, 0, p, b);
  }

  // ---- the top of the stack there ----

  /** A dummy, or the loop's way out from before the character at d was read. */
  ghost predicate WayOut(f: FailurePoint, exit: nat, d: nat) {
    f.pattern.None? || (f.pattern == Some(exit) && f.str == Some(d))
  }

  /** At the characters of a loop, and at the jump back behind them, the way out is on top. */
  ghost predicate Topped(alts: Alts, text: Text, st: State) {
    var c := AltBytes(alts);
    && (Heads(alts, st.p) ==> st.stack != [] && WayOut(st.stack[|st.stack| - 1], st.p + 5 + Peek(c, st.p + 1), st.d))
    && (Peek(c, st.p) == MAYBE_POP_JUMP && Heads(alts, JumpsTo(c, st.p) + 3) ==> st.stack != [] && PassedTop(c, text, st.stack[|st.stack| - 1], st.p))
  }

  ghost predicate PassedTop(c: Code, text: Text, f: FailurePoint, l: nat) {
    exists d: nat :: WayOut(f, l + 3, d) && d < |text| && text[d] == Peek(c, JumpsTo(c, l) + 5)
  }

  /** A place that failure points have. */
  ghost predicate Plain(alts: Alts, q: nat) {
    !Heads(alts, q) && Peek(AltBytes(alts), q) != MAYBE_POP_JUMP
  }

  ghost predicate PlainStack(alts: Alts, stack: seq<FailurePoint>) {
    forall f | f in stack :: f.pattern.Some? ==> Plain(alts, f.pattern.value)
  }

  lemma PlainTopped(alts: Alts, text: Text, st: State)
    requires Plain(alts, st.p)
    ensures Topped(alts, text, st)
  {
    hide Heads, AltBytes;
  }

  lemma FarIsPlain(alts: Alts, p: nat, a: Act, q: nat, a': Act)
    requires Tame(alts) && IsAltStart(alts, p) && Leads(AltBytes(alts), p, a, q, a') && Far(AltBytes(alts), p, q) && Behind(AltBytes(alts), p, q)
    ensures Plain(alts, q)
  {
    hide IsAltStart, AltBytes, Tame, Heads, Leads;
    FarFromHead(alts, p, a, q, a');
  }

  /** What is pushed is plain. */
  lemma PushesPlain(alts: Alts, text: Text, st: State, truth: set<int>, next: State)
    requires Tame(alts) && Live(alts, text, st.p, st.d, Of(st, truth)) && st.p != |AltBytes(alts)| && PlainStack(alts, st.stack)
    requires Stacks(AltBytes(alts), text, st, truth, next)
    ensures PlainStack(alts, next.stack)
  {
    hide Tame, AltBytes, Live, Leads, Far, Plain, Of, Behind;
    if |next.stack| == |st.stack| + 1 {
      var f := next.stack[|st.stack|];
      assert next.stack == st.stack + [f];
      if f.pattern.Some? {
        var a' := Of(next, After(AltBytes(alts), st.p, truth));
        Advances(alts, text, st, truth, f.pattern.value, f.str.value, a');
        LivePlace(alts, text, st, truth);
        FarIsPlain(alts, st.p, Of(st, truth), f.pattern.value, a');
      }
    }
  }

  lemma TopAfterFailure(c: Code, text: Text, room: Room, st: State)
    requires Peek(c, st.p) == ON_FAILURE_JUMP
    ensures var step := Exec(c, text, room, st);
      step.out == Go ==> step.next.stack != [] && WayOut(step.next.stack[|step.next.stack| - 1], JumpsTo(c, st.p), step.next.d)
  {
    hide JumpsTo, Span;
  }

  lemma TopAfterDummy(c: Code, text: Text, room: Room, st: State)
    requires Peek(c, st.p) == DUMMY_FAILURE_JUMP
    ensures var step := Exec(c, text, room, st);
      step.out == Go ==> step.next.stack != [] && step.next.stack[|step.next.stack| - 1].pattern.None?
  {
    hide JumpsTo, Span;
  }

  lemma TopAfterExact(c: Code, text: Text, room: Room, st: State)
    requires Fits(c, st.p) && c[st.p] == EXACTN
    ensures var step := Exec(c, text, room, st);
      step.out == Go ==> step.next.stack == st.stack && st.d < |text| && text[st.d] == c[st.p + 2]
  {
    hide SetMatched;
    var n := c[st.p + 1];
    if st.d + n <= |text| && st.p + 2 + n <= |c| && text[st.d..st.d + n] == c[st.p + 2..st.p + 2 + n] {
      assert text[st.d..st.d + n][0] == text[st.d] && c[st.p + 2..st.p + 2 + n][0] == c[st.p + 2];
    }
  }

  lemma ToppedAtHead(alts: Alts, text: Text, st: State, truth: set<int>, room: Room)
    requires Tame(alts) && IsAltStart(alts, st.p)
    requires var c := AltBytes(alts);
      var step := Exec(c, text, room, st);
      step.out == Go && Leads(c, st.p, Of(st, truth), step.next.p, Of(step.next, After(c, st.p, truth))) && Heads(alts, step.next.p)
    ensures var st' := Exec(AltBytes(alts), text, room, st).next;
      st'.stack != [] && WayOut(st'.stack[|st'.stack| - 1], st'.p + 5 + Peek(AltBytes(alts), st'.p + 1), st'.d)
  {
    hide IsAltStart, AltBytes, Tame, Heads, Exec;
    var c := AltBytes(alts);
    var st' := Exec(c, text, room, st).next;
    var a, a' := Of(st, truth), Of(st', After(c, st.p, truth));
    if Peek(c, st.p) == STOP_MEMORY && st'.p != st.p + 3 {
      FarFromHead(alts, st.p, a, st'.p, a');
    }
    IntoHead(alts, st.p, a, st'.p, a');
    HeadPlaces(alts, st'.p);
    if Peek(c, st.p) == ON_FAILURE_JUMP {
      TopAfterFailure(c, text, room, st);
    } else {
      TopAfterDummy(c, text, room, st);
    }
  }

  lemma ToppedAtBack(alts: Alts, text: Text, st: State, room: Room)
    requires Tame(alts) && IsAltStart(alts, st.p) && Topped(alts, text, st)
    requires var c := AltBytes(alts);
      var step := Exec(c, text, room, st);
      && step.out == Go && IsAltStart(alts, step.next.p) && Behind(c, st.p, step.next.p)
      && Peek(c, step.next.p) == MAYBE_POP_JUMP && Heads(alts, JumpsTo(c, step.next.p) + 3)
    ensures var st' := Exec(AltBytes(alts), text, room, st).next;
      st'.stack != [] && PassedTop(AltBytes(alts), text, st'.stack[|st'.stack| - 1], st'.p)
  {
    hide IsAltStart, AltBytes, Tame, Heads, Exec, Behind, WayOut, Fits;
    var c := AltBytes(alts);
    var st' := Exec(c, text, room, st).next;
    IntoBack(alts, st.p, st'.p);
    BackLoop(alts, st'.p);
    HeadPlaces(alts, st.p);
    TopAfterExact(c, text, room, st);
    assert WayOut(st.stack[|st.stack| - 1], st'.p + 3, st.d);
  }

  /** What is on top stays right from command to command. */
  lemma ToppedOn(alts: Alts, text: Text, st: State, truth: set<int>, room: Room)
    requires Tame(alts) && Live(alts, text, st.p, st.d, Of(st, truth)) && st.p != |AltBytes(alts)| && Topped(alts, text, st)
    requires Exec(AltBytes(alts), text, room, st).out == Go
    ensures Topped(alts, text, Exec(AltBytes(alts), text, room, st).next)
  {
    hide IsAltStart, AltBytes, Tame, Heads, Exec, Behind, Leads, WayOut, PassedTop, Live, Stacks;
    var c := AltBytes(alts);
    LivePlace(alts, text, st, truth);
    ExecCarries(alts, text, st, truth, room);
    var st' := Exec(c, text, room, st).next;
    Advances(alts, text, st, truth, st'.p, st'.d, Of(st', After(c, st.p, truth)));
    if Heads(alts, st'.p) {
      ToppedAtHead(alts, text, st, truth, room);
    }
    if Peek(c, st'.p) == MAYBE_POP_JUMP && Heads(alts, JumpsTo(c, st'.p) + 3) {
      LivePlace(alts, text, st', After(c, st.p, truth));
      ToppedAtBack(alts, text, st, room);
    }
  }
}
