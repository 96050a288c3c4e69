/** Programs of which some jumps have been rewritten, the places that a program can come to, and that
    the matcher's course never leaves them: what it reports as matched is denoted by the pattern. */
module RegexPlaces {
  import opened Wrappers
  import opened RegexLanguage
  import opened RegexCode
  import opened RegexMeaning
  import opened RegexEdges
  import opened RegexInstructions
  import opened RegexLoops
  import opened RegexCourse

  // ---- programs that have been rewritten ----

  /** What the matcher turns the `maybe_pop_jump` at i into. */
  function Decided(c0: Code, i: nat): Byte {
    if Pops(c0, i) then POP_FAILURE_JUMP else JUMP
  }

  /** The matcher has turned some `maybe_pop_jump`s into `pop_failure_jump`s or `jump`s, always in the
      same way. */
  ghost predicate Rewritten(alts: Alts, c: Code) {
    && |c| == |AltBytes(alts)|
    && forall i {:trigger c[i]} :: 0 <= i < |c| ==>
         c[i] == AltBytes(alts)[i]
         || (IsAltStart(alts, i) && AltBytes(alts)[i] == MAYBE_POP_JUMP && c[i] == Decided(AltBytes(alts), i))
  }

  ghost predicate Program(alts: Alts, c: Code) {
    WellFormedAlts(alts) && |AltBytes(alts)| < REACH && Rewritten(alts, c)
  }

  lemma ArgumentsKept(alts: Alts, c: Code, p: int, i: int)
    requires Program(alts, c) && IsAltStart(alts, p)
    ensures var c0 := AltBytes(alts);
      && Fits(c0, p) && 0 <= p && p + Length(c0, p) <= |c0|
      && (p < i < p + Length(c0, p) ==> c[i] == c0[i])
  {
    hide Fits, Length, IsAltStart;
    AtAll(AltBytes(alts));
    ApartAlts(alts, AltBytes(alts), 0, p, i);
  }

  lemma OpcodeKept(alts: Alts, c: Code, p: int)
    requires Program(alts, c) && 0 <= p < |c|
    ensures c[p] == AltBytes(alts)[p] || (AltBytes(alts)[p] == MAYBE_POP_JUMP && (c[p] == POP_FAILURE_JUMP || c[p] == JUMP))
  {
  }

  lemma OpcodeDecided(alts: Alts, c: Code, p: int)
    requires Program(alts, c) && 0 <= p < |c|
    ensures c[p] == AltBytes(alts)[p] || (AltBytes(alts)[p] == MAYBE_POP_JUMP && c[p] == Decided(AltBytes(alts), p))
  {
    hide Decided;
  }

  /** At an instruction, the rewritten program is the original with another jump at most. */
  lemma SameInstruction(alts: Alts, c: Code, p: int)
    requires Program(alts, c) && IsAltStart(alts, p)
    ensures var c0 := AltBytes(alts);
      && Fits(c0, p) && Fits(c, p) && |c| == |c0|
      && (c[p] == c0[p] || (c0[p] == MAYBE_POP_JUMP && (c[p] == POP_FAILURE_JUMP || c[p] == JUMP)))
      && (c[p] == START_MEMORY || c[p] == STOP_MEMORY || c[p] == ON_FAILURE_JUMP || IsJump(c[p]) ==> Number(c, p + 1) == Number(c0, p + 1))
      && (c[p] == EXACTN ==> c[p + 1] == c0[p + 1] && c[p + 2..p + 2 + c[p + 1]] == c0[p + 2..p + 2 + c[p + 1]])
  {
    hide IsAltStart, Rewritten;
    var c0 := AltBytes(alts);
    ArgumentsKept(alts, c, p, p + 1);
    ArgumentsKept(alts, c, p, p + 2);
    RewrittenLength(alts, c);
    OpcodeKept(alts, c, p);
    if c[p] == EXACTN {
      forall i | p + 2 <= i < p + 2 + c[p + 1]
        ensures c[i] == c0[i]
      {
        ArgumentsKept(alts, c, p, i);
      }
    }
  }

  /** A byte that is not the opcode of a jump back is what it was. */
  lemma PeekKept(alts: Alts, c: Code, i: int)
    requires Program(alts, c)
    ensures Peek(c, i) == Peek(AltBytes(alts), i)
      || (Peek(AltBytes(alts), i) == MAYBE_POP_JUMP && (Peek(c, i) == POP_FAILURE_JUMP || Peek(c, i) == JUMP))
    ensures IsLoopJump(Peek(c, i)) <==> IsLoopJump(Peek(AltBytes(alts), i))
    ensures Peek(c, i) == ON_FAILURE_JUMP <==> Peek(AltBytes(alts), i) == ON_FAILURE_JUMP
    ensures Peek(c, i) == START_MEMORY <==> Peek(AltBytes(alts), i) == START_MEMORY
    ensures Peek(c, i) == STOP_MEMORY <==> Peek(AltBytes(alts), i) == STOP_MEMORY
    ensures Peek(c, i) == EXACTN <==> Peek(AltBytes(alts), i) == EXACTN
    ensures Peek(c, i) == DUMMY_FAILURE_JUMP <==> Peek(AltBytes(alts), i) == DUMMY_FAILURE_JUMP
  {
    hide IsAltStart, AltBytes;
  }

  /** The arguments of an instruction are what they were. */
  lemma ArgumentKept(alts: Alts, c: Code, p: int)
    requires Program(alts, c) && (IsAltStart(alts, p) || p == |AltBytes(alts)|)
    ensures var op := Peek(AltBytes(alts), p);
      && (op == START_MEMORY ==> Peek(c, p + 1) == Peek(AltBytes(alts), p + 1) && Peek(c, p + 2) == Peek(AltBytes(alts), p + 2))
      && (op == STOP_MEMORY ==> Peek(c, p + 1) == Peek(AltBytes(alts), p + 1))
      && (op == ON_FAILURE_JUMP || IsJump(op) ==> Argument(c, p + 1) == Argument(AltBytes(alts), p + 1) && p + 2 < |c|)
      && (op == EXACTN ==> Peek(c, p + 2) == Peek(AltBytes(alts), p + 2))
    ensures |c| == |AltBytes(alts)|
  {
    hide IsAltStart, Rewritten, AltBytes;
    RewrittenLength(alts, c);
    if p < |AltBytes(alts)| {
      ArgumentsKept(alts, c, p, p + 1);
      ArgumentsKept(alts, c, p, p + 2);
      SameInstruction(alts, c, p);
    }
  }

  lemma RewrittenLength(alts: Alts, c: Code)
    requires Rewritten(alts, c)
    ensures |c| == |AltBytes(alts)|
  {
  }

  lemma SameMoves(alts: Alts, c: Code, s: Text, p: int, d: int, q: int, e: int)
    requires Program(alts, c) && IsAltStart(alts, p)
    ensures Move(c, s, p, d, q, e) <==> Move(AltBytes(alts), s, p, d, q, e)
  {
    hide Program, IsAltStart, AltBytes;
    SameInstruction(alts, c, p);
  }

  // ---- the decision of `maybe_pop_jump` ----

  lemma {:induction false} MarksKept(alts: Alts, c: Code, p: nat)
    requires Program(alts, c) && (IsAltStart(alts, p) || p == |AltBytes(alts)|)
    ensures |c| == |AltBytes(alts)| && PastMarks(c, p) == PastMarks(AltBytes(alts), p)
    ensures var q := PastMarks(c, p); IsAltStart(alts, q) || q == |c|
    decreases |AltBytes(alts)| - p
  {
    hide IsAltStart, Rewritten, AltBytes, Fits, Length;
    var c0 := AltBytes(alts);
    RewrittenLength(alts, c);
    if p < |c0| {
      AtAll(c0);
      PeekKept(alts, c, p);
      NextAltStart(alts, c0, 0, p);
      MarkLength(c0, p);
      if c0[p] == STOP_MEMORY || c0[p] == START_MEMORY {
        MarksKept(alts, c, p + 3);
      }
    }
  }

  lemma MarkLength(c: Code, p: int)
    requires Fits(c, p)
    ensures 0 <= p < |c| && (c[p] == STOP_MEMORY || c[p] == START_MEMORY || c[p] == ON_FAILURE_JUMP ==> Length(c, p) == 3 && p + 2 < |c|)
  {
  }

  /** The jump back leads to the failure jump of its loop, and an instruction follows that. */
  lemma LoopHead(alts: Alts, p: int)
    requires WellFormedAlts(alts) && |AltBytes(alts)| < REACH && IsAltStart(alts, p) && 0 <= p < |AltBytes(alts)| && AltBytes(alts)[p] == MAYBE_POP_JUMP
    ensures var c0 := AltBytes(alts);
      var t := p + 3 + Argument(c0, p + 1);
      IsAltStart(alts, t) && 0 <= t && t + 3 <= |c0| && c0[t] == ON_FAILURE_JUMP && (IsAltStart(alts, t + 3) || t + 3 == |c0|)
  {
    hide IsAltStart, AltBytes, IsAltLoop, LoopEnds;
    var c0 := AltBytes(alts);
    AtAll(c0);
    BackwardAlts(alts, c0, 0, p);
    FitsJump(c0, p);
    var t := Target(c0, p);
    AltLoopHasEnds(alts, c0, 0, t, p);
    LoopEndsAt(c0, t, p);
    AltLoopStart(alts, t, p);
    NextAltStart(alts, c0, 0, t);
    MarkLength(c0, t);
  }

  lemma LoopEndsAt(c: Code, t: int, l: int)
    requires LoopEnds(c, t, l)
    ensures 0 <= t && t + 3 <= |c| && c[t] == ON_FAILURE_JUMP
  {
  }

  /** Jumps back that have been rewritten before do not change the decision on another. */
  lemma PopsKept(alts: Alts, c: Code, p: nat)
    requires Program(alts, c) && IsAltStart(alts, p) && p < |AltBytes(alts)| && AltBytes(alts)[p] == MAYBE_POP_JUMP
    ensures Pops(c, p) == Pops(AltBytes(alts), p)
  {
    hide IsAltStart, AltBytes, Rewritten, PastMarks;
    var c0 := AltBytes(alts);
    AtAll(c0);
    NextAltStart(alts, c0, 0, p);
    JumpIsThree(c0, p);
    MarksKept(alts, c, p + 3);
    var p2, t := PastMarks(c0, p + 3), p + 3 + Argument(c0, p + 1);
    ArgumentKept(alts, c, p);
    PeekKept(alts, c, p2);
    ArgumentKept(alts, c, p2);
    LoopHead(alts, p);
    PeekKept(alts, c, t + 3);
    ArgumentKept(alts, c, t + 3);
  }

  lemma JumpIsThree(c: Code, p: int)
    requires Fits(c, p) && c[p] == MAYBE_POP_JUMP
    ensures Length(c, p) == 3
  {
  }

  // ---- places the program can reach ----

  ghost predicate Place(alts: Alts, s: Text, pos: nat, q: int, e: int) {
    && pos <= |s| && 0 <= e <= |s| && Reaches(AltBytes(alts), s, 0, pos, q, e)
    && (IsAltStart(alts, q) || q == |AltBytes(alts)|)
  }

  /** Enough failure points are there for the loops around q. */
  ghost predicate Covered(alts: Alts, q: int, depth: nat) {
    AltDepth(alts, q) <= depth
  }

  lemma StartPlace(alts: Alts, c: Code, s: Text, pos: nat)
    requires Program(alts, c) && pos <= |s|
    ensures Place(alts, s, pos, 0, pos) && Covered(alts, 0, 0)
  {
    ReachesSelf(AltBytes(alts), s, 0, pos);
    RunPlace(alts, s, pos, 0, pos);
    AltDepthOutside(alts, 0);
  }

  lemma RunPlace(alts: Alts, s: Text, pos: nat, q: int, e: int)
    requires WellFormedAlts(alts) && |AltBytes(alts)| < REACH && pos <= |s| && Reaches(AltBytes(alts), s, 0, pos, q, e)
    ensures IsAltStart(alts, q) || (q == |AltBytes(alts)| && pos <= e <= |s| && Denotes(MeansAlts(alts), s[pos..e]))
  {
    hide Runs, Reaches, Denotes, IsAltStart;
    var n := ReachesRuns(AltBytes(alts), s, 0, pos, q, e);
    RunEnds(alts, s, pos, q, e, n);
  }

  /** A move leads from place to place. */
  lemma NextPlace(alts: Alts, c: Code, s: Text, pos: nat, p: int, d: int, q: int, e: int)
    requires Program(alts, c) && Place(alts, s, pos, p, d) && IsAltStart(alts, p) && Move(c, s, p, d, q, e)
    ensures Place(alts, s, pos, q, e) && Fits(AltBytes(alts), p)
    ensures Climbs(AltBytes(alts), p, q, AltDepth(alts, p), AltDepth(alts, q))
  {
    var c0 := AltBytes(alts);
    hide Runs, Reaches, Denotes, IsAltStart, Move, Fits, Rewritten, AltDepth, Climbs;
    SameMoves(alts, c, s, p, d, q, e);
    ReachesMove(c0, s, p, d, q, e);
    ReachesJoin(c0, s, 0, pos, p, d, q, e);
    RunPlace(alts, s, pos, q, e);
    AtAll(c0);
    EdgeAlts(alts, c0, 0, s, p, d, q, e);
    MoveFits(c0, s, p, d, q, e);
  }

  /** At the end of the program, what has been read is denoted. */
  lemma EndPlace(alts: Alts, s: Text, pos: nat, e: int)
    requires WellFormedAlts(alts) && |AltBytes(alts)| < REACH && Place(alts, s, pos, |AltBytes(alts)|, e)
    ensures pos <= e <= |s| && Denotes(MeansAlts(alts), s[pos..e])
  {
    hide Reaches, Denotes, IsAltStart;
    RunPlace(alts, s, pos, |AltBytes(alts)|, e);
    StartsInside(alts, |AltBytes(alts)|);
  }

  ghost predicate GoodPoint(alts: Alts, s: Text, pos: nat, f: FailurePoint, depth: nat) {
    f.pattern.Some? ==> f.str.Some? && Place(alts, s, pos, f.pattern.value, f.str.value) && Covered(alts, f.pattern.value, depth)
  }

  ghost predicate GoodStack(alts: Alts, s: Text, pos: nat, stack: seq<FailurePoint>) {
    forall i {:trigger stack[i]} :: 0 <= i < |stack| ==> GoodPoint(alts, s, pos, stack[i], i)
  }

  lemma PushKeepsStack(alts: Alts, s: Text, pos: nat, stack: seq<FailurePoint>, f: FailurePoint)
    requires GoodStack(alts, s, pos, stack) && GoodPoint(alts, s, pos, f, |stack|)
    ensures GoodStack(alts, s, pos, stack + [f])
  {
    hide GoodPoint;
  }

  lemma PopKeepsStack(alts: Alts, s: Text, pos: nat, stack: seq<FailurePoint>)
    requires GoodStack(alts, s, pos, stack) && stack != []
    ensures var n := |stack| - 1; GoodStack(alts, s, pos, stack[..n]) && GoodPoint(alts, s, pos, stack[n], n)
  {
    hide GoodPoint;
  }

  /** The compiler emits no `pop_failure_jump` and no plain `jump`: they stem from rewriting. */
  lemma NoPopJump(alts: Alts, p: int)
    requires WellFormedAlts(alts) && |AltBytes(alts)| < REACH && IsAltStart(alts, p)
    ensures 0 <= p < |AltBytes(alts)| && AltBytes(alts)[p] != POP_FAILURE_JUMP && AltBytes(alts)[p] != JUMP
  {
    hide *;
    AtAll(AltBytes(alts));
    StartsInside(alts, p);
    AltOpcodes(alts, AltBytes(alts), 0, p);
  }

  lemma CoveredMore(alts: Alts, q: int, n: nat)
    requires Covered(alts, q, n)
    ensures Covered(alts, q, n + 1)
  {
  }

  /** Rewriting one jump keeps the program. */
  lemma RewriteStep(alts: Alts, was: Code, now: Code, p: int)
    requires Program(alts, was) && IsAltStart(alts, p) && 0 <= p < |was| && was[p] == MAYBE_POP_JUMP
    requires now == was[p := Decided(AltBytes(alts), p)]
    ensures Program(alts, now)
  {
    hide IsAltStart, Decided;
    DecidedIsJump(AltBytes(alts), p);
    forall i {:trigger now[i]} | 0 <= i < |now|
      ensures now[i] == AltBytes(alts)[i]
         || (IsAltStart(alts, i) && AltBytes(alts)[i] == MAYBE_POP_JUMP && now[i] == Decided(AltBytes(alts), i))
    {
      assert was[i] == was[i];
    }
  }

  lemma DecidedIs(c0: Code, i: nat)
    ensures Decided(c0, i) == if Pops(c0, i) then POP_FAILURE_JUMP else JUMP
  {
  }

  lemma DecidedIsJump(c0: Code, i: nat)
    ensures Decided(c0, i) == POP_FAILURE_JUMP || Decided(c0, i) == JUMP
    ensures Decided(c0, i) == POP_FAILURE_JUMP <==> Pops(c0, i)
    ensures Decided(c0, i) != MAYBE_POP_JUMP
  {
  }

  lemma PlaceRange(alts: Alts, s: Text, pos: nat, q: int, e: int)
    requires Place(alts, s, pos, q, e) && WellFormedAlts(alts) && |AltBytes(alts)| < REACH
    ensures 0 <= q <= |AltBytes(alts)|
  {
    hide IsAltStart, Reaches;
    StartsInside(alts, q);
  }

  lemma BackStep(c: Code, s: State)
    requires s.stack != []
    ensures var n := |s.stack| - 1;
      var f := s.stack[n];
      var t := State(if f.pattern.Some? then f.pattern.value else s.p, if f.str.Some? then f.str.value else s.d, s.stack[..n],
        f.low, f.high, s.regs + f.saved, s.best);
      Back(c, s) == if f.pattern.Some? && !(f.pattern.value < |c| && JumpsBack(c, f.pattern.value)) then Some(t) else Back(c, t)
  {
  }

  lemma BackEnd(c: Code, s: State)
    requires s.stack == []
    ensures Back(c, s) == Option.None
  {
  }

  // ---- single moves of a program ----

  lemma ExactMove(c: Code, s: Text, p: int, d: int)
    requires Fits(c, p) && c[p] == EXACTN && 0 <= d && d + c[p + 1] <= |s| && s[d..d + c[p + 1]] == c[p + 2..p + 2 + c[p + 1]]
    ensures Move(c, s, p, d, p + 2 + c[p + 1], d + c[p + 1])
  {
  }

  lemma AnyMove(c: Code, s: Text, p: int, d: int)
    requires Fits(c, p) && c[p] == ANYCHAR && 0 <= d < |s| && s[d] != 0
    ensures Move(c, s, p, d, p + 1, d + 1)
  {
  }

  lemma SkipMove(c: Code, s: Text, p: int, d: int)
    requires Fits(c, p) && 0 <= d <= |s| && (c[p] == START_MEMORY || c[p] == STOP_MEMORY)
    ensures Move(c, s, p, d, p + 3, d)
  {
  }

  lemma FitsJump(c: Code, p: int)
    requires Fits(c, p) && (IsJump(c[p]) || c[p] == ON_FAILURE_JUMP)
    ensures p + 2 < |c|
  {
  }

  lemma JumpMove(c: Code, s: Text, p: int, d: int)
    requires Fits(c, p) && 0 <= d <= |s| && IsJump(c[p])
    ensures p + 2 < |c| && Move(c, s, p, d, p + 3 + Number(c, p + 1), d)
  {
  }

  lemma DummyMove(c: Code, s: Text, p: int, d: int)
    requires Fits(c, p) && 0 <= d <= |s| && c[p] == PUSH_DUMMY_FAILURE
    ensures Move(c, s, p, d, p + 1, d)
  {
  }

  lemma FailureMove(c: Code, s: Text, p: int, d: int)
    requires Fits(c, p) && 0 <= d <= |s| && c[p] == ON_FAILURE_JUMP
    ensures p + 2 < |c| && Move(c, s, p, d, p + 3, d) && Move(c, s, p, d, p + 3 + Number(c, p + 1), d)
  {
  }

  // ---- the course stays on places ----

  ghost predicate Laid(alts: Alts) {
    WellFormedAlts(alts) && |AltBytes(alts)| < REACH
  }

  /** What is on the failure stack, and the best match so far, can be relied on. */
  ghost predicate Resting(alts: Alts, s: Text, pos: nat, st: State) {
    Laid(alts) && GoodStack(alts, s, pos, st.stack) && (st.best.Some? ==> Place(alts, s, pos, |AltBytes(alts)|, st.best.value))
  }

  /** The state is one that the program can come to, with the failure points that its loops need. */
  ghost predicate Standing(alts: Alts, s: Text, pos: nat, st: State) {
    Resting(alts, s, pos, st) && Place(alts, s, pos, st.p, st.d) && Covered(alts, st.p, |st.stack|)
  }

  lemma StandingParts(alts: Alts, s: Text, pos: nat, st: State)
    requires Standing(alts, s, pos, st)
    ensures Resting(alts, s, pos, st) && Laid(alts) && Place(alts, s, pos, st.p, st.d) && Covered(alts, st.p, |st.stack|)
    ensures st.d <= |s| && 0 <= st.p <= |AltBytes(alts)| && (st.p < |AltBytes(alts)| ==> IsAltStart(alts, st.p) && Fits(AltBytes(alts), st.p))
  {
    hide GoodStack, Covered, IsAltStart, Reaches, Fits, AltBytes;
    PlaceRange(alts, s, pos, st.p, st.d);
    StartsInside(alts, st.p);
  }

  lemma StandingFrom(alts: Alts, s: Text, pos: nat, st: State)
    requires Resting(alts, s, pos, st) && Place(alts, s, pos, st.p, st.d) && Covered(alts, st.p, |st.stack|)
    ensures Standing(alts, s, pos, st)
  {
  }

  /** Only the stack and the best match matter. */
  lemma RestingSame(alts: Alts, s: Text, pos: nat, st: State, st': State)
    requires Resting(alts, s, pos, st) && st'.stack == st.stack && st'.best == st.best
    ensures Resting(alts, s, pos, st')
  {
  }

  lemma RestingPushed(alts: Alts, s: Text, pos: nat, st: State, room: Room, pattern: Option<nat>, str: Option<nat>)
    requires Resting(alts, s, pos, st)
    requires pattern.Some? ==> str.Some? && Place(alts, s, pos, pattern.value, str.value) && Covered(alts, pattern.value, |st.stack|)
    ensures Pushed(room, st, pattern, str).Some? ==>
      var u := Pushed(room, st, pattern, str).value;
      Resting(alts, s, pos, u) && |u.stack| == |st.stack| + 1 && u.p == st.p && u.d == st.d
  {
    hide Place, Covered, GoodStack, Laid, Span;
    PushKeepsStack(alts, s, pos, st.stack, FailurePoint(st.low, st.high, Span(st.regs, st.low, st.high), pattern, str));
  }

  lemma RestingPopped(alts: Alts, s: Text, pos: nat, st: State, st': State)
    requires Resting(alts, s, pos, st) && st.stack != [] && st'.stack == st.stack[..|st.stack| - 1] && st'.best == st.best
    ensures Resting(alts, s, pos, st')
  {
    hide Place, Covered, GoodStack, Laid;
    PopKeepsStack(alts, s, pos, st.stack);
  }

  lemma IsProgram(alts: Alts)
    requires Laid(alts)
    ensures Program(alts, AltBytes(alts))
  {
  }

  /** A command that neither pushes nor pops. */
  lemma StandOn(alts: Alts, s: Text, pos: nat, st: State, st': State)
    requires Standing(alts, s, pos, st) && st.p < |AltBytes(alts)| && Move(AltBytes(alts), s, st.p, st.d, st'.p, st'.d)
    requires !IsJump(AltBytes(alts)[st.p]) && AltBytes(alts)[st.p] != ON_FAILURE_JUMP && st'.stack == st.stack && st'.best == st.best
    ensures Standing(alts, s, pos, st')
  {
    hide Standing, Resting, IsAltStart, Place, Program, GoodStack, Reaches, Move, AltDepth, Fits, Laid;
    StandingParts(alts, s, pos, st);
    IsProgram(alts);
    NextPlace(alts, AltBytes(alts), s, pos, st.p, st.d, st'.p, st'.d);
    RestingSame(alts, s, pos, st, st');
    StandingFrom(alts, s, pos, st');
  }

  lemma StandExact(alts: Alts, s: Text, pos: nat, st: State)
    requires Standing(alts, s, pos, st) && st.p < |AltBytes(alts)| && AltBytes(alts)[st.p] == EXACTN
    ensures Stands(alts, s, pos, ExecExact(AltBytes(alts), s, st))
  {
    hide Standing, Resting, AltBytes, IsAltStart, Place, Move, SetMatched;
    StandingParts(alts, s, pos, st);
    var c := AltBytes(alts);
    var step := ExecExact(c, s, st);
    ExactInside(c, st.p);
    if step.out == Go {
      ExactMove(c, s, st.p, st.d);
      StandOn(alts, s, pos, st, step.next);
    }
    StandsFrom(alts, s, pos, st, step);
  }

  lemma ExactInside(c: Code, p: int)
    requires Fits(c, p) && c[p] == EXACTN
    ensures p + 1 < |c| && p + 2 + c[p + 1] <= |c| && !IsJump(c[p]) && c[p] != ON_FAILURE_JUMP
  {
  }

  /** The step leads to a state that can be relied on, and goes on only from places. */
  ghost predicate Stands(alts: Alts, s: Text, pos: nat, step: Step) {
    Resting(alts, s, pos, step.next) && (step.out == Go ==> Standing(alts, s, pos, step.next))
  }

  lemma StandsFrom(alts: Alts, s: Text, pos: nat, st: State, step: Step)
    requires Resting(alts, s, pos, st)
    requires if step.out == Go then Standing(alts, s, pos, step.next) else step.next.stack == st.stack && step.next.best == st.best
    ensures Stands(alts, s, pos, step)
  {
    hide GoodStack, Place, Covered;
    if step.out != Go {
      RestingSame(alts, s, pos, st, step.next);
    }
  }

  lemma StandAny(alts: Alts, s: Text, pos: nat, st: State)
    requires Standing(alts, s, pos, st) && st.p < |AltBytes(alts)| && AltBytes(alts)[st.p] == ANYCHAR
    ensures Stands(alts, s, pos, ExecAny(s, st))
  {
    hide Standing, Resting, AltBytes, IsAltStart, Place, Move, SetMatched;
    StandingParts(alts, s, pos, st);
    var step := ExecAny(s, st);
    if step.out == Go {
      AnyMove(AltBytes(alts), s, st.p, st.d);
      StandOn(alts, s, pos, st, step.next);
    }
    StandsFrom(alts, s, pos, st, step);
  }

  lemma StandStart(alts: Alts, s: Text, pos: nat, st: State)
    requires Standing(alts, s, pos, st) && st.p < |AltBytes(alts)| && AltBytes(alts)[st.p] == START_MEMORY
    ensures Stands(alts, s, pos, ExecStart(AltBytes(alts), st))
  {
    hide Standing, Resting, AltBytes, IsAltStart, Place, Move;
    StandingParts(alts, s, pos, st);
    var step := ExecStart(AltBytes(alts), st);
    SkipMove(AltBytes(alts), s, st.p, st.d);
    StandOn(alts, s, pos, st, step.next);
    StandsFrom(alts, s, pos, st, step);
  }

  lemma LeftSame(st: State, reg: int)
    ensures Left(st, reg).stack == st.stack && Left(st, reg).best == st.best && Left(st, reg).d == st.d && Left(st, reg).p == st.p
  {
    hide Highest;
  }

  /** Behind a group mark comes an instruction, or the end. */
  lemma AfterMark(alts: Alts, p: nat)
    requires Laid(alts) && IsAltStart(alts, p) && p < |AltBytes(alts)|
    requires AltBytes(alts)[p] == STOP_MEMORY || AltBytes(alts)[p] == START_MEMORY || AltBytes(alts)[p] == ON_FAILURE_JUMP
    ensures IsAltStart(alts, p + 3) || p + 3 == |AltBytes(alts)|
  {
    hide IsAltStart, AltBytes, Length, Fits;
    var c0 := AltBytes(alts);
    AtAll(c0);
    NextAltStart(alts, c0, 0, p);
    MarkLength(c0, p);
  }

  /** The jump behind the end of a group leads to a place; if that is a failure jump, so is its exit. */
  lemma ExitPlaces(alts: Alts, s: Text, pos: nat, st: State)
    requires Standing(alts, s, pos, st) && st.p + 3 < |AltBytes(alts)| && AltBytes(alts)[st.p] == STOP_MEMORY
    ensures IsAltStart(alts, st.p + 3)
    ensures var c0 := AltBytes(alts);
      var t := st.p + 6 + Argument(c0, st.p + 4);
      IsJump(c0[st.p + 3]) ==>
        && Place(alts, s, pos, t, st.d)
        && (Argument(c0, st.p + 4) < 0 && Peek(c0, t) == ON_FAILURE_JUMP ==>
            Place(alts, s, pos, JumpsTo(c0, t), st.d) && Covered(alts, JumpsTo(c0, t), |st.stack|))
  {
    hide Standing, Resting, AltBytes, IsAltStart, Place, Move, Covered, Fits, Program, Laid;
    var c0, q := AltBytes(alts), st.p + 3;
    StandingParts(alts, s, pos, st);
    AfterMark(alts, st.p);
    SkipMove(c0, s, st.p, st.d);
    MarkIsNoJump(c0, st.p);
    var st1 := st.(p := q);
    StandOn(alts, s, pos, st, st1);
    StandingParts(alts, s, pos, st1);
    if IsJump(c0[q]) {
      var t := q + 3 + Argument(c0, q + 1);
      FitsJump(c0, q);
      JumpMove(c0, s, q, st.d);
      IsProgram(alts);
      NextPlace(alts, c0, s, pos, q, st.d, t, st.d);
      if Argument(c0, q + 1) < 0 && Peek(c0, t) == ON_FAILURE_JUMP {
        LoopExitPlace(alts, s, pos, st, q, t);
      }
    }
  }

  lemma MarkIsNoJump(c: Code, p: int)
    requires 0 <= p < |c| && (c[p] == STOP_MEMORY || c[p] == START_MEMORY || c[p] == PUSH_DUMMY_FAILURE)
    ensures !IsJump(c[p]) && c[p] != ON_FAILURE_JUMP && 0 <= p
  {
  }

  lemma LoopExitPlace(alts: Alts, s: Text, pos: nat, st: State, q: nat, t: int)
    requires Laid(alts) && IsAltStart(alts, q) && q < |AltBytes(alts)| && IsJump(AltBytes(alts)[q]) && Covered(alts, q, |st.stack|)
    requires Place(alts, s, pos, q, st.d) && Place(alts, s, pos, t, st.d) && Move(AltBytes(alts), s, q, st.d, t, st.d)
    requires t == q + 3 + Argument(AltBytes(alts), q + 1) && Argument(AltBytes(alts), q + 1) < 0 && Peek(AltBytes(alts), t) == ON_FAILURE_JUMP
    ensures Place(alts, s, pos, JumpsTo(AltBytes(alts), t), st.d) && Covered(alts, JumpsTo(AltBytes(alts), t), |st.stack|)
  {
    hide AltBytes, IsAltStart, Reaches, Move, AltDepth, Fits, Rewritten;
    var c0 := AltBytes(alts);
    IsProgram(alts);
    PlaceRange(alts, s, pos, t, st.d);
    StartsInside(alts, t);
    NextPlace(alts, c0, s, pos, q, st.d, t, st.d);
    FitsJump(c0, t);
    FailureMove(c0, s, t, st.d);
    var e := t + 3 + Argument(c0, t + 1);
    NextPlace(alts, c0, s, pos, t, st.d, e, st.d);
    PlaceRange(alts, s, pos, e, st.d);
    StartsInside(alts, q);
  }

  lemma StandStop(alts: Alts, s: Text, pos: nat, st: State, room: Room)
    requires Standing(alts, s, pos, st) && st.p < |AltBytes(alts)| && AltBytes(alts)[st.p] == STOP_MEMORY
    ensures Stands(alts, s, pos, ExecStop(AltBytes(alts), room, st))
  {
    hide Standing, Resting, AltBytes, IsAltStart, Place, Move, Left, Pushed, LoopExit, Covered;
    StandingParts(alts, s, pos, st);
    var c0 := AltBytes(alts);
    var reg: int := Peek(c0, st.p + 1);
    var matched := Info(st.regs, reg).matched;
    var st1 := st.(regs := st.regs[reg := RegInfo(false, matched)]);
    var t := Left(st1, reg);
    LeftSame(st1, reg);
    RestingSame(alts, s, pos, st, t);
    var step := ExecStop(c0, room, st);
    SkipMove(c0, s, st.p, st.d);
    MarkIsNoJump(c0, st.p);
    if (!matched || Peek(c0, st.p - 2) == START_MEMORY) && st.p + 3 < |c0| && LoopExit(c0, st.p, reg).Some? {
      ExitPlaces(alts, s, pos, st);
      LoopExitIs(c0, st.p, reg);
      var q := LoopExit(c0, st.p, reg).value;
      RestingPushed(alts, s, pos, t, room, Some(q), Some(st.d));
    } else {
      StandOn(alts, s, pos, st, t.(p := st.p + 3));
      StandsFrom(alts, s, pos, st, step);
    }
  }

  lemma LoopExitIs(c: Code, p: int, reg: int)
    requires LoopExit(c, p, reg).Some?
    ensures var t := p + 6 + Argument(c, p + 4);
      Argument(c, p + 4) < 0 && Peek(c, t) == ON_FAILURE_JUMP && LoopExit(c, p, reg) == Some(JumpsTo(c, t)) && IsJump(Peek(c, p + 3))
  {
  }

  lemma StandFailure(alts: Alts, s: Text, pos: nat, st: State, room: Room)
    requires Standing(alts, s, pos, st) && st.p < |AltBytes(alts)| && AltBytes(alts)[st.p] == ON_FAILURE_JUMP
    ensures Stands(alts, s, pos, ExecFailureJump(AltBytes(alts), room, st))
  {
    hide Standing, Resting, AltBytes, IsAltStart, Place, Move, Pushed, Covered;
    StandingParts(alts, s, pos, st);
    var c0, p1 := AltBytes(alts), st.p + 3;
    var t :=
      if Peek(c0, p1) == START_MEMORY then
        st.(high := Peek(c0, p1 + 1) + Peek(c0, p1 + 2), low := if st.low == NO_LOWEST_ACTIVE_REG then Peek(c0, p1 + 1) else st.low)
      else st;
    RestingSame(alts, s, pos, st, t);
    FailurePlaces(alts, s, pos, st);
    RestingPushed(alts, s, pos, t, room, Some(JumpsTo(c0, st.p)), Some(st.d));
    match Pushed(room, t, Some(JumpsTo(c0, st.p)), Some(st.d))
    case None =>
    case Some(u) =>
      RestingSame(alts, s, pos, u, u.(p := p1));
      StandingFrom(alts, s, pos, u.(p := p1));
  }

  /** Both ways of a failure jump, the nearer one with one more failure point. */
  lemma FailurePlaces(alts: Alts, s: Text, pos: nat, st: State)
    requires Standing(alts, s, pos, st) && st.p < |AltBytes(alts)| && AltBytes(alts)[st.p] == ON_FAILURE_JUMP
    ensures var q := JumpsTo(AltBytes(alts), st.p);
      && Place(alts, s, pos, q, st.d) && Covered(alts, q, |st.stack|)
      && Place(alts, s, pos, st.p + 3, st.d) && Covered(alts, st.p + 3, |st.stack| + 1)
  {
    hide AltBytes, IsAltStart, Reaches, Move, AltDepth, Fits, Rewritten, Standing, GoodStack;
    var c0 := AltBytes(alts);
    StandingParts(alts, s, pos, st);
    IsProgram(alts);
    FitsJump(c0, st.p);
    FailureMove(c0, s, st.p, st.d);
    NextPlace(alts, c0, s, pos, st.p, st.d, st.p + 3, st.d);
    var e := st.p + 3 + Argument(c0, st.p + 1);
    NextPlace(alts, c0, s, pos, st.p, st.d, e, st.d);
    PlaceRange(alts, s, pos, e, st.d);
  }

  /** A jump leads to a place, and `maybe_pop_jump` finds the failure point of its loop. */
  lemma JumpPlaces(alts: Alts, s: Text, pos: nat, st: State)
    requires Standing(alts, s, pos, st) && st.p < |AltBytes(alts)| && IsJump(AltBytes(alts)[st.p])
    ensures var c0, q := AltBytes(alts), JumpsTo(AltBytes(alts), st.p);
      && Place(alts, s, pos, q, st.d) && st.p + 2 < |c0|
      && (if c0[st.p] == DUMMY_FAILURE_JUMP then Covered(alts, q, |st.stack| + 1) else Covered(alts, q, |st.stack|))
      && (c0[st.p] == MAYBE_POP_JUMP ==> st.stack != [] && Covered(alts, q, |st.stack| - 1))
      && c0[st.p] != POP_FAILURE_JUMP && c0[st.p] != JUMP
  {
    hide AltBytes, IsAltStart, Reaches, Move, AltDepth, Fits, Rewritten, Standing, GoodStack;
    var c0 := AltBytes(alts);
    StandingParts(alts, s, pos, st);
    IsProgram(alts);
    FitsJump(c0, st.p);
    JumpMove(c0, s, st.p, st.d);
    var e := st.p + 3 + Argument(c0, st.p + 1);
    NextPlace(alts, c0, s, pos, st.p, st.d, e, st.d);
    PlaceRange(alts, s, pos, e, st.d);
    NoPopJump(alts, st.p);
  }

  lemma StandJump(alts: Alts, s: Text, pos: nat, st: State, pop: bool)
    requires Standing(alts, s, pos, st) && st.p < |AltBytes(alts)| && IsJump(AltBytes(alts)[st.p]) && AltBytes(alts)[st.p] != DUMMY_FAILURE_JUMP
    requires pop ==> AltBytes(alts)[st.p] == MAYBE_POP_JUMP
    ensures Stands(alts, s, pos, ExecJump(AltBytes(alts), st, pop))
  {
    hide Standing, Resting, AltBytes, IsAltStart, Place, Covered;
    StandingParts(alts, s, pos, st);
    JumpPlaces(alts, s, pos, st);
    var step := ExecJump(AltBytes(alts), st, pop);
    if pop {
      RestingPopped(alts, s, pos, st, step.next);
    } else {
      RestingSame(alts, s, pos, st, step.next);
    }
    StandingFrom(alts, s, pos, step.next);
  }

  lemma StandDummy(alts: Alts, s: Text, pos: nat, st: State, room: Room, next: nat)
    requires Standing(alts, s, pos, st) && Place(alts, s, pos, next, st.d) && Covered(alts, next, |st.stack| + 1)
    ensures Stands(alts, s, pos, ExecDummy(room, st, next))
  {
    hide Standing, Resting, AltBytes, IsAltStart, Place, Covered, Pushed;
    StandingParts(alts, s, pos, st);
    RestingPushed(alts, s, pos, st, room, Option.None, Option.None);
    match Pushed(room, st, Option.None, Option.None)
    case None =>
    case Some(u) =>
      RestingSame(alts, s, pos, u, u.(p := next));
      StandingFrom(alts, s, pos, u.(p := next));
  }

  /** A command leads from place to place. */
  lemma ExecStands(alts: Alts, s: Text, pos: nat, st: State, room: Room)
    requires Standing(alts, s, pos, st) && st.p < |AltBytes(alts)|
    ensures Stands(alts, s, pos, Exec(AltBytes(alts), s, room, st))
  {
    hide *;
    StandingParts(alts, s, pos, st);
    var c0 := AltBytes(alts);
    ExecBy(c0, s, room, st);
    OpcodeCases(c0, st.p);
    var op := c0[st.p];
    if op == EXACTN {
      StandExact(alts, s, pos, st);
    } else if op == ANYCHAR {
      StandAny(alts, s, pos, st);
    } else if op == START_MEMORY {
      StandStart(alts, s, pos, st);
    } else if op == STOP_MEMORY {
      StandStop(alts, s, pos, st, room);
    } else if op == ON_FAILURE_JUMP {
      StandFailure(alts, s, pos, st, room);
    } else if op == PUSH_DUMMY_FAILURE {
      DummyMove(c0, s, st.p, st.d);
      MarkIsNoJump(c0, st.p);
      StandOn(alts, s, pos, st, st.(p := st.p + 1));
      StandingParts(alts, s, pos, st.(p := st.p + 1));
      CoveredMore(alts, st.p + 1, |st.stack|);
      StandDummy(alts, s, pos, st, room, st.p + 1);
    } else {
      JumpPlaces(alts, s, pos, st);
      if op == DUMMY_FAILURE_JUMP {
        StandDummy(alts, s, pos, st, room, JumpsTo(c0, st.p));
      } else if op == MAYBE_POP_JUMP {
        StandJump(alts, s, pos, st, Pops(c0, st.p));
      } else {
        StandJump(alts, s, pos, st, false);
      }
    }
  }

  lemma OpcodeCases(c: Code, p: int)
    requires Fits(c, p)
    ensures 0 <= p < |c|
    ensures c[p] == EXACTN || c[p] == ANYCHAR || c[p] == START_MEMORY || c[p] == STOP_MEMORY || c[p] == ON_FAILURE_JUMP || c[p] == PUSH_DUMMY_FAILURE || IsJump(c[p])
    ensures IsJump(c[p]) <==> c[p] == JUMP || c[p] == JUMP_PAST_ALT || c[p] == POP_FAILURE_JUMP || c[p] == MAYBE_POP_JUMP || c[p] == DUMMY_FAILURE_JUMP
  {
  }

  lemma ExecBy(c0: Code, s: Text, room: Room, st: State)
    requires 0 <= st.p < |c0|
    ensures var op := c0[st.p];
      && (op == EXACTN ==> Exec(c0, s, room, st) == ExecExact(c0, s, st))
      && (op == ANYCHAR ==> Exec(c0, s, room, st) == ExecAny(s, st))
      && (op == START_MEMORY ==> Exec(c0, s, room, st) == ExecStart(c0, st))
      && (op == STOP_MEMORY ==> Exec(c0, s, room, st) == ExecStop(c0, room, st))
      && (op == ON_FAILURE_JUMP ==> Exec(c0, s, room, st) == ExecFailureJump(c0, room, st))
      && (op == MAYBE_POP_JUMP ==> Exec(c0, s, room, st) == ExecJump(c0, st, Pops(c0, st.p)))
      && (op == DUMMY_FAILURE_JUMP ==> Exec(c0, s, room, st) == ExecDummy(room, st, JumpsTo(c0, st.p)))
      && (op == PUSH_DUMMY_FAILURE ==> Exec(c0, s, room, st) == ExecDummy(room, st, st.p + 1))
      && (op == JUMP || op == JUMP_PAST_ALT || op == POP_FAILURE_JUMP ==> Exec(c0, s, room, st) == ExecJump(c0, st, op == POP_FAILURE_JUMP))
  {
    hide Pops, ExecExact, ExecAny, ExecStart, ExecStop, ExecFailureJump, ExecJump, ExecDummy;
  }

  /** A failure point leads back to a place. */
  lemma {:induction false} BackStands(alts: Alts, s: Text, pos: nat, st: State)
    requires Resting(alts, s, pos, st)
    ensures Back(AltBytes(alts), st).Some? ==> Standing(alts, s, pos, Back(AltBytes(alts), st).value)
    decreases |st.stack|
  {
    hide AltBytes, Place, Covered, GoodStack, JumpsBack, Back, Laid;
    if st.stack == [] {
      BackEnd(AltBytes(alts), st);
    } else {
      var n := |st.stack| - 1;
      var f := st.stack[n];
      BackStep(AltBytes(alts), st);
      PopKeepsStack(alts, s, pos, st.stack);
      var t := State(if f.pattern.Some? then f.pattern.value else st.p, if f.str.Some? then f.str.value else st.d, st.stack[..n],
        f.low, f.high, st.regs + f.saved, st.best);
      BackStands(alts, s, pos, t);
    }
  }

  /** At the end of the program, what has been read is denoted. */
  lemma ReportSound(alts: Alts, s: Text, pos: nat, e: nat)
    requires Laid(alts) && Place(alts, s, pos, |AltBytes(alts)|, e)
    ensures pos <= e <= |s| && Denotes(MeansAlts(alts), s[pos..e]) && Report(Some(e), pos) == Matched(e - pos)
  {
    hide Place, Denotes, AltBytes;
    EndPlace(alts, s, pos, e);
  }

  ghost predicate Right(alts: Alts, s: Text, pos: nat, r: Result) {
    r.Matched? ==> pos + r.length <= |s| && Denotes(MeansAlts(alts), s[pos..pos + r.length])
  }

  lemma ReportRight(alts: Alts, s: Text, pos: nat, best: Option<nat>)
    requires Laid(alts) && (best.Some? ==> Place(alts, s, pos, |AltBytes(alts)|, best.value))
    ensures Right(alts, s, pos, Report(best, pos))
  {
    hide Place, Denotes, AltBytes;
    if best.Some? {
      ReportSound(alts, s, pos, best.value);
    }
  }

  lemma RestingParts(alts: Alts, s: Text, pos: nat, st: State)
    requires Resting(alts, s, pos, st)
    ensures Laid(alts) && (st.best.Some? ==> Place(alts, s, pos, |AltBytes(alts)|, st.best.value))
  {
  }

  /** A new best match. */
  lemma RestingBest(alts: Alts, s: Text, pos: nat, st: State)
    requires Standing(alts, s, pos, st) && st.p == |AltBytes(alts)|
    ensures Resting(alts, s, pos, st.(best := Some(st.d)))
  {
    hide Place, Covered, GoodStack;
  }

  lemma RightOf(alts: Alts, s: Text, pos: nat, r: Result)
    ensures !r.Matched? ==> Right(alts, s, pos, r)
  {
  }

  /** Whatever the course reports as matched is denoted by the pattern. */
  lemma {:induction false} CourseRight(alts: Alts, s: Text, pos: nat, st: State, room: Room, steps: nat)
    requires Standing(alts, s, pos, st)
    ensures Right(alts, s, pos, Course(AltBytes(alts), s, room, pos, st, steps))
    decreases steps, 2
  {
    hide *;
    var c0 := AltBytes(alts);
    StandingParts(alts, s, pos, st);
    RestingParts(alts, s, pos, st);
    RightOf(alts, s, pos, OutOfSteps);
    RightOf(alts, s, pos, OutOfMemory);
    if steps == 0 {
      CourseOver(c0, s, room, pos, st);
    } else if st.p == |c0| {
      CourseAtEnd(c0, s, room, pos, st, steps);
      ReportRight(alts, s, pos, Some(st.d));
      ReportRight(alts, s, pos, st.best);
      RestingBest(alts, s, pos, st);
      FailRight(alts, s, pos, st.(best := Some(st.d)), room, steps - 1);
      FailRight(alts, s, pos, st, room, steps - 1);
    } else {
      CourseAtCommand(c0, s, room, pos, st, steps);
      ExecStands(alts, s, pos, st, room);
      var step := Exec(c0, s, room, st);
      StandsParts(alts, s, pos, step);
      if step.out == Go {
        CourseRight(alts, s, pos, step.next, room, steps - 1);
      } else {
        FailRight(alts, s, pos, step.next, room, steps - 1);
      }
    }
  }

  lemma StandsParts(alts: Alts, s: Text, pos: nat, step: Step)
    requires Stands(alts, s, pos, step)
    ensures Resting(alts, s, pos, step.next) && (step.out == Go ==> Standing(alts, s, pos, step.next))
  {
  }

  lemma {:induction false} FailRight(alts: Alts, s: Text, pos: nat, st: State, room: Room, steps: nat)
    requires Resting(alts, s, pos, st)
    ensures Right(alts, s, pos, FailOn(AltBytes(alts), s, room, pos, st, steps))
    decreases steps, 3
  {
    hide *;
    CourseFails(AltBytes(alts), s, room, pos, st, steps);
    RestingParts(alts, s, pos, st);
    BackStands(alts, s, pos, st);
    if Back(AltBytes(alts), st).Some? {
      CourseRight(alts, s, pos, Back(AltBytes(alts), st).value, room, steps);
    } else {
      ReportRight(alts, s, pos, st.best);
    }
  }

  lemma BeginStands(alts: Alts, s: Text, pos: nat)
    requires Laid(alts) && pos <= |s|
    ensures Standing(alts, s, pos, Begin(pos))
  {
    IsProgram(alts);
    StartPlace(alts, AltBytes(alts), s, pos);
  }

  /** A verdict of a match is right. */
  lemma VerdictRight(alts: Alts, s: Text, room: Room, start: int, steps: nat)
    requires Laid(alts)
    ensures var r := Verdict(AltBytes(alts), s, room, start, steps);
      r.Matched? ==> 0 <= start && start + r.length <= |s| && Denotes(MeansAlts(alts), s[start..start + r.length])
  {
    hide Course, Denotes, AltBytes, Standing, Laid;
    if 0 <= start <= |s| {
      BeginStands(alts, s, start);
      CourseRight(alts, s, start, Begin(start), room, steps);
    }
  }
}
