/** The one jump of a program that goes nowhere and ends the code: behind the alternatives when the last
    of them is empty. */
module RegexIdle {
  import opened Wrappers
  import opened RegexLanguage
  import opened RegexText
  import opened RegexCode
  import opened RegexMeaning
  import opened RegexLoops
  import opened RegexPlaces

  /** There are several alternatives, and the last one leaves no code. */
  predicate EmptyEnd(alts: Alts) {
    alts.front.More? && Bytes(alts.last) == []
  }

  /** A jump to the place behind it stands at p and ends the code. */
  predicate EndsIdle(c: Code, p: int) {
    p + 3 == |c| && Fits(c, p) && IsJump(c[p]) && Number(c, p + 1) == 0
  }

  /** Such a jump ends the code exactly when the last of several alternatives is empty. */
  lemma EmptyEndIsIdle(alts: Alts, p: int)
    requires WellFormedAlts(alts) && |AltBytes(alts)| < REACH
    ensures IsAltStart(alts, p) && EndsIdle(AltBytes(alts), p) <==> EmptyEnd(alts) && p == |FrontBytes(alts.front)|
  {
    hide AltBytes, IsAltStart, EndsIdle;
    if IsAltStart(alts, p) && EndsIdle(AltBytes(alts), p) {
      IdleIsPast(alts, p);
    }
    if EmptyEnd(alts) && p == |FrontBytes(alts.front)| {
      PastIsIdle(alts);
    }
  }

  lemma PastIsIdle(alts: Alts)
    requires EmptyEnd(alts) && |AltBytes(alts)| < REACH
    ensures var p := |FrontBytes(alts.front)|; IsAltStart(alts, p) && EndsIdle(AltBytes(alts), p) && AltBytes(alts)[p] == JUMP_PAST_ALT
  {
    hide AltBytes, IsAltStart, Fits;
    var c, p := AltBytes(alts), |FrontBytes(alts.front)|;
    AtAll(c);
    AltsShape(alts, c, 0, p);
    PastIsForward(c, p, 0);
  }

  lemma IdleIsPast(alts: Alts, p: int)
    requires WellFormedAlts(alts) && |AltBytes(alts)| < REACH && IsAltStart(alts, p) && EndsIdle(AltBytes(alts), p)
    ensures EmptyEnd(alts) && p == |FrontBytes(alts.front)|
  {
    hide *;
    var c := AltBytes(alts);
    AtAll(c);
    IdleOpcode(alts, p);
    if alts.front.None? {
      SingleShape(alts, p);
      Backward(alts.last, c, 0, p);
      IdleIsNot(c, p, IsLoop(alts.last, Target(c, p), p));
    } else {
      AltsShape(alts, c, 0, p);
      var k, L := |FrontBytes(alts.front)|, |Bytes(alts.last)|;
      if IsFrontStart(alts.front, p) {
        BackwardFront(alts.front, c, 0, p);
        IdleIsNot(c, p, IsFrontLoop(alts.front, Target(c, p), p));
      } else if p == k {
        PastIsForward(c, p, L);
        EmptyEndIs(alts);
      } else {
        Backward(alts.last, c, k + 3, p - k - 3);
        IdleIsNot(c, p, IsLoop(alts.last, Target(c, p) - k - 3, p - k - 3));
      }
    }
  }

  lemma IdleOpcode(alts: Alts, p: int)
    requires WellFormedAlts(alts) && |AltBytes(alts)| < REACH && IsAltStart(alts, p) && EndsIdle(AltBytes(alts), p)
    ensures var c := AltBytes(alts); p + 3 == |c| && Fits(c, p) && c[p] == JUMP_PAST_ALT && Number(c, p + 1) == 0
  {
    hide AltBytes, IsAltStart, IsAltLoop, Fits;
    var c := AltBytes(alts);
    AtAll(c);
    NoPopJump(alts, p);
    BackwardAlts(alts, c, 0, p);
    if IsAltLoop(alts, p + 3, p) {
      AltLoopRange(alts, p + 3, p);
    }
  }

  /** A jump with distance 0 has a dummy failure behind it, elsewhere in the code. */
  lemma IdleIsNot(c: Code, p: int, looped: bool)
    requires p + 3 == |c| && Fits(c, p) && c[p] == JUMP_PAST_ALT && Number(c, p + 1) == 0
    ensures !BackIsLoop(c, p, looped, DummyAt(c, p + 3))
  {
  }

  /** The jump is come to without reading exactly when some alternative before the last matches nothing. */
  lemma FrontReached(alts: Alts)
    requires WellFormedAlts(alts) && |AltBytes(alts)| < REACH && EmptyEnd(alts)
    ensures Reaches(AltBytes(alts), [], 0, 0, |FrontBytes(alts.front)|, 0) <==> Denotes(MeansFront(alts.front), [])
  {
    hide *;
    var c, front := AltBytes(alts), alts.front;
    var k := |FrontBytes(front)|;
    EmptyEndIs(alts);
    AtAll(c);
    AltsShape(alts, c, 0, 0);
    var none: Text := [];
    assert none[0..0] == none;
    if Denotes(MeansFront(front), []) {
      CompleteFront(front, c, 0, [], 0, 0);
    }
    if Reaches(c, [], 0, 0, k, 0) {
      var n := ReachesRuns(c, [], 0, 0, k, 0);
      var m, d1, done := ThroughFront(front, c, 0, [], 0, k, 0, n);
      FrontEnds(front, c);
      if done {
        PassedNothing(c, k, MeansFront(front), k, n, m, d1);
      } else {
        Stuck(c, [], 0, k, 0, n - m);
      }
    }
  }

  lemma PassedNothing(c: Code, o: int, r: Regex, q: int, n: nat, m: nat, d1: int)
    requires Passed(c, [], o, r, 0, q, 0, n, m, d1)
    ensures Denotes(r, [])
  {
    hide Denotes, Runs;
    var none: Text := [];
    assert d1 == 0 && none[0..0] == none;
  }

  lemma FrontEnds(front: Front, c: Code)
    requires WellFormedFront(front) && front.More? && At(c, 0, FrontBytes(front)) && |c| < REACH
    ensures !IsFrontStart(front, |FrontBytes(front)|)
  {
    hide *;
    if IsFrontStart(front, |FrontBytes(front)|) {
      FrontStartFits(front, c, 0, |FrontBytes(front)|);
    }
  }

  lemma EmptyEndIs(alts: Alts)
    ensures EmptyEnd(alts) <==> alts.front.More? && Bytes(alts.last) == []
  {
  }

  // ---- the shortest such pattern ----

  const GROUP := Group(1, 0, Alts(Front.None, Nothing))
  /** `()|` and `()|a*`, as text and as laid out. */
  const IDLE_TEXT: Text := [OPEN, CLOSE, BAR]
  const IDLE := Alts(More(Front.None, GROUP), Nothing)
  const LOOPED := Alts(More(Front.None, GROUP), Again(Exact(['a' as int]), true, true))

  /** The code of `()|` ends in a jump of distance 0 that is come to without reading.  In a buffer that
      held `()|a*` before, an `on_failure_jump` stands behind it. */
  lemma IdlePattern()
    ensures WellFormedAlts(IDLE) && EmptyEnd(IDLE) && Denotes(MeansFront(IDLE.front), [])
    ensures Read(IDLE_TEXT).Some? && Same(MeansAlts(IDLE), Read(IDLE_TEXT).value)
    ensures AltBytes(IDLE) == [ON_FAILURE_JUMP, 9, 0, START_MEMORY, 1, 0, STOP_MEMORY, 1, 0, JUMP_PAST_ALT, 0, 0]
    ensures WellFormedAlts(LOOPED) && |AltBytes(LOOPED)| > |AltBytes(IDLE)| && AltBytes(LOOPED)[|AltBytes(IDLE)|] == ON_FAILURE_JUMP
  {
    IdleMeans();
    assert Bytes(GROUP) == [START_MEMORY, 1, 0, STOP_MEMORY, 1, 0];
    assert FrontBytes(IDLE.front) == [ON_FAILURE_JUMP, 9, 0] + Bytes(GROUP);
    assert Bytes(Exact(['a' as int])) == [EXACTN, 1, 'a' as int];
    assert Bytes(LOOPED.last) == Jump(ON_FAILURE_JUMP, 6) + [EXACTN, 1, 'a' as int] + Jump(MAYBE_POP_JUMP, -9);
  }

  lemma IdleMeans()
    ensures Read(IDLE_TEXT).Some? && Same(MeansAlts(IDLE), Read(IDLE_TEXT).value) && Denotes(MeansFront(IDLE.front), [])
  {
    assert IDLE_TEXT[..2] == [OPEN, CLOSE] && IDLE_TEXT[..2][..1] == [OPEN] && [OPEN][..0] == [];
    assert Steps([START], []) == [START];
    assert Steps([START], [OPEN]) == [START, START];
    assert Steps([START], [OPEN, CLOSE]) == [START.Piece(Empty)];
    assert Steps([START], IDLE_TEXT) == [Level(Some(Cat(Empty, Empty)), Empty, Option.None)];
    var r := Or(Cat(Empty, Empty), Empty);
    forall w: Text {:trigger Denotes(r, w)}
      ensures Denotes(r, w) <==> Denotes(MeansAlts(IDLE), w)
    {
      if w == [] {
        CatOf(Empty, Empty, [], []);
      } else if Denotes(Cat(Empty, Empty), w) {
        var i := CatSplit(Empty, Empty, w);
      }
    }
  }
}
