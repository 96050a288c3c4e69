/** The code laid out for a piece of pattern does exactly what the piece means. */
module RegexMeaning {
  import opened RegexLanguage
  import opened RegexCode

  /** An instruction of f starts x bytes into its code. */
  predicate IsStart(f: Frag, x: int)
    decreases f, 1
  {
    match f
    case Nothing => false
    case Exact(_) => x == 0
    case AnyChar => x == 0
    case Dummy => x == 0
    case Then(a, b) => IsStart(a, x) || IsStart(b, x - |Bytes(a)|)
    case Again(b, zero, many) =>
      if zero then IsLoopStart(b, many, x) else x == 0 || IsLoopStart(b, many, x - 3)
    case Group(reg, inner, alts) =>
      var m := |Memory(START_MEMORY, reg, inner)|;
      (m > 0 && x == 0) || IsAltStart(alts, x - m) || IsEndStart(reg, inner, alts.front.None?, x - m - |AltBytes(alts)|)
  }

  predicate IsEndStart(reg: nat, inner: Byte, single: bool, x: int) {
    if single then reg <= MAX_REGNUM && x == 0 else x == 0 || (reg <= MAX_REGNUM && x == 1)
  }

  predicate IsLoopStart(body: Frag, many: bool, x: int)
    decreases body, 2
  {
    x == 0 || IsStart(body, x - 3) || (many && x == |Bytes(body)| + 3)
  }

  predicate IsFrontStart(front: Front, x: int)
    decreases front, 1
  {
    match front
    case None => false
    case More(before, branch) =>
      var k := if before.None? then 0 else |FrontBytes(before)| + 3;
      (before.More? && (IsFrontStart(before, x) || x == k - 3)) || x == k || IsStart(branch, x - k - 3)
  }

  predicate IsAltStart(alts: Alts, x: int)
    decreases alts, 1
  {
    if alts.front.None? then IsStart(alts.last, x)
    else
      var k := |FrontBytes(alts.front)|;
      IsFrontStart(alts.front, x) || x == k || IsStart(alts.last, x - k - 3)
  }

  // ---- single instructions ----

  lemma JumpMoves(c: Code, s: Text, o: int, op: Byte, n: int, d: int, q: int, e: int)
    requires At(c, o, Jump(op, n)) && -REACH <= n < REACH && 0 <= d <= |s|
    ensures IsJump(op) ==> (Move(c, s, o, d, q, e) <==> q == o + 3 + n && e == d)
    ensures op == ON_FAILURE_JUMP ==> (Move(c, s, o, d, q, e) <==> (q == o + 3 || q == o + 3 + n) && e == d)
  {
    AtJump(c, o, op, n);
  }

  lemma MemoryMoves(c: Code, s: Text, o: int, op: Byte, reg: nat, inner: Byte, d: int, q: int, e: int)
    requires At(c, o, Memory(op, reg, inner)) && reg <= MAX_REGNUM && 0 <= d <= |s|
    requires op == START_MEMORY || op == STOP_MEMORY
    ensures Move(c, s, o, d, q, e) <==> q == o + 3 && e == d
  {
    AtByte(c, o, Memory(op, reg, inner), 0);
    AtByte(c, o, Memory(op, reg, inner), 2);
  }

  lemma DummyMoves(c: Code, s: Text, o: int, d: int, q: int, e: int)
    requires At(c, o, [PUSH_DUMMY_FAILURE]) && 0 <= d <= |s|
    ensures Move(c, s, o, d, q, e) <==> q == o + 1 && e == d
  {
    AtByte(c, o, [PUSH_DUMMY_FAILURE], 0);
  }

  lemma AnyMoves(c: Code, s: Text, o: int, d: int, q: int, e: int)
    requires At(c, o, [ANYCHAR]) && 0 <= d <= |s|
    ensures Move(c, s, o, d, q, e) <==> q == o + 1 && d < e <= |s| && e == d + 1 && Denotes(Any, s[d..e])
  {
    AtByte(c, o, [ANYCHAR], 0);
  }

  lemma ExactMoves(c: Code, s: Text, o: int, chars: Text, d: int, q: int, e: int)
    requires At(c, o, Bytes(Exact(chars))) && WellFormed(Exact(chars)) && 0 <= d <= |s|
    ensures Move(c, s, o, d, q, e) <==> q == o + 2 + |chars| && d <= e <= |s| && e == d + |chars| && s[d..e] == chars
  {
    var bs := [EXACTN, |chars|] + chars;
    AtByte(c, o, bs, 0);
    AtByte(c, o, bs, 1);
    AtParts(c, o, [EXACTN, |chars|], chars);
  }

  // ---- every run through a piece has matched it ----

  /** m of the n steps led to place o' with s[d..d1] matched by r. */
  ghost predicate Passed(c: Code, s: Text, o': int, r: Regex, d: int, q: int, e: int, n: nat, m: nat, d1: int) {
    m <= n && 0 <= d <= d1 <= |s| && Denotes(r, s[d..d1]) && Runs(c, s, o', d1, q, e, n - m)
  }

  lemma JoinTexts(s: Text, i: int, j: int, k: int)
    requires 0 <= i <= j <= k <= |s|
    ensures s[i..j] + s[j..k] == s[i..k]
  {
  }

  lemma PassedCat(c: Code, s: Text, o1: int, o2: int, r1: Regex, r2: Regex, d: int, q: int, e: int, n: nat, m1: nat, d1: int, m2: nat, d2: int)
    requires Passed(c, s, o1, r1, d, q, e, n, m1, d1) && Passed(c, s, o2, r2, d1, q, e, n - m1, m2, d2)
    ensures Passed(c, s, o2, Cat(r1, r2), d, q, e, n, m1 + m2, d2)
  {
    hide Denotes, Runs;
    JoinTexts(s, d, d1, d2);
    CatOf(r1, r2, s[d..d1], s[d1..d2]);
  }

  lemma PassedRound(c: Code, s: Text, o1: int, o2: int, r: Regex, d: int, q: int, e: int, n: nat, m1: nat, d1: int, m2: nat, d2: int)
    requires Passed(c, s, o1, r, d, q, e, n, m1, d1) && m1 < n && Passed(c, s, o2, Star(r), d1, q, e, n - m1 - 1, m2, d2)
    ensures Passed(c, s, o2, Star(r), d, q, e, n, m1 + 1 + m2, d2)
    ensures Passed(c, s, o2, Cat(r, Star(r)), d, q, e, n, m1 + 1 + m2, d2)
  {
    hide Denotes, Runs;
    JoinTexts(s, d, d1, d2);
    StarOf(r, s[d..d1], s[d1..d2]);
    CatOf(r, Star(r), s[d..d1], s[d1..d2]);
  }

  /** A step before changes nothing but the count. */
  lemma PassedAfterStep(c: Code, s: Text, o: int, r: Regex, d: int, q: int, e: int, n: nat, m: nat, d1: int)
    requires n > 0 && Passed(c, s, o, r, d, q, e, n - 1, m, d1)
    ensures Passed(c, s, o, r, d, q, e, n, m + 1, d1)
  {
  }

  lemma PassedEmpty(c: Code, s: Text, o: int, d: int, q: int, e: int, n: nat)
    requires 0 <= d <= |s| && Runs(c, s, o, d, q, e, n)
    ensures Passed(c, s, o, Empty, d, q, e, n, 0, d) && forall r :: Passed(c, s, o, Star(r), d, q, e, n, 0, d)
  {
  }

  lemma PassedOr(c: Code, s: Text, o: int, a: Regex, b: Regex, d: int, q: int, e: int, n: nat, m: nat, d1: int)
    requires Passed(c, s, o, a, d, q, e, n, m, d1) || Passed(c, s, o, b, d, q, e, n, m, d1)
    ensures Passed(c, s, o, Or(a, b), d, q, e, n, m, d1)
  {
  }

  lemma {:induction false} Through(f: Frag, c: Code, o: int, s: Text, d: int, q: int, e: int, n: nat) returns (m: nat, d1: int)
    requires WellFormed(f) && At(c, o, Bytes(f)) && |c| < REACH && 0 <= d <= |s| && Runs(c, s, o, d, q, e, n)
    ensures IsStart(f, q - o) || Passed(c, s, o + |Bytes(f)|, Means(f), d, q, e, n, m, d1)
    decreases f, n, 1
  {
    hide *;
    m, d1 := 0, d;
    LeafShape(f, q - o);
    match f
    case Nothing => PassedEmpty(c, s, o, d, q, e, n);
    case Exact(chars) => m, d1 := ThroughExact(chars, c, o, s, d, q, e, n);
    case AnyChar => m, d1 := ThroughAny(c, o, s, d, q, e, n);
    case Dummy => m, d1 := ThroughDummy(c, o, s, d, q, e, n);
    case Then(a, b) => m, d1 := ThroughThen(a, b, c, o, s, d, q, e, n);
    case Again(b, zero, many) =>
      if zero {
        m, d1 := ThroughLoop(b, many, c, o, s, d, q, e, n);
      } else {
        m, d1 := ThroughPlus(b, c, o, s, d, q, e, n);
      }
    case Group(reg, inner, alts) => m, d1 := ThroughGroup(reg, inner, alts, c, o, s, d, q, e, n);
  }

  lemma LeafShape(f: Frag, x: int)
    ensures f.Nothing? ==> |Bytes(f)| == 0 && Means(f) == Empty
    ensures f.Exact? ==> Means(f) == Word(f.chars) && IsStart(f, x) == (x == 0)
    ensures f.AnyChar? ==> Bytes(f) == [ANYCHAR] && Means(f) == Any && IsStart(f, x) == (x == 0)
    ensures f.Dummy? ==> Bytes(f) == [PUSH_DUMMY_FAILURE] && Means(f) == Empty && IsStart(f, x) == (x == 0)
    ensures f.Again? ==> Means(f) == Rep(Means(f.body), f.zero, f.many) && (WellFormed(f) ==> WellFormed(f.body) && (f.zero || f.many))
    ensures f.Again? && f.zero ==> Bytes(f) == LoopBytes(Bytes(f.body), f.many) && IsStart(f, x) == IsLoopStart(f.body, f.many, x)
    ensures f.Group? ==> Means(f) == MeansAlts(f.alts) && (WellFormed(f) ==> WellFormedAlts(f.alts))
  {
    if f.Again? && f.zero {
      assert [] + LoopBytes(Bytes(f.body), f.many) == LoopBytes(Bytes(f.body), f.many);
    }
  }

  lemma ThenShape(a: Frag, b: Frag, c: Code, o: int, x: int)
    ensures Means(Then(a, b)) == Cat(Means(a), Means(b)) && |Bytes(Then(a, b))| == |Bytes(a)| + |Bytes(b)|
    ensures IsStart(Then(a, b), x) == (IsStart(a, x) || IsStart(b, x - |Bytes(a)|))
    ensures At(c, o, Bytes(Then(a, b))) ==> At(c, o, Bytes(a)) && At(c, o + |Bytes(a)|, Bytes(b))
    ensures WellFormed(Then(a, b)) ==> WellFormed(a) && WellFormed(b)
  {
    if At(c, o, Bytes(Then(a, b))) {
      AtParts(c, o, Bytes(a), Bytes(b));
    }
  }

  lemma {:induction false} ThroughThen(a: Frag, b: Frag, c: Code, o: int, s: Text, d: int, q: int, e: int, n: nat) returns (m: nat, d1: int)
    requires WellFormed(Then(a, b)) && At(c, o, Bytes(Then(a, b))) && |c| < REACH && 0 <= d <= |s| && Runs(c, s, o, d, q, e, n)
    ensures IsStart(Then(a, b), q - o) || Passed(c, s, o + |Bytes(Then(a, b))|, Means(Then(a, b)), d, q, e, n, m, d1)
    decreases Then(a, b), n, 0
  {
    hide *;
    ThenShape(a, b, c, o, q - o);
    m, d1 := Through(a, c, o, s, d, q, e, n);
    if !IsStart(a, q - o) {
      var o1 := o + |Bytes(a)|;
      PassedFacts(c, s, o1, Means(a), d, q, e, n, m, d1);
      var m2, d2 := Through(b, c, o1, s, d1, q, e, n - m);
      if !IsStart(b, q - o1) {
        PassedCat(c, s, o1, o1 + |Bytes(b)|, Means(a), Means(b), d, q, e, n, m, d1, m2, d2);
      }
      m, d1 := m + m2, d2;
    }
  }

  lemma PassedFacts(c: Code, s: Text, o': int, r: Regex, d: int, q: int, e: int, n: nat, m: nat, d1: int)
    requires Passed(c, s, o', r, d, q, e, n, m, d1)
    ensures m <= n && 0 <= d <= d1 <= |s| && Runs(c, s, o', d1, q, e, n - m)
  {
  }

  lemma NoMove(c: Code, s: Text, p: int, d: int, q: int, e: int, n: nat)
    requires Runs(c, s, p, d, q, e, n) && n == 0
    ensures p == q && d == e
  {
  }

  lemma ThroughExact(chars: Text, c: Code, o: int, s: Text, d: int, q: int, e: int, n: nat) returns (m: nat, d1: int)
    requires WellFormed(Exact(chars)) && At(c, o, Bytes(Exact(chars))) && 0 <= d <= |s| && Runs(c, s, o, d, q, e, n)
    ensures q == o || Passed(c, s, o + |Bytes(Exact(chars))|, Word(chars), d, q, e, n, m, d1)
  {
    m, d1 := 0, d;
    if n > 0 {
      var q1, e1 := FirstMove(c, s, o, d, q, e, n);
      ExactMoves(c, s, o, chars, d, q1, e1);
      WordDenotes(chars, s[d..e1]);
      m, d1 := 1, e1;
    }
  }

  lemma ThroughAny(c: Code, o: int, s: Text, d: int, q: int, e: int, n: nat) returns (m: nat, d1: int)
    requires At(c, o, [ANYCHAR]) && 0 <= d <= |s| && Runs(c, s, o, d, q, e, n)
    ensures q == o || Passed(c, s, o + 1, Any, d, q, e, n, m, d1)
  {
    hide Move, Denotes;
    m, d1 := 0, d;
    if n > 0 {
      var q1, e1 := FirstMove(c, s, o, d, q, e, n);
      AnyMoves(c, s, o, d, q1, e1);
      m, d1 := 1, e1;
    }
  }

  lemma ThroughDummy(c: Code, o: int, s: Text, d: int, q: int, e: int, n: nat) returns (m: nat, d1: int)
    requires At(c, o, [PUSH_DUMMY_FAILURE]) && 0 <= d <= |s| && Runs(c, s, o, d, q, e, n)
    ensures q == o || Passed(c, s, o + 1, Empty, d, q, e, n, m, d1)
  {
    hide Move;
    m, d1 := 0, d;
    if n > 0 {
      var q1, e1 := FirstMove(c, s, o, d, q, e, n);
      DummyMoves(c, s, o, d, q1, e1);
      PassedEmpty(c, s, o + 1, d, q, e, n - 1);
      PassedAfterStep(c, s, o + 1, Empty, d, q, e, n, 0, d);
      m := 1;
    }
  }

  lemma ThroughMemory(c: Code, o: int, op: Byte, reg: nat, inner: Byte, s: Text, d: int, q: int, e: int, n: nat) returns (m: nat)
    requires At(c, o, Memory(op, reg, inner)) && 0 <= d <= |s| && Runs(c, s, o, d, q, e, n)
    requires op == START_MEMORY || op == STOP_MEMORY
    ensures (reg <= MAX_REGNUM && q == o) || (m <= n && Runs(c, s, o + |Memory(op, reg, inner)|, d, q, e, n - m))
  {
    hide Move;
    m := 0;
    if reg <= MAX_REGNUM && n > 0 {
      var q1, e1 := FirstMove(c, s, o, d, q, e, n);
      MemoryMoves(c, s, o, op, reg, inner, d, q1, e1);
      m := 1;
    }
  }

  lemma {:induction false} ThroughLoop(b: Frag, many: bool, c: Code, o: int, s: Text, d: int, q: int, e: int, n: nat) returns (m: nat, d1: int)
    requires WellFormed(b) && At(c, o, LoopBytes(Bytes(b), many)) && |c| < REACH && 0 <= d <= |s| && Runs(c, s, o, d, q, e, n)
    ensures IsLoopStart(b, many, q - o) || Passed(c, s, o + |LoopBytes(Bytes(b), many)|, Rep(Means(b), true, many), d, q, e, n, m, d1)
    decreases b, n, 2
  {
    hide *;
    var L := |Bytes(b)|;
    var end := o + |LoopBytes(Bytes(b), many)|;
    m, d1 := 0, d;
    LoopParts(c, o, Bytes(b), many);
    LoopShape(b, many, q - o);
    if n == 0 {
      NoMove(c, s, o, d, q, e, n);
    } else {
      var q1, e1 := FirstMove(c, s, o, d, q, e, n);
      JumpMoves(c, s, o, ON_FAILURE_JUMP, if many then L + 3 else L, d, q1, e1);
      if q1 == end {
        PassedEmpty(c, s, end, d, q, e, n - 1);
        PassedAfterStep(c, s, end, Empty, d, q, e, n, 0, d);
        PassedAfterStep(c, s, end, Star(Means(b)), d, q, e, n, 0, d);
        if !many {
          PassedOr(c, s, end, Empty, Means(b), d, q, e, n, 1, d);
        }
        m := 1;
      } else {
        var m1, e2 := Through(b, c, o + 3, s, d, q, e, n - 1);
        if !IsStart(b, q - (o + 3)) {
          PassedAfterStep(c, s, o + 3 + L, Means(b), d, q, e, n, m1, e2);
          PassedFacts(c, s, o + 3 + L, Means(b), d, q, e, n, m1 + 1, e2);
          if !many {
            PassedOr(c, s, end, Empty, Means(b), d, q, e, n, m1 + 1, e2);
            m, d1 := m1 + 1, e2;
          } else if n - m1 - 1 == 0 {
            NoMove(c, s, o + 3 + L, e2, q, e, 0);
          } else {
            var q3, e3 := FirstMove(c, s, o + 3 + L, e2, q, e, n - m1 - 1);
            JumpMoves(c, s, o + 3 + L, MAYBE_POP_JUMP, -(L + 6), e2, q3, e3);
            var m4, e4 := ThroughLoop(b, many, c, o, s, e2, q, e, n - m1 - 2);
            if !IsLoopStart(b, many, q - o) {
              PassedRound(c, s, o + 3 + L, end, Means(b), d, q, e, n, m1 + 1, e2, m4, e4);
            }
            m, d1 := m1 + 2 + m4, e4;
          }
        }
      }
    }
  }

  lemma LoopParts(c: Code, o: int, body: Code, many: bool)
    requires At(c, o, LoopBytes(body, many))
    ensures At(c, o, Jump(ON_FAILURE_JUMP, if many then |body| + 3 else |body|)) && At(c, o + 3, body)
    ensures many ==> At(c, o + 3 + |body|, Jump(MAYBE_POP_JUMP, -(|body| + 6)))
    ensures |LoopBytes(body, many)| == |body| + (if many then 6 else 3) && |LoopBytes(body, many)| <= |c|
  {
    hide Jump;
    if many {
      var u := Jump(ON_FAILURE_JUMP, |body| + 3);
      AtParts(c, o, u + body, Jump(MAYBE_POP_JUMP, -(|body| + 6)));
      AtParts(c, o, u, body);
    } else {
      AtParts(c, o, Jump(ON_FAILURE_JUMP, |body|), body);
    }
  }

  lemma PlusShape(b: Frag, c: Code, o: int, x: int)
    requires At(c, o, Bytes(Again(b, false, true)))
    ensures Rep(Means(b), false, true) == Cat(Means(b), Star(Means(b))) && Rep(Means(b), true, true) == Star(Means(b))
    ensures At(c, o, Jump(DUMMY_FAILURE_JUMP, 3)) && At(c, o + 3, LoopBytes(Bytes(b), true))
    ensures At(c, o + 6, Bytes(b)) && At(c, o + 6 + |Bytes(b)|, Jump(MAYBE_POP_JUMP, -(|Bytes(b)| + 6)))
    ensures |LoopBytes(Bytes(b), true)| == |Bytes(b)| + 6 && |Bytes(Again(b, false, true))| == |Bytes(b)| + 9 <= |c|
    ensures IsStart(Again(b, false, true), x) == (x == 0 || IsLoopStart(b, true, x - 3))
    ensures IsJump(DUMMY_FAILURE_JUMP) && IsJump(MAYBE_POP_JUMP) && REACH == 0x8000
  {
    var j, l := Jump(DUMMY_FAILURE_JUMP, 3), LoopBytes(Bytes(b), true);
    assert Bytes(Again(b, false, true)) == j + l;
    assert IsStart(Again(b, false, true), x) == (x == 0 || IsLoopStart(b, true, x - 3));
    hide At, Bytes, IsStart, IsLoopStart, LoopBytes, Jump, Means;
    AtParts(c, o, j, l);
    LoopParts(c, o + 3, Bytes(b), true);
    AtBounds(c, o, j + l);
  }

  lemma AtBounds(c: Code, o: int, bs: Code)
    requires At(c, o, bs)
    ensures 0 <= o && |bs| <= |c|
  {
  }

  lemma LoopShape(b: Frag, many: bool, x: int)
    ensures IsLoopStart(b, many, x) == (x == 0 || IsStart(b, x - 3) || (many && x == |Bytes(b)| + 3))
    ensures Rep(Means(b), true, true) == Star(Means(b)) && Rep(Means(b), true, false) == Or(Empty, Means(b))
    ensures IsJump(MAYBE_POP_JUMP) && REACH == 0x8000
  {
  }

  lemma {:induction false} ThroughPlus(b: Frag, c: Code, o: int, s: Text, d: int, q: int, e: int, n: nat) returns (m: nat, d1: int)
    requires WellFormed(b) && At(c, o, Bytes(Again(b, false, true))) && |c| < REACH && 0 <= d <= |s| && Runs(c, s, o, d, q, e, n)
    ensures IsStart(Again(b, false, true), q - o) || Passed(c, s, o + |Bytes(Again(b, false, true))|, Rep(Means(b), false, true), d, q, e, n, m, d1)
    decreases b, n, 3
  {
    hide *;
    var L := |Bytes(b)|;
    m, d1 := 0, d;
    PlusShape(b, c, o, q - o);
    LoopShape(b, true, q - (o + 3));
    var end := o + L + 9;
    if n == 0 {
      NoMove(c, s, o, d, q, e, n);
    } else {
      var q1, e1 := FirstMove(c, s, o, d, q, e, n);
      JumpMoves(c, s, o, DUMMY_FAILURE_JUMP, 3, d, q1, e1);
      var m1, e2 := Through(b, c, o + 6, s, d, q, e, n - 1);
      if !IsStart(b, q - (o + 6)) {
        PassedAfterStep(c, s, o + 6 + L, Means(b), d, q, e, n, m1, e2);
        PassedFacts(c, s, o + 6 + L, Means(b), d, q, e, n, m1 + 1, e2);
        if n - m1 - 1 == 0 {
          NoMove(c, s, o + 6 + L, e2, q, e, 0);
        } else {
          var q3, e3 := FirstMove(c, s, o + 6 + L, e2, q, e, n - m1 - 1);
          JumpMoves(c, s, o + 6 + L, MAYBE_POP_JUMP, -(L + 6), e2, q3, e3);
          var m4, e4 := ThroughLoop(b, true, c, o + 3, s, e2, q, e, n - m1 - 2);
          if !IsLoopStart(b, true, q - (o + 3)) {
            PassedRound(c, s, o + 6 + L, end, Means(b), d, q, e, n, m1 + 1, e2, m4, e4);
          }
          m, d1 := m1 + 2 + m4, e4;
        }
      }
    }
  }

  /** The run is inside the alternatives, or at their end with one of them matched, or at the
      start of the next one with nothing matched. */
  lemma {:induction false} ThroughFront(front: Front, c: Code, o: int, s: Text, d: int, q: int, e: int, n: nat)
    returns (m: nat, d1: int, done: bool)
    requires front.More? && WellFormedFront(front) && At(c, o, FrontBytes(front)) && |c| < REACH
    requires 0 <= d <= |s| && Runs(c, s, o, d, q, e, n)
    ensures IsFrontStart(front, q - o)
      || (done && Passed(c, s, o + |FrontBytes(front)|, MeansFront(front), d, q, e, n, m, d1))
      || (!done && d1 == d && m <= n && Runs(c, s, o + |FrontBytes(front)| + 3, d, q, e, n - m))
    decreases front, n, 1
  {
    hide *;
    var a := front.branch;
    var L := |Bytes(a)|;
    var k := if front.before.None? then 0 else |FrontBytes(front.before)| + 3;
    FrontParts(c, o, front);
    FrontShape(front, q - o);
    var end := o + |FrontBytes(front)|;
    m, d1, done := 0, d, false;
    if front.before.More? {
      m, d1, done := ThroughFront(front.before, c, o, s, d, q, e, n);
      if IsFrontStart(front.before, q - o) {
        return;
      }
      if done {
        PassedFacts(c, s, o + k - 3, MeansFront(front.before), d, q, e, n, m, d1);
        if n == m {
          NoMove(c, s, o + k - 3, d1, q, e, 0);
          return;
        }
        var q1, e1 := FirstMove(c, s, o + k - 3, d1, q, e, n - m);
        JumpMoves(c, s, o + k - 3, JUMP_PAST_ALT, L + 3, d1, q1, e1);
        PassedOneMore(c, s, o + k - 3, end, MeansFront(front.before), d, q, e, n, m, d1);
        PassedOr(c, s, end, MeansFront(front.before), Means(a), d, q, e, n, m + 1, d1);
        m := m + 1;
        return;
      }
    }
    if n == m {
      NoMove(c, s, o + k, d, q, e, 0);
      return;
    }
    var q1, e1 := FirstMove(c, s, o + k, d, q, e, n - m);
    JumpMoves(c, s, o + k, ON_FAILURE_JUMP, L + 3, d, q1, e1);
    if q1 == o + k + 3 + (L + 3) {
      m := m + 1;
    } else {
      var m2, d2 := Through(a, c, o + k + 3, s, d, q, e, n - m - 1);
      if !IsStart(a, q - (o + k + 3)) {
        PassedLater(c, s, end, Means(a), d, q, e, n, m + 1, m2, d2);
        if front.before.More? {
          PassedOr(c, s, end, MeansFront(front.before), Means(a), d, q, e, n, m + 1 + m2, d2);
        }
        m, d1, done := m + 1 + m2, d2, true;
      }
    }
  }

  lemma PassedOneMore(c: Code, s: Text, o: int, o': int, r: Regex, d: int, q: int, e: int, n: nat, m: nat, d1: int)
    requires Passed(c, s, o, r, d, q, e, n, m, d1) && m < n && Runs(c, s, o', d1, q, e, n - m - 1)
    ensures Passed(c, s, o', r, d, q, e, n, m + 1, d1)
  {
  }

  lemma PassedLater(c: Code, s: Text, o: int, r: Regex, d: int, q: int, e: int, n: nat, k: nat, m: nat, d1: int)
    requires k <= n && Passed(c, s, o, r, d, q, e, n - k, m, d1)
    ensures Passed(c, s, o, r, d, q, e, n, k + m, d1)
  {
  }

  lemma FrontParts(c: Code, o: int, front: Front)
    requires front.More? && At(c, o, FrontBytes(front))
    ensures var L := |Bytes(front.branch)|;
      var k := if front.before.None? then 0 else |FrontBytes(front.before)| + 3;
      && (front.before.More? ==> At(c, o, FrontBytes(front.before)) && At(c, o + k - 3, Jump(JUMP_PAST_ALT, L + 3)))
      && At(c, o + k, Jump(ON_FAILURE_JUMP, L + 3)) && At(c, o + k + 3, Bytes(front.branch))
      && |FrontBytes(front)| == k + 3 + L && k + 3 + L <= |c|
  {
    hide Jump, Bytes;
    var a := Bytes(front.branch);
    var v := Jump(ON_FAILURE_JUMP, |a| + 3);
    if front.before.None? {
      assert [] + v == v;
      AtParts(c, o, v, a);
    } else {
      var u, j := FrontBytes(front.before), Jump(JUMP_PAST_ALT, |a| + 3);
      AtParts(c, o, (u + j) + v, a);
      AtParts(c, o, u + j, v);
      AtParts(c, o, u, j);
    }
  }

  lemma FrontShape(front: Front, x: int)
    requires front.More?
    ensures var k := if front.before.None? then 0 else |FrontBytes(front.before)| + 3;
      IsFrontStart(front, x) ==
        ((front.before.More? && (IsFrontStart(front.before, x) || x == k - 3)) || x == k || IsStart(front.branch, x - k - 3))
    ensures MeansFront(front) == if front.before.None? then Means(front.branch) else Or(MeansFront(front.before), Means(front.branch))
    ensures WellFormedFront(front) ==> WellFormedFront(front.before) && WellFormed(front.branch)
    ensures IsJump(JUMP_PAST_ALT) && REACH == 0x8000
  {
  }

  lemma SingleShape(alts: Alts, x: int)
    requires alts.front.None?
    ensures AltBytes(alts) == Bytes(alts.last) && MeansAlts(alts) == Means(alts.last) && IsAltStart(alts, x) == IsStart(alts.last, x)
    ensures WellFormedAlts(alts) ==> WellFormed(alts.last)
  {
  }

  lemma AltsShape(alts: Alts, c: Code, o: int, x: int)
    requires alts.front.More? && At(c, o, AltBytes(alts))
    ensures var L, k := |Bytes(alts.last)|, |FrontBytes(alts.front)|;
      && At(c, o, FrontBytes(alts.front)) && At(c, o + k, Jump(JUMP_PAST_ALT, L)) && At(c, o + k + 3, Bytes(alts.last))
      && |AltBytes(alts)| == k + 3 + L && o + k + 3 + L <= |c|
      && IsAltStart(alts, x) == (IsFrontStart(alts.front, x) || x == k || IsStart(alts.last, x - k - 3))
    ensures MeansAlts(alts) == Or(MeansFront(alts.front), Means(alts.last))
    ensures WellFormedAlts(alts) ==> WellFormedFront(alts.front) && WellFormed(alts.last)
    ensures IsJump(JUMP_PAST_ALT) && REACH == 0x8000 && 0 <= o
  {
    var L := |Bytes(alts.last)|;
    AtParts(c, o, FrontBytes(alts.front) + Jump(JUMP_PAST_ALT, L), Bytes(alts.last));
    AtParts(c, o, FrontBytes(alts.front), Jump(JUMP_PAST_ALT, L));
  }

  lemma {:induction false} ThroughAlts(alts: Alts, c: Code, o: int, s: Text, d: int, q: int, e: int, n: nat) returns (m: nat, d1: int)
    requires WellFormedAlts(alts) && At(c, o, AltBytes(alts)) && |c| < REACH && 0 <= d <= |s| && Runs(c, s, o, d, q, e, n)
    ensures IsAltStart(alts, q - o) || Passed(c, s, o + |AltBytes(alts)|, MeansAlts(alts), d, q, e, n, m, d1)
    decreases alts, n, 1
  {
    hide *;
    var front, last := alts.front, alts.last;
    if front.None? {
      SingleShape(alts, q - o);
      m, d1 := Through(last, c, o, s, d, q, e, n);
    } else {
      var L, k := |Bytes(last)|, |FrontBytes(front)|;
      var end := o + |AltBytes(alts)|;
      AltsShape(alts, c, o, q - o);
      var done;
      m, d1, done := ThroughFront(front, c, o, s, d, q, e, n);
      if IsFrontStart(front, q - o) {
      } else if done {
        PassedFacts(c, s, o + k, MeansFront(front), d, q, e, n, m, d1);
        if n == m {
          NoMove(c, s, o + k, d1, q, e, 0);
        } else {
          var q1, e1 := FirstMove(c, s, o + k, d1, q, e, n - m);
          JumpMoves(c, s, o + k, JUMP_PAST_ALT, L, d1, q1, e1);
          PassedOneMore(c, s, o + k, end, MeansFront(front), d, q, e, n, m, d1);
          PassedOr(c, s, end, MeansFront(front), Means(last), d, q, e, n, m + 1, d1);
          m := m + 1;
        }
      } else {
        var m2, d2 := Through(last, c, o + k + 3, s, d, q, e, n - m);
        if !IsStart(last, q - (o + k + 3)) {
          PassedLater(c, s, end, Means(last), d, q, e, n, m, m2, d2);
          PassedOr(c, s, end, MeansFront(front), Means(last), d, q, e, n, m + m2, d2);
        }
        m, d1 := m + m2, d2;
      }
    }
  }

  lemma {:induction false} ThroughGroup(reg: nat, inner: Byte, alts: Alts, c: Code, o: int, s: Text, d: int, q: int, e: int, n: nat)
    returns (m: nat, d1: int)
    requires WellFormedAlts(alts) && At(c, o, Bytes(Group(reg, inner, alts))) && |c| < REACH && 0 <= d <= |s| && Runs(c, s, o, d, q, e, n)
    ensures IsStart(Group(reg, inner, alts), q - o)
      || Passed(c, s, o + |Bytes(Group(reg, inner, alts))|, MeansAlts(alts), d, q, e, n, m, d1)
    decreases alts, n, 2
  {
    hide Runs, Denotes, Passed, Move, At, Jump;
    var u, v, w := Memory(START_MEMORY, reg, inner), AltBytes(alts), GroupEnd(reg, inner, alts.front.None?);
    AtParts(c, o, u + v, w);
    AtParts(c, o, u, v);
    d1 := d;
    m := ThroughMemory(c, o, START_MEMORY, reg, inner, s, d, q, e, n);
    if reg <= MAX_REGNUM && q == o {
      return;
    }
    var m1, e1 := ThroughAlts(alts, c, o + |u|, s, d, q, e, n - m);
    if IsAltStart(alts, q - (o + |u|)) {
      return;
    }
    PassedLater(c, s, o + |u| + |v|, MeansAlts(alts), d, q, e, n, m, m1, e1);
    m, d1 := m + m1, e1;
    PassedFacts(c, s, o + |u| + |v|, MeansAlts(alts), d, q, e, n, m, d1);
    var m2 := ThroughEnd(reg, inner, alts.front.None?, c, o + |u| + |v|, s, d1, q, e, n - m);
    if !IsEndStart(reg, inner, alts.front.None?, q - (o + |u| + |v|)) {
      PassedSteps(c, s, o + |u| + |v|, o + |u| + |v| + |w|, MeansAlts(alts), d, q, e, n, m, d1, m2);
    }
    m := m + m2;
  }

  lemma PassedSteps(c: Code, s: Text, o: int, o': int, r: Regex, d: int, q: int, e: int, n: nat, m: nat, d1: int, k: nat)
    requires Passed(c, s, o, r, d, q, e, n, m, d1) && k <= n - m && Runs(c, s, o', d1, q, e, n - m - k)
    ensures Passed(c, s, o', r, d, q, e, n, m + k, d1)
  {
  }

  lemma ThroughEnd(reg: nat, inner: Byte, single: bool, c: Code, o: int, s: Text, d: int, q: int, e: int, n: nat) returns (m: nat)
    requires At(c, o, GroupEnd(reg, inner, single)) && 0 <= d <= |s| && Runs(c, s, o, d, q, e, n)
    ensures IsEndStart(reg, inner, single, q - o) || (m <= n && Runs(c, s, o + |GroupEnd(reg, inner, single)|, d, q, e, n - m))
  {
    hide Denotes, Move, At, Jump;
    m := 0;
    if single {
      assert [] + Memory(STOP_MEMORY, reg, inner) == Memory(STOP_MEMORY, reg, inner);
      m := ThroughMemory(c, o, STOP_MEMORY, reg, inner, s, d, q, e, n);
    } else {
      AtParts(c, o, [PUSH_DUMMY_FAILURE], Memory(STOP_MEMORY, reg, inner));
      if n > 0 {
        var q1, e1 := FirstMove(c, s, o, d, q, e, n);
        DummyMoves(c, s, o, d, q1, e1);
        m := ThroughMemory(c, o + 1, STOP_MEMORY, reg, inner, s, d, q, e, n - 1);
        m := m + 1;
      }
    }
  }

  // ---- every match has a run ----

  lemma Slice(s: Text, i: int, j: int, k: nat)
    requires 0 <= i <= j <= |s| && k <= j - i
    ensures s[i..j][..k] == s[i..i + k] && s[i..j][k..] == s[i + k..j]
  {
  }

  lemma CatSlice(a: Regex, b: Regex, s: Text, d: int, d1: int) returns (x: int)
    requires 0 <= d <= d1 <= |s| && Denotes(Cat(a, b), s[d..d1])
    ensures d <= x <= d1 && Denotes(a, s[d..x]) && Denotes(b, s[x..d1])
  {
    hide Denotes;
    var i := CatSplit(a, b, s[d..d1]);
    Slice(s, d, d1, i);
    x := d + i;
  }

  lemma StarSlice(a: Regex, s: Text, d: int, d1: int) returns (x: int)
    requires 0 <= d < d1 <= |s| && Denotes(Star(a), s[d..d1])
    ensures d < x <= d1 && Denotes(a, s[d..x]) && Denotes(Star(a), s[x..d1])
  {
    hide Denotes;
    var i := StarSplit(a, s[d..d1]);
    Slice(s, d, d1, i);
    x := d + i;
  }

  lemma OrDenotes(a: Regex, b: Regex, w: Text)
    ensures Denotes(Or(a, b), w) <==> Denotes(a, w) || Denotes(b, w)
    ensures Denotes(Empty, w) <==> w == []
  {
  }

  lemma ReachesJump(c: Code, s: Text, o: int, op: Byte, n: int, d: int, q: int)
    requires At(c, o, Jump(op, n)) && -REACH <= n < REACH && 0 <= d <= |s|
    requires (IsJump(op) && q == o + 3 + n) || (op == ON_FAILURE_JUMP && (q == o + 3 || q == o + 3 + n))
    ensures Reaches(c, s, o, d, q, d)
  {
    JumpMoves(c, s, o, op, n, d, q, d);
    ReachesMove(c, s, o, d, q, d);
  }

  lemma {:induction false} Complete(f: Frag, c: Code, o: int, s: Text, d: int, d1: int)
    requires WellFormed(f) && At(c, o, Bytes(f)) && |c| < REACH && 0 <= d <= d1 <= |s| && Denotes(Means(f), s[d..d1])
    ensures Reaches(c, s, o, d, o + |Bytes(f)|, d1)
    decreases f, d1 - d, 1
  {
    hide *;
    LeafShape(f, 0);
    var end := o + |Bytes(f)|;
    match f
    case Nothing =>
      OrDenotes(Empty, Empty, s[d..d1]);
      ReachesSelf(c, s, o, d);
    case Exact(chars) =>
      WordDenotes(chars, s[d..d1]);
      ExactReaches(chars, c, o, s, d, d1);
    case AnyChar =>
      AnyMoves(c, s, o, d, o + 1, d1);
      AnyDenotes(s[d..d1]);
      ReachesMove(c, s, o, d, o + 1, d1);
    case Dummy =>
      OrDenotes(Empty, Empty, s[d..d1]);
      DummyMoves(c, s, o, d, o + 1, d);
      ReachesMove(c, s, o, d, o + 1, d);
    case Then(a, b) =>
      ThenShape(a, b, c, o, 0);
      var x := CatSlice(Means(a), Means(b), s, d, d1);
      Complete(a, c, o, s, d, x);
      Complete(b, c, o + |Bytes(a)|, s, x, d1);
      ReachesJoin(c, s, o, d, o + |Bytes(a)|, x, end, d1);
    case Again(b, zero, many) =>
      if zero {
        CompleteLoop(b, many, c, o, s, d, d1);
      } else {
        PlusShape(b, c, o, 0);
        var x := CatSlice(Means(b), Star(Means(b)), s, d, d1);
        ReachesJump(c, s, o, DUMMY_FAILURE_JUMP, 3, d, o + 6);
        Complete(b, c, o + 6, s, d, x);
        ReachesJoin(c, s, o, d, o + 6, d, o + 6 + |Bytes(b)|, x);
        ReachesJump(c, s, o + 6 + |Bytes(b)|, MAYBE_POP_JUMP, -(|Bytes(b)| + 6), x, o + 3);
        ReachesJoin(c, s, o, d, o + 6 + |Bytes(b)|, x, o + 3, x);
        CompleteLoop(b, true, c, o + 3, s, x, d1);
        ReachesJoin(c, s, o, d, o + 3, x, end, d1);
      }
    case Group(reg, inner, alts) => CompleteGroup(reg, inner, alts, c, o, s, d, d1);
  }

  lemma AnyDenotes(w: Text)
    ensures Denotes(Any, w) ==> |w| == 1
  {
  }

  lemma ExactReaches(chars: Text, c: Code, o: int, s: Text, d: int, d1: int)
    requires WellFormed(Exact(chars)) && At(c, o, Bytes(Exact(chars))) && 0 <= d <= d1 <= |s| && s[d..d1] == chars
    ensures Reaches(c, s, o, d, o + |Bytes(Exact(chars))|, d1)
  {
    hide Reaches, Move;
    ExactMoves(c, s, o, chars, d, o + 2 + |chars|, d1);
    ReachesMove(c, s, o, d, o + 2 + |chars|, d1);
  }

  lemma {:induction false} CompleteLoop(b: Frag, many: bool, c: Code, o: int, s: Text, d: int, d1: int)
    requires WellFormed(b) && At(c, o, LoopBytes(Bytes(b), many)) && |c| < REACH && 0 <= d <= d1 <= |s|
    requires Denotes(Rep(Means(b), true, many), s[d..d1])
    ensures Reaches(c, s, o, d, o + |LoopBytes(Bytes(b), many)|, d1)
    decreases b, d1 - d, 2
  {
    hide *;
    var L := |Bytes(b)|;
    var end := o + |LoopBytes(Bytes(b), many)|;
    LoopParts(c, o, Bytes(b), many);
    LoopShape(b, many, 0);
    if d == d1 {
      ReachesJump(c, s, o, ON_FAILURE_JUMP, if many then L + 3 else L, d, end);
    } else {
      ReachesJump(c, s, o, ON_FAILURE_JUMP, if many then L + 3 else L, d, o + 3);
      if many {
        var x := StarSlice(Means(b), s, d, d1);
        Complete(b, c, o + 3, s, d, x);
        ReachesJoin(c, s, o, d, o + 3, d, o + 3 + L, x);
        ReachesJump(c, s, o + 3 + L, MAYBE_POP_JUMP, -(L + 6), x, o);
        ReachesJoin(c, s, o, d, o + 3 + L, x, o, x);
        CompleteLoop(b, many, c, o, s, x, d1);
        ReachesJoin(c, s, o, d, o, x, end, d1);
      } else {
        OrDenotes(Empty, Means(b), s[d..d1]);
        Complete(b, c, o + 3, s, d, d1);
        ReachesJoin(c, s, o, d, o + 3, d, end, d1);
      }
    }
  }

  lemma {:induction false} CompleteFront(front: Front, c: Code, o: int, s: Text, d: int, d1: int)
    requires front.More? && WellFormedFront(front) && At(c, o, FrontBytes(front)) && |c| < REACH && 0 <= d <= d1 <= |s|
    ensures Reaches(c, s, o, d, o + |FrontBytes(front)| + 3, d)
    ensures Denotes(MeansFront(front), s[d..d1]) ==> Reaches(c, s, o, d, o + |FrontBytes(front)|, d1)
    decreases front, d1 - d, 1
  {
    hide *;
    var a := front.branch;
    var L := |Bytes(a)|;
    var k := if front.before.None? then 0 else |FrontBytes(front.before)| + 3;
    FrontParts(c, o, front);
    FrontShape(front, 0);
    var end := o + |FrontBytes(front)|;
    ReachesSelf(c, s, o, d);
    if front.before.More? {
      CompleteFront(front.before, c, o, s, d, d1);
    }
    ReachesJump(c, s, o + k, ON_FAILURE_JUMP, L + 3, d, end + 3);
    ReachesJoin(c, s, o, d, o + k, d, end + 3, d);
    if Denotes(Means(a), s[d..d1]) {
      ReachesJump(c, s, o + k, ON_FAILURE_JUMP, L + 3, d, o + k + 3);
      ReachesJoin(c, s, o, d, o + k, d, o + k + 3, d);
      Complete(a, c, o + k + 3, s, d, d1);
      ReachesJoin(c, s, o, d, o + k + 3, d, end, d1);
    }
    if front.before.More? {
      OrDenotes(MeansFront(front.before), Means(a), s[d..d1]);
      if Denotes(MeansFront(front.before), s[d..d1]) {
        ReachesJump(c, s, o + k - 3, JUMP_PAST_ALT, L + 3, d1, end);
        ReachesJoin(c, s, o, d, o + k - 3, d1, end, d1);
      }
    }
  }

  lemma {:induction false} CompleteAlts(alts: Alts, c: Code, o: int, s: Text, d: int, d1: int)
    requires WellFormedAlts(alts) && At(c, o, AltBytes(alts)) && |c| < REACH && 0 <= d <= d1 <= |s| && Denotes(MeansAlts(alts), s[d..d1])
    ensures Reaches(c, s, o, d, o + |AltBytes(alts)|, d1)
    decreases alts, d1 - d, 1
  {
    hide *;
    var front, last := alts.front, alts.last;
    if front.None? {
      SingleShape(alts, 0);
      Complete(last, c, o, s, d, d1);
    } else {
      var L, k := |Bytes(last)|, |FrontBytes(front)|;
      AltsShape(alts, c, o, 0);
      var end := o + |AltBytes(alts)|;
      CompleteFront(front, c, o, s, d, d1);
      OrDenotes(MeansFront(front), Means(last), s[d..d1]);
      if Denotes(MeansFront(front), s[d..d1]) {
        ReachesJump(c, s, o + k, JUMP_PAST_ALT, L, d1, end);
        ReachesJoin(c, s, o, d, o + k, d1, end, d1);
      } else {
        Complete(last, c, o + k + 3, s, d, d1);
        ReachesJoin(c, s, o, d, o + k + 3, d, end, d1);
      }
    }
  }

  lemma GroupShape(reg: nat, inner: Byte, alts: Alts, c: Code, o: int)
    requires At(c, o, Bytes(Group(reg, inner, alts)))
    ensures var u, v, w := |Memory(START_MEMORY, reg, inner)|, |AltBytes(alts)|, |GroupEnd(reg, inner, alts.front.None?)|;
      && At(c, o, Memory(START_MEMORY, reg, inner)) && At(c, o + u, AltBytes(alts))
      && At(c, o + u + v, GroupEnd(reg, inner, alts.front.None?))
      && |Bytes(Group(reg, inner, alts))| == u + v + w
  {
    var u, v, w := Memory(START_MEMORY, reg, inner), AltBytes(alts), GroupEnd(reg, inner, alts.front.None?);
    AtParts(c, o, u + v, w);
    AtParts(c, o, u, v);
  }

  lemma {:induction false} CompleteGroup(reg: nat, inner: Byte, alts: Alts, c: Code, o: int, s: Text, d: int, d1: int)
    requires WellFormedAlts(alts) && At(c, o, Bytes(Group(reg, inner, alts))) && |c| < REACH && 0 <= d <= d1 <= |s|
    requires Denotes(MeansAlts(alts), s[d..d1])
    ensures Reaches(c, s, o, d, o + |Bytes(Group(reg, inner, alts))|, d1)
    decreases alts, d1 - d, 2
  {
    hide *;
    var u, v, w := |Memory(START_MEMORY, reg, inner)|, |AltBytes(alts)|, |GroupEnd(reg, inner, alts.front.None?)|;
    GroupShape(reg, inner, alts, c, o);
    MemoryReaches(c, o, START_MEMORY, reg, inner, s, d);
    CompleteAlts(alts, c, o + u, s, d, d1);
    ReachesJoin(c, s, o, d, o + u, d, o + u + v, d1);
    EndReaches(c, o + u + v, reg, inner, alts.front.None?, s, d1);
    ReachesJoin(c, s, o, d, o + u + v, d1, o + u + v + w, d1);
  }

  lemma MemoryReaches(c: Code, o: int, op: Byte, reg: nat, inner: Byte, s: Text, d: int)
    requires At(c, o, Memory(op, reg, inner)) && 0 <= d <= |s| && (op == START_MEMORY || op == STOP_MEMORY)
    ensures Reaches(c, s, o, d, o + |Memory(op, reg, inner)|, d)
  {
    hide Reaches, Move;
    if reg <= MAX_REGNUM {
      MemoryMoves(c, s, o, op, reg, inner, d, o + 3, d);
      ReachesMove(c, s, o, d, o + 3, d);
    } else {
      ReachesSelf(c, s, o, d);
    }
  }

  lemma EndReaches(c: Code, o: int, reg: nat, inner: Byte, single: bool, s: Text, d: int)
    requires At(c, o, GroupEnd(reg, inner, single)) && 0 <= d <= |s|
    ensures Reaches(c, s, o, d, o + |GroupEnd(reg, inner, single)|, d)
  {
    hide Reaches, Move, At;
    if single {
      assert [] + Memory(STOP_MEMORY, reg, inner) == Memory(STOP_MEMORY, reg, inner);
      MemoryReaches(c, o, STOP_MEMORY, reg, inner, s, d);
    } else {
      AtParts(c, o, [PUSH_DUMMY_FAILURE], Memory(STOP_MEMORY, reg, inner));
      DummyMoves(c, s, o, d, o + 1, d);
      ReachesMove(c, s, o, d, o + 1, d);
      MemoryReaches(c, o + 1, STOP_MEMORY, reg, inner, s, d);
      ReachesJoin(c, s, o, d, o + 1, d, o + 1 + |Memory(STOP_MEMORY, reg, inner)|, d);
    }
  }

  // ---- whole programs ----

  lemma AtAll(c: Code)
    ensures At(c, 0, c)
  {
    assert c[0..0 + |c|] == c;
  }

  lemma Stuck(c: Code, s: Text, d: int, q: int, e: int, n: nat)
    requires Runs(c, s, |c|, d, q, e, n)
    ensures n == 0 && q == |c| && e == d
  {
    if n > 0 {
      var x, y := FirstMove(c, s, |c|, d, q, e, n);
      assert false;
    }
  }

  /** Wherever a run leads, it is at an instruction of the program, or at its end with the text
      from where it set out matched. */
  lemma RunEnds(alts: Alts, s: Text, d: int, q: int, e: int, n: nat)
    requires WellFormedAlts(alts) && |AltBytes(alts)| < REACH && 0 <= d <= |s| && Runs(AltBytes(alts), s, 0, d, q, e, n)
    ensures IsAltStart(alts, q) || (q == |AltBytes(alts)| && d <= e <= |s| && Denotes(MeansAlts(alts), s[d..e]))
  {
    hide Runs, Denotes, Move, IsAltStart;
    var c := AltBytes(alts);
    AtAll(c);
    var m, d1 := ThroughAlts(alts, c, 0, s, d, q, e, n);
    if !IsAltStart(alts, q) {
      Stuck(c, s, d1, q, e, n - m);
    }
  }

  /** The program accepts exactly the strings that its pattern denotes. */
  lemma AcceptsWhatItMeans(alts: Alts, w: Text)
    requires WellFormedAlts(alts) && |AltBytes(alts)| < REACH
    ensures Accepts(AltBytes(alts), w) <==> Denotes(MeansAlts(alts), w)
  {
    hide Runs, Denotes, Move, Reaches;
    var c := AltBytes(alts);
    AtAll(c);
    assert w[0..|w|] == w;
    if Accepts(c, w) {
      var n := ReachesRuns(c, w, 0, 0, |c|, |w|);
      RunEnds(alts, w, 0, |c|, |w|, n);
      StartsInside(alts, |c|);
    }
    if Denotes(MeansAlts(alts), w) {
      CompleteAlts(alts, c, 0, w, 0, |w|);
    }
  }

  lemma ReachesRuns(c: Code, s: Text, p: int, d: int, q: int, e: int) returns (n: nat)
    requires Reaches(c, s, p, d, q, e)
    ensures Runs(c, s, p, d, q, e, n)
  {
    n :| Runs(c, s, p, d, q, e, n);
  }

  // ---- instructions lie inside their code ----

  lemma {:induction false} StartFits(f: Frag, c: Code, o: int, x: int)
    requires WellFormed(f) && At(c, o, Bytes(f)) && |c| < REACH && IsStart(f, x)
    ensures 0 <= x < |Bytes(f)| && Fits(c, o + x)
    decreases f, 1
  {
    hide *;
    LeafShape(f, x);
    match f
    case Nothing => NothingStart(x);
    case Exact(chars) => ExactFits(chars, c, o);
    case AnyChar => ByteFits(c, o, ANYCHAR);
    case Dummy => ByteFits(c, o, PUSH_DUMMY_FAILURE);
    case Then(a, b) =>
      ThenShape(a, b, c, o, x);
      if IsStart(a, x) {
        StartFits(a, c, o, x);
      } else {
        StartFits(b, c, o + |Bytes(a)|, x - |Bytes(a)|);
      }
    case Again(b, zero, many) =>
      if zero {
        LoopStartFits(b, many, c, o, x);
      } else {
        PlusShape(b, c, o, x);
        JumpFits(c, o, DUMMY_FAILURE_JUMP, 3);
        if x != 0 {
          LoopStartFits(b, true, c, o + 3, x - 3);
        }
      }
    case Group(reg, inner, alts) => GroupStartFits(reg, inner, alts, c, o, x);
  }

  lemma NothingStart(x: int)
    ensures !IsStart(Nothing, x)
  {
  }

  lemma ByteFits(c: Code, o: int, op: Byte)
    requires At(c, o, [op]) && (op == ANYCHAR || op == PUSH_DUMMY_FAILURE)
    ensures 0 <= o && Fits(c, o) && c[o] == op
  {
    AtByte(c, o, [op], 0);
  }

  lemma ExactFits(chars: Text, c: Code, o: int)
    requires WellFormed(Exact(chars)) && At(c, o, Bytes(Exact(chars)))
    ensures Fits(c, o) && 0 < |Bytes(Exact(chars))|
  {
    var bs := [EXACTN, |chars|] + chars;
    AtByte(c, o, bs, 0);
    AtByte(c, o, bs, 1);
    AtByte(c, o, bs, 2);
  }

  lemma JumpFits(c: Code, o: int, op: Byte, n: int)
    requires At(c, o, Jump(op, n)) && (IsJump(op) || op == ON_FAILURE_JUMP)
    ensures Fits(c, o) && c[o] == op
  {
    AtByte(c, o, Jump(op, n), 0);
    AtByte(c, o, Jump(op, n), 2);
  }

  lemma {:induction false} LoopStartFits(b: Frag, many: bool, c: Code, o: int, x: int)
    requires WellFormed(b) && At(c, o, LoopBytes(Bytes(b), many)) && |c| < REACH && IsLoopStart(b, many, x)
    ensures 0 <= x < |LoopBytes(Bytes(b), many)| && Fits(c, o + x)
    decreases b, 2
  {
    hide *;
    LoopParts(c, o, Bytes(b), many);
    LoopShape(b, many, x);
    if x == 0 {
      JumpFits(c, o, ON_FAILURE_JUMP, if many then |Bytes(b)| + 3 else |Bytes(b)|);
    } else if IsStart(b, x - 3) {
      StartFits(b, c, o + 3, x - 3);
    } else {
      JumpFits(c, o + x, MAYBE_POP_JUMP, -(|Bytes(b)| + 6));
    }
  }

  lemma {:induction false} FrontStartFits(front: Front, c: Code, o: int, x: int)
    requires WellFormedFront(front) && front.More? && At(c, o, FrontBytes(front)) && |c| < REACH && IsFrontStart(front, x)
    ensures 0 <= x < |FrontBytes(front)| && Fits(c, o + x)
    decreases front, 1
  {
    hide *;
    FrontParts(c, o, front);
    FrontShape(front, x);
    var L := |Bytes(front.branch)|;
    var k := if front.before.None? then 0 else |FrontBytes(front.before)| + 3;
    if front.before.More? && IsFrontStart(front.before, x) {
      FrontStartFits(front.before, c, o, x);
    } else if front.before.More? && x == k - 3 {
      JumpFits(c, o + x, JUMP_PAST_ALT, L + 3);
    } else if x == k {
      JumpFits(c, o + x, ON_FAILURE_JUMP, L + 3);
    } else {
      StartFits(front.branch, c, o + k + 3, x - k - 3);
    }
  }

  lemma {:induction false} AltStartFits(alts: Alts, c: Code, o: int, x: int)
    requires WellFormedAlts(alts) && At(c, o, AltBytes(alts)) && |c| < REACH && IsAltStart(alts, x)
    ensures 0 <= x < |AltBytes(alts)| && Fits(c, o + x)
    decreases alts, 1
  {
    hide *;
    if alts.front.None? {
      SingleShape(alts, x);
      StartFits(alts.last, c, o, x);
    } else {
      AltsShape(alts, c, o, x);
      var k := |FrontBytes(alts.front)|;
      if IsFrontStart(alts.front, x) {
        FrontStartFits(alts.front, c, o, x);
      } else if x == k {
        JumpFits(c, o + x, JUMP_PAST_ALT, |Bytes(alts.last)|);
      } else {
        StartFits(alts.last, c, o + k + 3, x - k - 3);
      }
    }
  }

  lemma GroupStarts(reg: nat, inner: Byte, alts: Alts, x: int)
    ensures var u, v := |Memory(START_MEMORY, reg, inner)|, |AltBytes(alts)|;
      IsStart(Group(reg, inner, alts), x) ==
        ((u > 0 && x == 0) || IsAltStart(alts, x - u) || IsEndStart(reg, inner, alts.front.None?, x - u - v))
  {
  }

  lemma MemoryFits(c: Code, o: int, op: Byte, reg: nat, inner: Byte)
    requires At(c, o, Memory(op, reg, inner)) && |Memory(op, reg, inner)| > 0 && (op == START_MEMORY || op == STOP_MEMORY)
    ensures 0 <= o && Fits(c, o) && c[o] == op && |Memory(op, reg, inner)| == 3
  {
    AtByte(c, o, Memory(op, reg, inner), 0);
    AtByte(c, o, Memory(op, reg, inner), 2);
  }

  lemma EndFits(c: Code, o: int, reg: nat, inner: Byte, single: bool, x: int)
    requires At(c, o, GroupEnd(reg, inner, single)) && IsEndStart(reg, inner, single, x)
    ensures 0 <= x < |GroupEnd(reg, inner, single)| && Fits(c, o + x)
  {
    hide At, Fits;
    if single {
      assert [] + Memory(STOP_MEMORY, reg, inner) == Memory(STOP_MEMORY, reg, inner);
      MemoryFits(c, o, STOP_MEMORY, reg, inner);
    } else {
      AtParts(c, o, [PUSH_DUMMY_FAILURE], Memory(STOP_MEMORY, reg, inner));
      ByteFits(c, o, PUSH_DUMMY_FAILURE);
      if x == 1 {
        MemoryFits(c, o + 1, STOP_MEMORY, reg, inner);
      }
    }
  }

  lemma {:induction false} GroupStartFits(reg: nat, inner: Byte, alts: Alts, c: Code, o: int, x: int)
    requires WellFormedAlts(alts) && At(c, o, Bytes(Group(reg, inner, alts))) && |c| < REACH && IsStart(Group(reg, inner, alts), x)
    ensures 0 <= x < |Bytes(Group(reg, inner, alts))| && Fits(c, o + x)
    decreases alts, 2
  {
    hide *;
    var u, v := |Memory(START_MEMORY, reg, inner)|, |AltBytes(alts)|;
    GroupShape(reg, inner, alts, c, o);
    GroupStarts(reg, inner, alts, x);
    if x == 0 && u > 0 {
      MemoryFits(c, o, START_MEMORY, reg, inner);
    } else if IsAltStart(alts, x - u) {
      AltStartFits(alts, c, o + u, x - u);
    } else {
      EndFits(c, o + u + v, reg, inner, alts.front.None?, x - u - v);
    }
  }

  lemma StartsInside(alts: Alts, x: int)
    requires WellFormedAlts(alts) && |AltBytes(alts)| < REACH
    ensures IsAltStart(alts, x) ==> 0 <= x < |AltBytes(alts)| && Fits(AltBytes(alts), x)
  {
    hide *;
    AtAll(AltBytes(alts));
    if IsAltStart(alts, x) {
      AltStartFits(alts, AltBytes(alts), 0, x);
    }
  }
}
