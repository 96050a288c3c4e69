/** The whole of `regex_compile`, and that what it leaves means what the pattern says. */
module RegexCompiled {
  import opened Wrappers
  import opened RegexLanguage
  import opened RegexText
  import opened RegexCode
  import opened RegexBuffer
  import opened RegexLayout
  import opened RegexCompile
  import opened RegexTidy
  import opened RegexNumbers
  import RegexMeaning
  import RegexBudget

  /** An `exactn` that has taken in more than one character: no operator applies to it. */
  predicate Joined(f: Frag) {
    f.Exact? && |f.chars| > 1
  }

  /** The code of a level means what has been read at that level. */
  ghost predicate Relates(l: Draft, t: Level) {
    && WellFormedFront(l.front) && WellFormed(l.before) && (l.last.Some? ==> WellFormed(l.last.value))
    && (l.front.None? <==> t.alts.None?) && (l.last.None? <==> t.last.None?)
    && (t.alts.Some? ==> Same(MeansFront(l.front), t.alts.value))
    && Same(Means(l.Branch()), t.Branch())
    && (l.last.Some? && !Joined(l.last.value) ==> Same(Means(l.before), t.before) && Same(Means(l.last.value), t.last.value))
  }

  ghost predicate AllRelate(drafts: seq<Draft>, levels: seq<Level>) {
    |drafts| == |levels| && forall i :: 0 <= i < |drafts| ==> Relates(drafts[i], levels[i])
  }

  // ---- one step at one level ----

  lemma RelatesPiece(l: Draft, t: Level, f: Frag, r: Regex)
    requires Relates(l, t) && WellFormed(f) && !Joined(f) && Same(Means(f), r)
    ensures Relates(l.Piece(f), t.Piece(r))
  {
    hide Same;
    CatCongruence(Means(l.Branch()), Means(f), t.Branch(), r);
  }

  lemma RelatesChar(l: Draft, t: Level, c: Byte)
    requires Relates(l, t)
    ensures Relates(l.Piece(Exact([c])), t.Piece(Lit(c)))
  {
    hide Relates;
    WordOfOne(c);
    EmptyIsUnit(Lit(c));
    RelatesPiece(l, t, Exact([c]), Lit(c));
  }

  lemma WordOfOne(c: Byte)
    ensures Means(Exact([c])) == Cat(Empty, Lit(c)) && !Joined(Exact([c]))
  {
    assert [c][..0] == [];
    assert Word([c][..0]) == Empty;
  }

  lemma SameSelf(r: Regex)
    ensures Same(r, r)
  {
  }

  lemma RelatesJoined(l: Draft, t: Level, c: Byte)
    requires Relates(l, t) && l.last.Some? && l.last.value.Exact? && 1 <= |l.last.value.chars| < 255
    ensures Relates(Draft(l.front, l.before, Some(Exact(l.last.value.chars + [c]))), t.Piece(Lit(c)))
  {
    var chars := l.last.value.chars;
    var b, w := Means(l.before), Word(chars);
    assert (chars + [c])[..|chars|] == chars;
    assert Means(Exact(chars + [c])) == Cat(w, Lit(c));
    assert Means(l.Branch()) == Cat(b, w);
    hide Same, Word, Denotes;
    CatAssociates(b, w, Lit(c));
    SameSymmetric(Cat(Cat(b, w), Lit(c)), Cat(b, Cat(w, Lit(c))));
    SameSelf(Lit(c));
    CatCongruence(Cat(b, w), Lit(c), t.Branch(), Lit(c));
    SameTransitive(Cat(b, Cat(w, Lit(c))), Cat(Cat(b, w), Lit(c)), Cat(t.Branch(), Lit(c)));
  }

  lemma RelatesRepeated(l: Draft, t: Level, zero: bool, many: bool, r: Regex)
    requires Relates(l, t) && l.last.Some? && !Joined(l.last.value) && (zero || many)
    requires Same(r, Rep(t.last.value, zero, many))
    ensures Relates(Draft(l.front, l.before, Some(Again(l.last.value, zero, many))), Level(t.alts, t.before, Some(r)))
  {
    var f := l.last.value;
    assert Means(Again(f, zero, many)) == Rep(Means(f), zero, many);
    hide Same, Rep, Denotes;
    RepCongruence(Means(f), t.last.value, zero, many);
    SameSymmetric(r, Rep(t.last.value, zero, many));
    SameTransitive(Rep(Means(f), zero, many), Rep(t.last.value, zero, many), r);
    CatCongruence(Means(l.before), Rep(Means(f), zero, many), t.before, r);
  }

  lemma RelatesBlank()
    ensures Relates(BLANK, START)
  {
    SameSelf(Empty);
  }

  lemma AllMeans(l: Draft, t: Level)
    requires Relates(l, t)
    ensures WellFormedAlts(l.All()) && Same(MeansAlts(l.All()), t.All())
    ensures Same(MeansFront(More(l.front, l.Branch())), t.All())
  {
    hide Same;
    if l.front.More? {
      OrCongruence(MeansFront(l.front), Means(l.Branch()), t.alts.value, t.Branch());
    }
  }

  lemma RelatesAlternative(l: Draft, t: Level)
    requires Relates(l, t)
    ensures Relates(Draft(More(l.front, l.Branch()), Nothing, Option.None), Level(Some(t.All()), Empty, Option.None))
  {
    AllMeans(l, t);
    SameSelf(Empty);
  }

  lemma RelatesGroup(l: Draft, t: Level, inner: Draft, innerText: Level, reg: nat, n: Byte)
    requires Relates(l, t) && Relates(inner, innerText)
    ensures Relates(l.Piece(Group(reg, n, inner.All())), t.Piece(innerText.All()))
  {
    AllMeans(inner, innerText);
    hide Relates, Same;
    RelatesPiece(l, t, Group(reg, n, inner.All()), innerText.All());
  }

  /** The dummy that a stray `)` leaves behind means nothing. */
  lemma RelatesDummy(l: Draft, t: Level, c: Byte)
    requires Relates(l, t)
    ensures Relates(Draft(l.front, Then(l.Branch(), Dummy), Option.None).Piece(Exact([c])), t.Piece(Lit(c)))
  {
    var b := Means(l.Branch());
    var l' := Draft(l.front, Then(l.Branch(), Dummy), Option.None);
    WordOfOne(c);
    assert l'.Piece(Exact([c])).Branch() == Then(Then(l.Branch(), Dummy), Exact([c]));
    assert Means(Then(Then(l.Branch(), Dummy), Exact([c]))) == Cat(Cat(b, Empty), Cat(Empty, Lit(c)));
    assert WellFormed(l'.before);
    hide Same, Denotes, Means;
    EmptyIsUnit(Lit(c));
    EmptyIsUnit(b);
    SameTransitive(Cat(b, Empty), b, t.Branch());
    CatCongruence(Cat(b, Empty), Cat(Empty, Lit(c)), t.Branch(), Lit(c));
    MeansDummy(l.Branch());
  }

  lemma MeansDummy(f: Frag)
    ensures Means(Then(f, Dummy)) == Cat(Means(f), Empty)
  {
  }

  // ---- one step of the whole ----

  lemma RelateAt(drafts: seq<Draft>, levels: seq<Level>, i: nat)
    requires AllRelate(drafts, levels) && i < |drafts|
    ensures Relates(drafts[i], levels[i])
  {
  }

  lemma RelateTop(drafts: seq<Draft>, levels: seq<Level>, l: Draft, t: Level)
    requires AllRelate(drafts, levels) && drafts != [] && Relates(l, t)
    ensures var n := |drafts| - 1; AllRelate(drafts[n := l], levels[..n] + [t])
  {
    hide Relates;
  }

  lemma RelatePush(drafts: seq<Draft>, levels: seq<Level>)
    requires AllRelate(drafts, levels)
    ensures AllRelate(drafts + [BLANK], levels + [START])
  {
    RelatesBlank();
    hide Relates;
  }

  lemma RelateClose(drafts: seq<Draft>, levels: seq<Level>, reg: nat, inner: Byte)
    requires AllRelate(drafts, levels) && |drafts| > 1
    ensures var n := |drafts| - 2;
      AllRelate(drafts[..n] + [drafts[n].Piece(Group(reg, inner, drafts[n + 1].All()))], levels[..n] + [levels[n].Piece(levels[n + 1].All())])
  {
    var n := |drafts| - 2;
    RelatesGroup(drafts[n], levels[n], drafts[n + 1], levels[n + 1], reg, inner);
    hide Relates;
  }

  lemma StepsSnoc(text: Text, p: nat)
    requires p < |text|
    ensures Steps([START], text[..p + 1]) == Step(Steps([START], text[..p]), text[p])
  {
    assert text[..p + 1][..p] == text[..p];
  }

  lemma StepOperator(stack: seq<Level>, c: Byte)
    requires stack != [] && IsOperator(c)
    ensures var n := |stack| - 1;
      Step(stack, c) == stack[..n] + [stack[n].Repeated(c != PLUS, c != QUESTION)]
  {
  }

  /** One more operator of a run. */
  lemma RunOfOperators(r: Regex, base: Regex, zero: bool, many: bool, zero': bool, many': bool)
    requires Same(r, Rep(base, zero, many))
    ensures Same(Rep(r, zero', many'), Rep(base, zero || zero', many || many'))
  {
    hide Same, Rep, Denotes;
    RepCongruence(r, Rep(base, zero, many), zero', many');
    RepCollapses(base, zero, many, zero', many');
    SameTransitive(Rep(r, zero', many'), Rep(Rep(base, zero, many), zero', many'), Rep(base, zero || zero', many || many'));
  }

  // ---- the compiler ----

  /** Nothing more than the innermost level of reading is touched by operators. */
  ghost predicate OnlyTop(levels: seq<Level>, levels': seq<Level>) {
    |levels'| == |levels| > 0 && levels'[..|levels| - 1] == levels[..|levels| - 1]
  }

  /** What a run of operators, collapsed into the two permissions, has done to the reading. */
  ghost predicate AfterRun(levels: seq<Level>, levels': seq<Level>, zero: bool, many: bool) {
    && OnlyTop(levels, levels')
    && var t, t' := levels[|levels| - 1], levels'[|levels| - 1];
       if t.last.None? then t' == t
       else t'.last.Some? && t' == Level(t.alts, t.before, t'.last) && Same(t'.last.value, Rep(t.last.value, zero, many))
  }

  lemma AfterOne(levels: seq<Level>, c: Byte)
    requires levels != [] && IsOperator(c)
    ensures AfterRun(levels, Step(levels, c), c != PLUS, c != QUESTION)
  {
    StepOperator(levels, c);
    var t := levels[|levels| - 1];
    if t.last.Some? {
      SameSelf(Rep(t.last.value, c != PLUS, c != QUESTION));
    }
  }

  lemma AfterMore(levels: seq<Level>, levels': seq<Level>, zero: bool, many: bool, c: Byte)
    requires AfterRun(levels, levels', zero, many) && IsOperator(c)
    ensures AfterRun(levels, Step(levels', c), zero || c != PLUS, many || c != QUESTION)
  {
    StepOperator(levels', c);
    var n := |levels| - 1;
    hide Same, Rep, Denotes;
    if levels[n].last.Some? {
      RunOfOperators(levels'[n].last.value, levels[n].last.value, zero, many, c != PLUS, c != QUESTION);
    }
  }

  /** The run of operators at p, as the loop of `handle_plus` collapses it. */
  method CollectOperators(pattern: Text, start: nat) returns (p: nat, zero: bool, many: bool)
    requires start < |pattern| && IsOperator(pattern[start])
    ensures start < p <= |pattern| && (p < |pattern| ==> !IsOperator(pattern[p])) && (zero || many)
    ensures forall i :: start <= i < p ==> IsOperator(pattern[i])
    ensures AfterRun(Steps([START], pattern[..start]), Steps([START], pattern[..p]), zero, many)
  {
    hide Same, Denotes, Rep, AfterRun, Step, Steps;
    var c := pattern[start];
    zero, many := c != PLUS, c != QUESTION;
    p := start + 1;
    ghost var levels := Steps([START], pattern[..start]);
    StepsSnoc(pattern, start);
    AfterOne(levels, c);
    while p < |pattern| && IsOperator(pattern[p])
      invariant start < p <= |pattern| && (zero || many) && forall i :: start <= i < p ==> IsOperator(pattern[i])
      invariant AfterRun(levels, Steps([START], pattern[..p]), zero, many)
    {
      c := pattern[p];
      StepsSnoc(pattern, p);
      AfterMore(levels, Steps([START], pattern[..p]), zero, many, c);
      zero, many := zero || c != PLUS, many || c != QUESTION;
      p := p + 1;
    }
  }

  /** What holds between two characters of the pattern. */
  ghost predicate InStep(drafts: seq<Draft>, pattern: Text, p: nat) {
    && p <= |pattern| && AllRelate(drafts, Steps([START], pattern[..p])) && drafts != []
    && (var last := drafts[|drafts| - 1].last;
        last.Some? && p < |pattern| && IsOperator(pattern[p]) ==> Single(last.value) && !Joined(last.value))
  }

  /** The number of groups that are opened in a text. */
  function Opens(text: Text): nat {
    if text == [] then 0 else Opens(text[..|text| - 1]) + if text[|text| - 1] == OPEN then 1 else 0
  }

  lemma OpensSnoc(text: Text, p: nat)
    requires p < |text|
    ensures Opens(text[..p + 1]) == Opens(text[..p]) + if text[p] == OPEN then 1 else 0
  {
    assert text[..p + 1][..p] == text[..p];
  }

  lemma {:induction false} OpensRun(text: Text, start: nat, p: nat)
    requires start <= p <= |text| && forall i :: start <= i < p ==> text[i] != OPEN
    ensures Opens(text[..p]) == Opens(text[..start])
    decreases p
  {
    if start < p {
      OpensSnoc(text, p - 1);
      OpensRun(text, start, p - 1);
    }
  }

  /** The groups that have been read are numbered in their order. */
  ghost predicate Counted(drafts: seq<Draft>, stack: seq<CompileStackElt>, regnum: nat, pattern: Text, p: nat) {
    p <= |pattern| && Numbered(drafts, stack, regnum) && regnum == Opens(pattern[..p])
  }

  lemma CountedOperators(drafts: seq<Draft>, stack: seq<CompileStackElt>, regnum: nat, pattern: Text, start: nat, p: nat, zero: bool, many: bool)
    requires start < p <= |pattern| && InStep(drafts, pattern, start) && IsOperator(pattern[start]) && Counted(drafts, stack, regnum, pattern, start)
    requires forall i :: start <= i < p ==> IsOperator(pattern[i])
    ensures var n := |stack|;
      var l := drafts[n];
      && (l.last.None? ==> Counted(drafts, stack, regnum, pattern, p))
      && (l.last.Some? ==> Counted(drafts[n := Draft(l.front, l.before, Some(Again(l.last.value, zero, many)))], stack, regnum, pattern, p))
  {
    hide Relates, NumberedLevel, Opens, Steps;
    OpensRun(pattern, start, p);
    if drafts[|stack|].last.Some? {
      NumberAgain(drafts, stack, regnum, zero, many);
    }
  }

  lemma CountedDot(drafts: seq<Draft>, stack: seq<CompileStackElt>, regnum: nat, pattern: Text, p: nat)
    requires p < |pattern| && Counted(drafts, stack, regnum, pattern, p) && pattern[p] == DOT
    ensures Counted(drafts[|stack| := drafts[|stack|].Piece(AnyChar)], stack, regnum, pattern, p + 1)
  {
    hide NumberedLevel, Opens;
    OpensSnoc(pattern, p);
    NumberPiece(drafts, stack, regnum, AnyChar);
  }

  lemma CountedOpen(drafts: seq<Draft>, stack: seq<CompileStackElt>, regnum: nat, pattern: Text, p: nat, elt: CompileStackElt)
    requires p < |pattern| && Counted(drafts, stack, regnum, pattern, p) && pattern[p] == OPEN && elt.regnum == regnum + 1
    ensures Counted(drafts + [BLANK], stack + [elt], regnum + 1, pattern, p + 1)
  {
    hide Numbered, Opens;
    OpensSnoc(pattern, p);
    NumberOpen(drafts, stack, regnum, elt);
  }

  lemma CountedClose(drafts: seq<Draft>, stack: seq<CompileStackElt>, regnum: nat, pattern: Text, p: nat, inner: Byte)
    requires p < |pattern| && Counted(drafts, stack, regnum, pattern, p) && pattern[p] == CLOSE && stack != []
    ensures var n := |stack| - 1;
      Counted(drafts[..n] + [drafts[n].Piece(Group(stack[n].regnum, inner, drafts[n + 1].All()))], stack[..n], regnum, pattern, p + 1)
  {
    hide NumberedLevel, Opens;
    OpensSnoc(pattern, p);
    NumberClose(drafts, stack, regnum, inner);
  }

  lemma CountedBar(drafts: seq<Draft>, stack: seq<CompileStackElt>, regnum: nat, pattern: Text, p: nat)
    requires p < |pattern| && Counted(drafts, stack, regnum, pattern, p) && pattern[p] == BAR
    ensures var l := drafts[|stack|];
      Counted(drafts[|stack| := Draft(More(l.front, l.Branch()), Nothing, Option.None)], stack, regnum, pattern, p + 1)
  {
    hide NumberedLevel, Opens;
    OpensSnoc(pattern, p);
    NumberBar(drafts, stack, regnum);
  }

  lemma CountedChar(drafts: seq<Draft>, drafts': seq<Draft>, stack: seq<CompileStackElt>, regnum: nat, pattern: Text, p: nat, joined: bool)
    requires p < |pattern| && Counted(drafts, stack, regnum, pattern, p) && pattern[p] != OPEN && |drafts| == |stack| + 1
    requires var n := |stack|;
      var l := drafts[n];
      if joined then
        && l.last.Some? && l.last.value.Exact?
        && drafts' == drafts[n := Draft(l.front, l.before, Some(Exact(l.last.value.chars + [pattern[p]])))]
      else
        drafts' == drafts[n := l.Piece(Exact([pattern[p]]))]
        || (l.front.More? && drafts' == drafts[n := Draft(l.front, Then(l.Branch(), Dummy), Option.None).Piece(Exact([pattern[p]]))])
    ensures Counted(drafts', stack, regnum, pattern, p + 1)
  {
    hide NumberedLevel, Opens;
    OpensSnoc(pattern, p);
    var n := |stack|;
    var l := drafts[n];
    if joined {
      NumberJoined(drafts, stack, regnum, Exact(l.last.value.chars + [pattern[p]]));
    } else {
      NumberPiece(drafts, stack, regnum, Exact([pattern[p]]));
      NumberDummy(drafts, stack, regnum);
      var dummied := drafts[n := Draft(l.front, Then(l.Branch(), Dummy), Option.None)];
      NumberPiece(dummied, stack, regnum, Exact([pattern[p]]));
      assert dummied[n := dummied[n].Piece(Exact([pattern[p]]))] == drafts[n := dummied[n].Piece(Exact([pattern[p]]))];
    }
  }

  lemma InStepChar(drafts: seq<Draft>, drafts': seq<Draft>, pattern: Text, p: nat, next: Option<Byte>, joined: bool)
    requires p < |pattern| && InStep(drafts, pattern, p)
    requires next == (if p + 1 < |pattern| then Some(pattern[p + 1]) else Option.None)
    requires var c := pattern[p];
      !IsOperator(c) && c != OPEN && c != BAR && c != DOT && (c == CLOSE ==> |drafts| == 1)
    requires var n := |drafts| - 1;
      var l := drafts[n];
      if joined then
        && l.last.Some? && l.last.value.Exact? && 1 <= |l.last.value.chars| < 255 && !(next.Some? && IsOperator(next.value))
        && drafts' == drafts[n := Draft(l.front, l.before, Some(Exact(l.last.value.chars + [pattern[p]])))]
      else
        drafts' == drafts[n := l.Piece(Exact([pattern[p]]))]
        || (l.front.More? && drafts' == drafts[n := Draft(l.front, Then(l.Branch(), Dummy), Option.None).Piece(Exact([pattern[p]]))])
    ensures InStep(drafts', pattern, p + 1)
  {
    hide Same, Denotes, Relates;
    var n, c := |drafts| - 1, pattern[p];
    var levels := Steps([START], pattern[..p]);
    StepsSnoc(pattern, p);
    RelateAt(drafts, levels, n);
    var l, t := drafts[n], levels[n];
    if joined {
      RelatesJoined(l, t, c);
    } else {
      RelatesChar(l, t, c);
      RelatesDummy(l, t, c);
    }
    RelateTop(drafts, levels, drafts'[n], t.Piece(Lit(c)));
    assert drafts' == drafts[n := drafts'[n]];
  }

  lemma InStepDot(drafts: seq<Draft>, pattern: Text, p: nat)
    requires p < |pattern| && InStep(drafts, pattern, p) && pattern[p] == DOT
    ensures var n := |drafts| - 1; InStep(drafts[n := drafts[n].Piece(AnyChar)], pattern, p + 1)
  {
    hide Same, Denotes, Relates;
    var n := |drafts| - 1;
    var levels := Steps([START], pattern[..p]);
    StepsSnoc(pattern, p);
    RelateAt(drafts, levels, n);
    SameSelf(Any);
    RelatesPiece(drafts[n], levels[n], AnyChar, Any);
    RelateTop(drafts, levels, drafts[n].Piece(AnyChar), levels[n].Piece(Any));
  }

  lemma InStepOpen(drafts: seq<Draft>, pattern: Text, p: nat)
    requires p < |pattern| && InStep(drafts, pattern, p) && pattern[p] == OPEN
    ensures InStep(drafts + [BLANK], pattern, p + 1)
  {
    hide Relates;
    StepsSnoc(pattern, p);
    RelatePush(drafts, Steps([START], pattern[..p]));
  }

  lemma InStepClose(drafts: seq<Draft>, pattern: Text, p: nat, reg: nat, inner: Byte)
    requires p < |pattern| && InStep(drafts, pattern, p) && pattern[p] == CLOSE && |drafts| > 1
    ensures var n := |drafts| - 2; InStep(drafts[..n] + [drafts[n].Piece(Group(reg, inner, drafts[n + 1].All()))], pattern, p + 1)
  {
    hide Relates;
    StepsSnoc(pattern, p);
    RelateClose(drafts, Steps([START], pattern[..p]), reg, inner);
  }

  lemma InStepBar(drafts: seq<Draft>, pattern: Text, p: nat)
    requires p < |pattern| && InStep(drafts, pattern, p) && pattern[p] == BAR
    ensures var n := |drafts| - 1;
      InStep(drafts[n := Draft(More(drafts[n].front, drafts[n].Branch()), Nothing, Option.None)], pattern, p + 1)
  {
    hide Relates;
    var n := |drafts| - 1;
    var levels := Steps([START], pattern[..p]);
    StepsSnoc(pattern, p);
    RelateAt(drafts, levels, n);
    RelatesAlternative(drafts[n], levels[n]);
    RelateTop(drafts, levels, Draft(More(drafts[n].front, drafts[n].Branch()), Nothing, Option.None), Level(Some(levels[n].All()), Empty, Option.None));
  }

  lemma InStepOperators(drafts: seq<Draft>, pattern: Text, start: nat, p: nat, zero: bool, many: bool)
    requires start < p <= |pattern| && InStep(drafts, pattern, start) && IsOperator(pattern[start]) && (p < |pattern| ==> !IsOperator(pattern[p]))
    requires zero || many
    requires AfterRun(Steps([START], pattern[..start]), Steps([START], pattern[..p]), zero, many)
    ensures var n := |drafts| - 1;
      var l := drafts[n];
      && (l.last.None? ==> InStep(drafts, pattern, p))
      && (l.last.Some? ==> InStep(drafts[n := Draft(l.front, l.before, Some(Again(l.last.value, zero, many)))], pattern, p))
  {
    hide Same, Denotes, Rep;
    var n := |drafts| - 1;
    var levels, levels' := Steps([START], pattern[..start]), Steps([START], pattern[..p]);
    RelateAt(drafts, levels, n);
    var l, t, t' := drafts[n], levels[n], levels'[n];
    assert levels' == levels[..n] + [t'];
    if l.last.Some? {
      RelatesRepeated(l, t, zero, many, t'.last.value);
      hide Relates;
      RelateTop(drafts, levels, Draft(l.front, l.before, Some(Again(l.last.value, zero, many))), t');
    } else {
      assert levels' == levels;
    }
  }

  /** One round of the main loop: a character, or a run of operators. */
  method Advance(comp: Compiler, pattern: Text, start: nat) returns (ok: bool, p: nat)
    requires start < |pattern| && comp.Valid() && InStep(comp.drafts, pattern, start) && Counted(comp.drafts, comp.stack, comp.regnum, pattern, start)
    modifies comp, comp.out, comp.out.buffer
    ensures start < p <= |pattern| && fresh({comp.out.buffer} - {old(comp.out.buffer)}) && comp.out.Ready()
    ensures ok ==> comp.Valid() && InStep(comp.drafts, pattern, p) && Counted(comp.drafts, comp.stack, comp.regnum, pattern, p)
    ensures comp.out.b <= old(comp.out.b) + 9 && (!ok ==> old(comp.out.b) + 9 > MAX_BUF_SIZE)
  {
    hide *;
    Sizes(comp, pattern, start);
    ok := true;
    var c := pattern[start];
    ghost var drafts, n, stack, regnum := comp.drafts, |comp.stack|, comp.stack, comp.regnum;
    if IsOperator(c) {
      var zero, many;
      p, zero, many := CollectOperators(pattern, start);
      CountedOperators(drafts, stack, regnum, pattern, start, p, zero, many);
      InStepOperators(drafts, pattern, start, p, zero, many);
      if comp.laststart.Some? {
        ok := comp.Operator(zero, many);
      }
      return;
    }
    p := start + 1;
    var next := if p < |pattern| then Some(pattern[p]) else Option.None;
    if c == DOT {
      ok := comp.Dot();
      InStepDot(drafts, pattern, start);
      CountedDot(drafts, stack, regnum, pattern, start);
    } else if c == OPEN {
      ok := comp.Open();
      InStepOpen(drafts, pattern, start);
      CountedOpen(drafts, stack, regnum, pattern, start, comp.stack[n]);
    } else if c == CLOSE && comp.stack != [] {
      ghost var elt := comp.stack[n - 1];
      ok := comp.Close();
      InStepClose(drafts, pattern, start, elt.regnum, (comp.regnum - elt.regnum) % 256);
      CountedClose(drafts, stack, regnum, pattern, start, (regnum - elt.regnum) % 256);
    } else if c == BAR {
      ok := comp.Alternative();
      InStepBar(drafts, pattern, start);
      CountedBar(drafts, stack, regnum, pattern, start);
    } else {
      ok := Ordinary(comp, pattern, start, next);
    }
  }

  /** A character that stands for itself, which an unmatched `)` is too. */
  method Ordinary(comp: Compiler, pattern: Text, start: nat, next: Option<Byte>) returns (ok: bool)
    requires start < |pattern| && comp.Valid() && InStep(comp.drafts, pattern, start) && Counted(comp.drafts, comp.stack, comp.regnum, pattern, start)
    requires var c := pattern[start]; !IsOperator(c) && c != OPEN && c != BAR && c != DOT && (c == CLOSE ==> comp.stack == [])
    requires next == (if start + 1 < |pattern| then Some(pattern[start + 1]) else Option.None)
    modifies comp, comp.out, comp.out.buffer
    ensures fresh({comp.out.buffer} - {old(comp.out.buffer)}) && comp.out.Ready()
    ensures ok ==> comp.Valid() && InStep(comp.drafts, pattern, start + 1) && Counted(comp.drafts, comp.stack, comp.regnum, pattern, start + 1)
    ensures comp.out.b <= old(comp.out.b) + 9 && (!ok ==> old(comp.out.b) + 9 > MAX_BUF_SIZE)
  {
    hide *;
    Sizes(comp, pattern, start);
    ghost var drafts, n := comp.drafts, |comp.stack|;
    ghost var joined;
    if pattern[start] == CLOSE {
      ok, joined := comp.StrayClose(next);
    } else {
      ValidButLast(comp);
      ok, joined := comp.PlainChar(pattern[start], next, comp.laststart);
    }
    if ok {
      InStepChar(drafts, comp.drafts, pattern, start, next, joined);
      CountedChar(drafts, comp.drafts, comp.stack, comp.regnum, pattern, start, joined);
    }
  }

  lemma ValidButLast(comp: Compiler)
    requires comp.Valid()
    ensures comp.ValidBut(comp.laststart)
  {
  }

  lemma Sizes(comp: Compiler, pattern: Text, p: nat)
    requires comp.Valid() && InStep(comp.drafts, pattern, p)
    ensures comp.out.Ready() && |comp.drafts| == |comp.stack| + 1 && InStep(comp.drafts, pattern, p)
    ensures comp.laststart.Some? <==> comp.drafts[|comp.stack|].last.Some?
  {
  }

  /** `regex_compile` */
  method Compile(pattern: Text) returns (err: Error, buf: PatternBuffer, ghost alts: Alts)
    requires forall i :: 0 <= i < |pattern| ==> InFragment(pattern[i])
    ensures fresh(buf) && buf.Ready()
    ensures err == NoError ==> Read(pattern).Some? && WellFormedAlts(alts) && buf.Contents() == AltBytes(alts)
    ensures err == NoError ==> Same(MeansAlts(alts), Read(pattern).value)
    ensures err == NoError ==> TidyAlts(alts, 0) && GroupsAlts(alts) == Opens(pattern)
    ensures err == NoError && |buf.Contents()| < REACH && Opens(pattern) <= MAX_REGNUM ==> RegexBudget.Tame(alts)
    ensures err == EParen ==> Read(pattern) == Option.None
    ensures err == ESize ==> 9 * |pattern| > MAX_BUF_SIZE
    ensures err == NoError && |buf.Contents()| < REACH ==>
      forall w: Text :: Accepts(buf.Contents(), w) <==> Denotes(Read(pattern).value, w)
  {
    hide Same, Denotes, InStep, Accepts, Counted, AltBytes, MeansAlts, WellFormedAlts, TidyAlts, GroupsAlts, Opens, Read, Outer, Current, PendingOk, Filled;
    var comp := new Compiler();
    buf := comp.out;
    alts := BLANK.All();
    var p := 0;
    InStepStart(pattern);
    while p < |pattern|
      invariant p <= |pattern| && comp.Valid() && fresh(comp) && comp.out == buf && fresh(buf) && fresh(buf.buffer)
      invariant InStep(comp.drafts, pattern, p) && Counted(comp.drafts, comp.stack, comp.regnum, pattern, p) && buf.b <= 9 * p
    {
      var ok;
      ok, p := Advance(comp, pattern, p);
      if !ok {
        return ESize, buf, alts;
      }
    }
    ghost var drafts := comp.drafts;
    ghost var c0 := buf.Contents();
    CurrentBase(c0, comp.bases[|comp.stack|], comp.drafts[|comp.stack|], comp.begalt, comp.fixup, comp.laststart);
    comp.FillFixup(buf.b);
    InStepEnd(drafts, pattern);
    if comp.stack != [] {
      return EParen, buf, alts;
    }
    alts := drafts[0].All();
    CountedEnd(drafts, comp.regnum, pattern);
    Finished(c0, buf.Contents(), comp.bases, drafts, comp.begalt, comp.fixup, comp.laststart);
    AcceptsTheReading(alts, pattern);
    err := NoError;
  }

  lemma AcceptsTheReading(alts: Alts, pattern: Text)
    requires WellFormedAlts(alts) && Read(pattern).Some? && Same(MeansAlts(alts), Read(pattern).value)
    ensures |AltBytes(alts)| < REACH ==> forall w: Text :: Accepts(AltBytes(alts), w) <==> Denotes(Read(pattern).value, w)
  {
    hide *;
    if |AltBytes(alts)| < REACH {
      forall w: Text
        ensures Accepts(AltBytes(alts), w) <==> Denotes(Read(pattern).value, w)
      {
        RegexMeaning.AcceptsWhatItMeans(alts, w);
        SameAt(MeansAlts(alts), Read(pattern).value, w);
      }
    }
  }

  lemma SameAt(a: Regex, b: Regex, w: Text)
    requires Same(a, b)
    ensures Denotes(a, w) <==> Denotes(b, w)
  {
  }

  lemma CountedEnd(drafts: seq<Draft>, regnum: nat, pattern: Text)
    requires Counted(drafts, [], regnum, pattern, |pattern|)
    ensures TidyAlts(drafts[0].All(), 0) && GroupsAlts(drafts[0].All()) == Opens(pattern)
  {
    hide NumberedLevel, Opens;
    assert pattern[..|pattern|] == pattern;
    NumberEnd(drafts, regnum);
  }

  lemma InStepStart(pattern: Text)
    ensures InStep([BLANK], pattern, 0) && Counted([BLANK], [], 0, pattern, 0)
  {
    assert pattern[..0] == [];
    NumberStart();
    RelatesBlank();
  }

  lemma InStepEnd(drafts: seq<Draft>, pattern: Text)
    requires InStep(drafts, pattern, |pattern|)
    ensures Read(pattern).Some? <==> |drafts| == 1
    ensures |drafts| == 1 ==> WellFormedAlts(drafts[0].All()) && Same(MeansAlts(drafts[0].All()), Read(pattern).value)
  {
    hide Relates, Same;
    assert pattern[..|pattern|] == pattern;
    var levels := Steps([START], pattern);
    if |drafts| == 1 {
      RelateAt(drafts, levels, 0);
      AllMeans(drafts[0], levels[0]);
    }
  }

  /** With the last jump filled in, the buffer holds the code of all alternatives. */
  lemma Finished(c: Code, c': Code, bases: seq<nat>, drafts: seq<Draft>, begalt: nat, fixup: Option<nat>, laststart: Option<nat>)
    requires Outer(c, bases, drafts, []) && Current(c, bases[0], drafts[0], begalt, fixup, laststart) && Filled(c, c', fixup, |c|)
    ensures c' == AltBytes(drafts[0].All())
  {
    var l := drafts[0];
    hide *;
    OuterCounts(c, bases, drafts, []);
    CurrentFacts(c, 0, l, begalt, fixup, laststart);
    FilledFacts(c, c', fixup, |c|);
    FrontSize(l.front, Nothing);
    if l.front.More? {
      var j := Jump(JUMP_PAST_ALT, |Bytes(l.Branch())|);
      AtStored(c, begalt - 3, j, begalt, Bytes(l.Branch()));
      FrontKept(c, c', begalt - 3, l);
      LaidAll(c', 0, l);
    } else {
      SingleKept(c, l);
      LaidAll(c', 0, l);
    }
    AtWhole(c', AltBytes(l.All()));
  }

  lemma FrontKept(c: Code, c': Code, k: nat, l: Draft)
    requires Laid(c, 0, l) && l.front.More? && SameBelow(c, c', k) && k == |FrontBytes(l.front)| && |c'| == |c|
    requires At(c', k + 3, Bytes(l.Branch()))
    ensures Laid(c', 0, l)
  {
    AtFrame(c, c', k, 0, FrontBytes(l.front));
  }

  lemma SingleKept(c: Code, l: Draft)
    requires Laid(c, 0, l) && l.front.None?
    ensures OpenSize(l.front) == 0
  {
  }

  lemma AtWhole(c: Code, bs: Code)
    requires At(c, 0, bs) && |c| == |bs|
    ensures c == bs
  {
    assert c[0..0 + |bs|] == c;
  }
}
