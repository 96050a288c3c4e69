/** The pattern text as POSIX extended syntax reads it, one character at a time. */
module RegexText {
  import opened Wrappers
  import opened RegexLanguage

  const STAR: Byte := '*' as int
  const PLUS: Byte := '+' as int
  const QUESTION: Byte := '?' as int
  const OPEN: Byte := '(' as int
  const CLOSE: Byte := ')' as int
  const BAR: Byte := '|' as int
  const DOT: Byte := '.' as int

  predicate IsOperator(c: Byte) {
    c == STAR || c == PLUS || c == QUESTION
  }

  /** The fragment leaves out anchors, brackets, intervals and backslashes. */
  predicate InFragment(c: Byte) {
    c != '^' as int && c != '$' as int && c != '[' as int && c != '{' as int && c != '\\' as int
  }

  predicate IsPlain(c: Byte) {
    InFragment(c) && !IsOperator(c) && c != OPEN && c != CLOSE && c != BAR && c != DOT
  }

  /** One nesting level: the finished alternatives, the pieces of the branch being read, and its
      last piece, which an operator would apply to. */
  datatype Level = Level(alts: Option<Regex>, before: Regex, last: Option<Regex>) {
    function Branch(): Regex {
      if last.Some? then Cat(before, last.value) else before
    }

    function All(): Regex {
      if alts.Some? then Or(alts.value, Branch()) else Branch()
    }

    function Piece(r: Regex): Level {
      Level(alts, Branch(), Some(r))
    }

    /** An operator with nothing to apply to is ignored. */
    function Repeated(zero: bool, many: bool): Level {
      if last.Some? then Level(alts, before, Some(Rep(last.value, zero, many))) else this
    }
  }

  const START := Level(None, Empty, None)

  /** What a character does to the open levels; an unmatched `)` is an ordinary character. */
  function Step(stack: seq<Level>, c: Byte): (stack': seq<Level>)
    requires stack != []
    ensures stack' != []
  {
    var n := |stack| - 1;
    if c == OPEN then stack + [START]
    else if c == CLOSE && n > 0 then stack[..n - 1] + [stack[n - 1].Piece(stack[n].All())]
    else if c == BAR then stack[..n] + [Level(Some(stack[n].All()), Empty, None)]
    else if IsOperator(c) then stack[..n] + [stack[n].Repeated(c != PLUS, c != QUESTION)]
    else stack[..n] + [stack[n].Piece(if c == DOT then Any else Lit(c))]
  }

  function Steps(stack: seq<Level>, text: Text): (stack': seq<Level>)
    requires stack != []
    ensures stack' != []
  {
    if text == [] then stack else Step(Steps(stack, text[..|text| - 1]), text[|text| - 1])
  }

  /** The expression a pattern stands for, unless a group is left open. */
  function Read(text: Text): Option<Regex> {
    var stack := Steps([START], text);
    if |stack| == 1 then Some(stack[0].All()) else None
  }

  // ---- every expression can be written, and reads back ----

  function Print(r: Regex): Text
    decreases r, 0
  {
    match r
    case Empty => [OPEN, CLOSE]
    case Lit(c) => [c]
    case Any => [DOT]
    case Cat(a, b) => Grouped(a) + Grouped(b)
    case Or(a, b) => Grouped(a) + [BAR] + Grouped(b)
    case Star(a) => Grouped(a) + [STAR]
  }

  function Grouped(r: Regex): Text
    decreases r, 1
  {
    [OPEN] + Print(r) + [CLOSE]
  }

  predicate PlainLiterals(r: Regex) {
    match r
    case Lit(c) => IsPlain(c)
    case Cat(a, b) => PlainLiterals(a) && PlainLiterals(b)
    case Or(a, b) => PlainLiterals(a) && PlainLiterals(b)
    case Star(a) => PlainLiterals(a)
    case _ => true
  }

  lemma {:induction false} StepsAppend(stack: seq<Level>, u: Text, v: Text)
    requires stack != []
    ensures Steps(stack, u + v) == Steps(Steps(stack, u), v)
    decreases |v|
  {
    if v == [] {
      assert u + v == u;
    } else {
      StepsAppend(stack, u, v[..|v| - 1]);
      assert (u + v)[..|u + v| - 1] == u + v[..|v| - 1];
    }
  }

  lemma StepsOne(stack: seq<Level>, c: Byte)
    requires stack != []
    ensures Steps(stack, [c]) == Step(stack, c)
  {
    assert [c][..0] == [];
    assert Steps(stack, [c][..0]) == stack;
  }

  lemma {:induction false} ReadGrouped(outer: seq<Level>, l: Level, r: Regex) returns (piece: Regex)
    requires PlainLiterals(r)
    ensures Steps(outer + [l], Grouped(r)) == outer + [l.Piece(piece)] && Same(piece, r)
    decreases r, 1
  {
    hide Same, Denotes;
    var s := outer + [l];
    StepsOne(s, OPEN);
    StepsAppend(s, [OPEN], Print(r));
    var inner := ReadPrinted(s, r);
    StepsAppend(s, [OPEN] + Print(r), [CLOSE]);
    StepsOne(s + [inner], CLOSE);
    assert (s + [inner])[..|s| - 1] == outer;
    piece := inner.All();
  }

  /** Printed text, read at a fresh level, leaves a level that means the expression. */
  lemma {:induction false} ReadPrinted(outer: seq<Level>, r: Regex) returns (inner: Level)
    requires PlainLiterals(r)
    ensures Steps(outer + [START], Print(r)) == outer + [inner] && Same(inner.All(), r)
    decreases r, 0
  {
    hide Denotes, Same, Steps;
    var s := outer + [START];
    assert s[..|outer|] == outer;
    match r
    case Empty =>
      StepsOne(s, OPEN);
      StepsAppend(s, [OPEN], [CLOSE]);
      StepsOne(s + [START], CLOSE);
      assert (s + [START])[..|s| - 1] == outer;
      assert [OPEN] + [CLOSE] == Print(r);
      inner := START.Piece(Empty);
      EmptyIsUnit(Empty);
    case Lit(c) =>
      StepsOne(s, c);
      inner := START.Piece(r);
      EmptyIsUnit(r);
    case Any =>
      StepsOne(s, DOT);
      inner := START.Piece(r);
      EmptyIsUnit(r);
    case Cat(a, b) =>
      var x := ReadGrouped(outer, START, a);
      var y := ReadGrouped(outer, START.Piece(x), b);
      StepsAppend(s, Grouped(a), Grouped(b));
      inner := START.Piece(x).Piece(y);
      PrintedCat(x, y, a, b);
    case Or(a, b) =>
      var x := ReadGrouped(outer, START, a);
      var l := Level(Some(START.Piece(x).All()), Empty, None);
      StepsOne(outer + [START.Piece(x)], BAR);
      var y := ReadGrouped(outer, l, b);
      StepsAppend(s, Grouped(a), [BAR]);
      StepsAppend(s, Grouped(a) + [BAR], Grouped(b));
      inner := l.Piece(y);
      PrintedOr(x, y, a, b);
    case Star(a) =>
      var x := ReadGrouped(outer, START, a);
      StepsOne(outer + [START.Piece(x)], STAR);
      StepsAppend(s, Grouped(a), [STAR]);
      inner := START.Piece(x).Repeated(true, true);
      StarCongruence(x, a);
      EmptyIsUnit(Star(x));
      SameTransitive(Cat(Empty, Star(x)), Star(x), Star(a));
  }

  lemma PrintedCat(x: Regex, y: Regex, a: Regex, b: Regex)
    requires Same(x, a) && Same(y, b)
    ensures Same(Cat(Cat(Empty, x), y), Cat(a, b))
  {
    hide Denotes, Same;
    EmptyIsUnit(x);
    SameTransitive(Cat(Empty, x), x, a);
    CatCongruence(Cat(Empty, x), y, a, b);
  }

  lemma PrintedOr(x: Regex, y: Regex, a: Regex, b: Regex)
    requires Same(x, a) && Same(y, b)
    ensures Same(Or(Cat(Empty, x), Cat(Empty, y)), Or(a, b))
  {
    hide Denotes, Same;
    EmptyIsUnit(x);
    EmptyIsUnit(y);
    SameTransitive(Cat(Empty, x), x, a);
    SameTransitive(Cat(Empty, y), y, b);
    OrCongruence(Cat(Empty, x), Cat(Empty, y), a, b);
  }

  /** Writing an expression down and reading it back keeps its meaning. */
  lemma PrintReadsBack(r: Regex)
    requires PlainLiterals(r)
    ensures Read(Print(r)).Some? && Same(Read(Print(r)).value, r)
  {
    hide Denotes, Same;
    var inner := ReadPrinted([], r);
    assert [] + [START] == [START];
  }
}
