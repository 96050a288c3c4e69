/** Compiled patterns: opcodes, two-byte jump distances, and what a program can do when every
    failure jump is a free choice. */
module RegexCode {
  import opened RegexLanguage

  type Code = seq<Byte>

  const EXACTN: Byte := 1
  const ANYCHAR: Byte := 2
  const START_MEMORY: Byte := 5
  const STOP_MEMORY: Byte := 6
  const JUMP: Byte := 12
  const JUMP_PAST_ALT: Byte := 13
  const ON_FAILURE_JUMP: Byte := 14
  const POP_FAILURE_JUMP: Byte := 16
  const MAYBE_POP_JUMP: Byte := 17
  const DUMMY_FAILURE_JUMP: Byte := 18
  const PUSH_DUMMY_FAILURE: Byte := 19

  const MAX_REGNUM := 255
  /** Jump distances are signed 16-bit numbers. */
  const REACH := 0x8000

  // ---- numbers ----

  /** The two bytes that `STORE_NUMBER` writes; the shift of a negative number rounds down. */
  function Low(n: int): Byte { n % 256 }
  function High(n: int): Byte { n / 256 % 256 }

  /** `EXTRACT_NUMBER` */
  function Number(c: Code, p: int): int
    requires 0 <= p && p + 1 < |c|
  {
    var hi: int := c[p + 1];
    c[p] + 256 * (if hi < 128 then hi else hi - 256)
  }

  lemma NumberReadsBack(n: int)
    requires -REACH <= n < REACH
    ensures var hi: int := High(n); Low(n) + 256 * (if hi < 128 then hi else hi - 256) == n
  {
    var q := n / 256;
    assert -128 <= q < 128;
    assert q % 256 == if q < 0 then q + 256 else q;
  }

  function Jump(op: Byte, n: int): (j: Code)
    ensures |j| == 3
  {
    [op, Low(n), High(n)]
  }

  /** The bytes bs stand at o. */
  ghost predicate At(c: Code, o: int, bs: Code) {
    0 <= o && o + |bs| <= |c| && c[o..o + |bs|] == bs
  }

  lemma AtParts(c: Code, o: int, u: Code, v: Code)
    requires At(c, o, u + v)
    ensures At(c, o, u) && At(c, o + |u|, v)
  {
    var w := c[o..o + |u + v|];
    assert w[..|u|] == u && w[|u|..] == v;
    assert c[o..o + |u|] == w[..|u|];
    assert c[o + |u|..o + |u| + |v|] == w[|u|..];
  }

  lemma AtByte(c: Code, o: int, bs: Code, i: nat)
    requires At(c, o, bs) && i < |bs|
    ensures o + i < |c| && c[o + i] == bs[i]
  {
    assert c[o..o + |bs|][i] == c[o + i];
  }

  lemma AtJump(c: Code, o: int, op: Byte, n: int)
    requires At(c, o, Jump(op, n)) && -REACH <= n < REACH
    ensures o + 3 <= |c| && c[o] == op && Number(c, o + 1) == n
  {
    AtByte(c, o, Jump(op, n), 0);
    AtByte(c, o, Jump(op, n), 1);
    AtByte(c, o, Jump(op, n), 2);
    NumberReadsBack(n);
  }

  // ---- the moves of a program ----

  predicate IsJump(op: Byte) {
    op == JUMP || op == JUMP_PAST_ALT || op == POP_FAILURE_JUMP || op == MAYBE_POP_JUMP || op == DUMMY_FAILURE_JUMP
  }

  /** A whole instruction of the fragment stands at p. */
  predicate Fits(c: Code, p: int) {
    && 0 <= p < |c|
    && (c[p] == EXACTN ==> p + 2 < |c| && 1 <= c[p + 1] && p + 2 + c[p + 1] <= |c|)
    && (c[p] == START_MEMORY || c[p] == STOP_MEMORY || c[p] == ON_FAILURE_JUMP || IsJump(c[p]) ==> p + 3 <= |c|)
    && (c[p] == EXACTN || c[p] == ANYCHAR || c[p] == START_MEMORY || c[p] == STOP_MEMORY ||
        c[p] == ON_FAILURE_JUMP || c[p] == PUSH_DUMMY_FAILURE || IsJump(c[p]))
  }

  /** One instruction leads from place p of the code and d of the text to p' and d'. */
  ghost predicate Move(c: Code, s: Text, p: int, d: int, p': int, d': int) {
    && Fits(c, p) && 0 <= d <= d' <= |s|
    && if c[p] == EXACTN then
         p' == p + 2 + c[p + 1] && d' == d + c[p + 1] && s[d..d'] == c[p + 2..p']
       else if c[p] == ANYCHAR then
         p' == p + 1 && d' == d + 1 && s[d] != 0
       else
         && d' == d
         && if c[p] == ON_FAILURE_JUMP then p' == p + 3 || p' == p + 3 + Number(c, p + 1)
            else if IsJump(c[p]) then p' == p + 3 + Number(c, p + 1)
            else if c[p] == PUSH_DUMMY_FAILURE then p' == p + 1
            else p' == p + 3
  }

  ghost predicate Runs(c: Code, s: Text, p: int, d: int, p': int, d': int, n: nat)
    decreases n
  {
    if n == 0 then p == p' && d == d'
    else exists q, e :: Move(c, s, p, d, q, e) && Runs(c, s, q, e, p', d', n - 1)
  }

  ghost predicate Reaches(c: Code, s: Text, p: int, d: int, p': int, d': int) {
    exists n: nat :: Runs(c, s, p, d, p', d', n)
  }

  /** The program gets through all of w. */
  ghost predicate Accepts(c: Code, w: Text) {
    Reaches(c, w, 0, 0, |c|, |w|)
  }

  lemma FirstMove(c: Code, s: Text, p: int, d: int, p': int, d': int, n: nat) returns (q: int, e: int)
    requires Runs(c, s, p, d, p', d', n) && n > 0
    ensures Move(c, s, p, d, q, e) && Runs(c, s, q, e, p', d', n - 1)
  {
    q, e :| Move(c, s, p, d, q, e) && Runs(c, s, q, e, p', d', n - 1);
  }

  lemma ReachesSelf(c: Code, s: Text, p: int, d: int)
    ensures Reaches(c, s, p, d, p, d)
  {
    assert Runs(c, s, p, d, p, d, 0);
  }

  lemma ReachesMove(c: Code, s: Text, p: int, d: int, p': int, d': int)
    requires Move(c, s, p, d, p', d')
    ensures Reaches(c, s, p, d, p', d')
  {
    assert Runs(c, s, p', d', p', d', 0);
    assert Runs(c, s, p, d, p', d', 1);
  }

  lemma {:induction false} RunsJoin(c: Code, s: Text, p: int, d: int, q: int, e: int, p': int, d': int, n: nat, m: nat)
    requires Runs(c, s, p, d, q, e, n) && Runs(c, s, q, e, p', d', m)
    ensures Runs(c, s, p, d, p', d', n + m)
    decreases n
  {
    if n > 0 {
      var x, y := FirstMove(c, s, p, d, q, e, n);
      RunsJoin(c, s, x, y, q, e, p', d', n - 1, m);
    }
  }

  lemma ReachesJoin(c: Code, s: Text, p: int, d: int, q: int, e: int, p': int, d': int)
    requires Reaches(c, s, p, d, q, e) && Reaches(c, s, q, e, p', d')
    ensures Reaches(c, s, p, d, p', d')
  {
    var n: nat :| Runs(c, s, p, d, q, e, n);
    var m: nat :| Runs(c, s, q, e, p', d', m);
    RunsJoin(c, s, p, d, q, e, p', d', n, m);
  }

  // ---- the shapes of compiled code ----

  /** What the compiler lays out for a piece of pattern. */
  datatype Frag =
    | Nothing
    | Exact(chars: Text)
    | AnyChar
    | Dummy
    | Then(first: Frag, second: Frag)
    | Again(body: Frag, zero: bool, many: bool)
    | Group(reg: nat, inner: Byte, alts: Alts)

  datatype Alts = Alts(front: Front, last: Frag)

  /** The alternatives but the last, in the order they are read. */
  datatype Front = None | More(before: Front, branch: Frag)

  function Bytes(f: Frag): Code
    decreases f, 1
  {
    match f
    case Nothing => []
    case Exact(chars) => if |chars| < 256 then [EXACTN, |chars|] + chars else []
    case AnyChar => [ANYCHAR]
    case Dummy => [PUSH_DUMMY_FAILURE]
    case Then(a, b) => Bytes(a) + Bytes(b)
    case Again(b, zero, many) => (if zero then [] else Jump(DUMMY_FAILURE_JUMP, 3)) + LoopBytes(Bytes(b), many)
    case Group(reg, inner, alts) =>
      Memory(START_MEMORY, reg, inner) + AltBytes(alts) + GroupEnd(reg, inner, alts.front.None?)
  }

  /** Groups beyond the last register leave no mark. */
  function Memory(op: Byte, reg: nat, inner: Byte): Code {
    if reg <= MAX_REGNUM then [op, reg, inner] else []
  }

  function GroupEnd(reg: nat, inner: Byte, single: bool): Code {
    (if single then [] else [PUSH_DUMMY_FAILURE]) + Memory(STOP_MEMORY, reg, inner)
  }

  function LoopBytes(body: Code, many: bool): Code {
    if many then Jump(ON_FAILURE_JUMP, |body| + 3) + body + Jump(MAYBE_POP_JUMP, -(|body| + 6))
    else Jump(ON_FAILURE_JUMP, |body|) + body
  }

  /** The alternatives so far, without the jump that is to follow the last of them. */
  function FrontBytes(front: Front): Code
    decreases front, 1
  {
    match front
    case None => []
    case More(before, branch) =>
      var a := Bytes(branch);
      (if before.None? then [] else FrontBytes(before) + Jump(JUMP_PAST_ALT, |a| + 3)) + Jump(ON_FAILURE_JUMP, |a| + 3) + a
  }

  function AltBytes(alts: Alts): Code
    decreases alts, 1
  {
    var last := Bytes(alts.last);
    if alts.front.None? then last else FrontBytes(alts.front) + Jump(JUMP_PAST_ALT, |last|) + last
  }

  predicate WellFormed(f: Frag) {
    match f
    case Exact(chars) => 1 <= |chars| < 256
    case Then(a, b) => WellFormed(a) && WellFormed(b)
    case Again(b, zero, many) => WellFormed(b) && (zero || many)
    case Group(_, _, alts) => WellFormedAlts(alts)
    case _ => true
  }

  predicate WellFormedFront(front: Front) {
    match front
    case None => true
    case More(before, branch) => WellFormedFront(before) && WellFormed(branch)
  }

  predicate WellFormedAlts(alts: Alts) {
    WellFormedFront(alts.front) && WellFormed(alts.last)
  }

  // ---- what the code means ----

  function Word(chars: Text): Regex {
    if chars == [] then Empty else Cat(Word(chars[..|chars| - 1]), Lit(chars[|chars| - 1]))
  }

  function Means(f: Frag): Regex
    decreases f, 1
  {
    match f
    case Nothing => Empty
    case Exact(chars) => Word(chars)
    case AnyChar => Any
    case Dummy => Empty
    case Then(a, b) => Cat(Means(a), Means(b))
    case Again(b, zero, many) => Rep(Means(b), zero, many)
    case Group(_, _, alts) => MeansAlts(alts)
  }

  function MeansFront(front: Front): Regex
    decreases front, 1
  {
    match front
    case None => Empty
    case More(before, branch) => if before.None? then Means(branch) else Or(MeansFront(before), Means(branch))
  }

  function MeansAlts(alts: Alts): Regex
    decreases alts, 1
  {
    if alts.front.None? then Means(alts.last) else Or(MeansFront(alts.front), Means(alts.last))
  }

  lemma {:induction false} WordDenotes(chars: Text, w: Text)
    ensures Denotes(Word(chars), w) <==> w == chars
  {
    if chars != [] {
      var n := |chars| - 1;
      var front, c := chars[..n], chars[n];
      assert chars == front + [c];
      if Denotes(Word(chars), w) {
        hide Denotes;
        var i := CatSplit(Word(front), Lit(c), w);
        WordDenotes(front, w[..i]);
        LitDenotes(c, w[i..]);
        assert w == w[..i] + w[i..];
      }
      if w == chars {
        hide Denotes;
        WordDenotes(front, front);
        LitDenotes(c, [c]);
        CatOf(Word(front), Lit(c), front, [c]);
      }
    }
  }

  lemma LitDenotes(c: Byte, w: Text)
    ensures Denotes(Lit(c), w) <==> w == [c]
  {
  }
}
