/** md5.c: a message digest computed from a message that arrives in pieces. */
module Md5 {
  import opened Bytes

  const TWO_32 := 0x1_0000_0000
  const TWO_64 := 0x1_0000_0000_0000_0000

  type Word = w: int | 0 <= w < 0x1_0000_0000

  datatype State = State(a: Word, b: Word, c: Word, d: Word)

  /** The arithmetic of MD5Transform once the block has been decoded to sixteen words. */
  type Rounds = (State, seq<Word>) -> State

  const START := State(0x67452301, 0xefcdab89, 0x98badcfe, 0x10325476)

  // ---- Encode and Decode ----

  function WordBytes(w: Word): (s: seq<Byte>)
    ensures |s| == 4
  {
    [w % 256, w / 0x100 % 256, w / 0x1_0000 % 256, w / 0x100_0000 % 256]
  }

  function Combined(a: int, b: int, c: int, d: int): int {
    a + b * 0x100 + c * 0x1_0000 + d * 0x100_0000
  }

  function BytesWord(s: seq<Byte>): Word
    requires |s| == 4
  {
    Combined(s[0], s[1], s[2], s[3])
  }

  function Encoded(ws: seq<Word>): seq<Byte> {
    if ws == [] then [] else WordBytes(ws[0]) + Encoded(ws[1..])
  }

  function Decoded(s: seq<Byte>): seq<Word>
    requires |s| % 4 == 0
  {
    if s == [] then [] else [BytesWord(s[..4])] + Decoded(s[4..])
  }

  lemma TwiceDivided(w: nat)
    ensures w / 0x1_0000 == w / 0x100 / 0x100
  {
  }

  lemma ThriceDivided(w: nat)
    ensures w / 0x100_0000 == w / 0x1_0000 / 0x100
  {
  }

  lemma Split256(w: nat)
    ensures w == w % 256 + w / 0x100 * 256
  {
  }

  lemma WordBytesBack(w: Word)
    ensures BytesWord(WordBytes(w)) == w
  {
    hide *;
    var s := WordBytes(w);
    WordBytesAre(w);
    BytesWordIs(s);
    TwiceDivided(w);
    ThriceDivided(w);
    Split256(w);
    Split256(w / 0x100);
    Split256(w / 0x1_0000);
    TopByte(w);
  }

  lemma TopByte(w: Word)
    ensures w / 0x100_0000 % 256 == w / 0x100_0000
  {
  }

  lemma WordBytesAre(w: Word)
    ensures WordBytes(w)[0] == w % 256 && WordBytes(w)[1] == w / 0x100 % 256
    ensures WordBytes(w)[2] == w / 0x1_0000 % 256 && WordBytes(w)[3] == w / 0x100_0000 % 256
  {
  }

  lemma BytesWordIs(s: seq<Byte>)
    requires |s| == 4
    ensures BytesWord(s) == Combined(s[0], s[1], s[2], s[3])
    ensures BytesWord(s) == s[0] + (s[1] as int + (s[2] as int + s[3] as int * 256) * 256) * 256
  {
  }

  lemma BytesWordBack(s: seq<Byte>)
    requires |s| == 4
    ensures WordBytes(BytesWord(s)) == s
  {
    CombinedParts(s[0], s[1], s[2], s[3]);
  }

  lemma CombinedParts(a: int, b: int, c: int, d: int)
    requires 0 <= a < 256 && 0 <= b < 256 && 0 <= c < 256 && 0 <= d < 256
    ensures Combined(a, b, c, d) % 256 == a && Combined(a, b, c, d) / 0x100 % 256 == b
    ensures Combined(a, b, c, d) / 0x1_0000 % 256 == c && Combined(a, b, c, d) / 0x100_0000 % 256 == d
  {
    var w := Combined(a, b, c, d);
    assert w / 0x100 == b + c * 0x100 + d * 0x1_0000;
    assert w / 0x1_0000 == c + d * 0x100;
    assert w / 0x100_0000 == d;
  }

  lemma {:induction false} EncodedLength(ws: seq<Word>)
    ensures |Encoded(ws)| == 4 * |ws|
  {
    if ws != [] {
      EncodedLength(ws[1..]);
    }
  }

  lemma EncodedIs(ws: seq<Word>, s: seq<Byte>)
    requires ws != [] && s == Encoded(ws)
    ensures |s| == 4 + |Encoded(ws[1..])| && s[..4] == WordBytes(ws[0]) && s[4..] == Encoded(ws[1..])
  {
    hide WordBytes;
    assert s == WordBytes(ws[0]) + Encoded(ws[1..]);
  }

  lemma DecodedIs(s: seq<Byte>, ws: seq<Word>)
    requires s != [] && |s| % 4 == 0 && ws == Decoded(s)
    ensures |s| >= 4 && ws == [BytesWord(s[..4])] + Decoded(s[4..]) && ws[0] == BytesWord(s[..4]) && ws[1..] == Decoded(s[4..])
  {
    hide BytesWord;
    assert ws == [BytesWord(s[..4])] + Decoded(s[4..]);
  }

  /** Decode undoes Encode. */
  lemma {:induction false} DecodeEncode(ws: seq<Word>)
    ensures |Encoded(ws)| % 4 == 0 && Decoded(Encoded(ws)) == ws
  {
    EncodedLength(ws);
    if ws != [] {
      hide *;
      var s := Encoded(ws);
      EncodedIs(ws, s);
      DecodedIs(s, Decoded(s));
      WordBytesBack(ws[0]);
      DecodeEncode(ws[1..]);
      assert ws == [ws[0]] + ws[1..];
    }
  }

  lemma SameHalves(s: seq<Byte>, t: seq<Byte>)
    requires |s| >= 4 && |t| >= 4 && s[..4] == t[..4] && s[4..] == t[4..]
    ensures s == t
  {
    assert s == s[..4] + s[4..] && t == t[..4] + t[4..];
  }

  /** And Encode undoes Decode. */
  lemma EncodeDecodeStep(s: seq<Byte>)
    requires s != [] && |s| % 4 == 0 && |s| >= 4 && Encoded(Decoded(s[4..])) == s[4..]
    ensures Encoded(Decoded(s)) == s
  {
    hide *;
    var ws := Decoded(s);
    DecodedIs(s, ws);
    assert ws != [];
    EncodedIs(ws, Encoded(ws));
    BytesWordBack(s[..4]);
    SameHalves(Encoded(ws), s);
  }

  lemma {:induction false} EncodeDecode(s: seq<Byte>)
    requires |s| % 4 == 0
    ensures Encoded(Decoded(s)) == s
  {
    if s != [] {
      hide *;
      FourMore(|s|);
      EncodeDecode(s[4..]);
      EncodeDecodeStep(s);
    }
  }

  lemma FourMore(n: nat)
    requires n % 4 == 0 && n > 0
    ensures n >= 4 && (n - 4) % 4 == 0
  {
  }

  lemma {:induction false} EncodedAt(ws: seq<Word>, i: nat)
    requires i < |ws| && |Encoded(ws)| == 4 * |ws|
    ensures Encoded(ws)[4 * i..4 * i + 4] == WordBytes(ws[i])
  {
    EncodedLength(ws[1..]);
    if i > 0 {
      EncodedAt(ws[1..], i - 1);
      assert Encoded(ws)[4 * i..4 * i + 4] == Encoded(ws[1..])[4 * (i - 1)..4 * (i - 1) + 4];
    }
  }

  lemma {:induction false} DecodedMore(s: seq<Byte>, b: seq<Byte>)
    requires |s| % 4 == 0 && |b| == 4
    ensures Decoded(s + b) == Decoded(s) + [BytesWord(b)]
  {
    hide *;
    NoneDecoded();
    if s == [] {
      assert s + b == b && b[..4] == b && b[4..] == [];
      DecodedIs(b, Decoded(b));
    } else {
      FourMore(|s|);
      assert (s + b)[..4] == s[..4] && (s + b)[4..] == s[4..] + b;
      DecodedIs(s + b, Decoded(s + b));
      DecodedIs(s, Decoded(s));
      DecodedMore(s[4..], b);
    }
  }

  method PutWord(output: array<Byte>, j: nat, w: Word)
    requires j + 4 <= output.Length
    modifies output
    ensures output[..j] == old(output[..j]) && output[j..j + 4] == WordBytes(w) && output[j + 4..] == old(output[j + 4..])
  {
    output[j] := w % 256;
    output[j + 1] := w / 0x100 % 256;
    output[j + 2] := w / 0x1_0000 % 256;
    output[j + 3] := w / 0x100_0000 % 256;
  }

  lemma FourFurther(s: seq<Byte>, j: nat)
    requires j + 4 <= |s|
    ensures s[..j + 4] == s[..j] + s[j..j + 4]
  {
  }

  lemma LaterTail(s: seq<Byte>, t: seq<Byte>, j: nat, k: nat)
    requires j <= k <= |s| && |t| == |s| && s[j..] == t[j..]
    ensures s[k..] == t[k..]
  {
    assert s[k..] == s[j..][k - j..] && t[k..] == t[j..][k - j..];
  }

  /** Encode writes len bytes of output. */
  method Encode(output: array<Byte>, input: seq<Word>, len: nat)
    requires len % 4 == 0 && |input| * 4 == len <= output.Length
    modifies output
    ensures output[..len] == Encoded(input) && output[len..] == old(output[len..])
  {
    hide *;
    var i, j := 0, 0;
    EncodedLength(input);
    ghost var e := Encoded(input);
    while j < len
      invariant 0 <= i && j == 4 * i <= len
      invariant output[..j] == e[..j] && output[len..] == old(output[len..])
    {
      EncodedAt(input, i);
      ghost var was := output[..];
      PutWord(output, j, input[i]);
      FourFurther(output[..], j);
      FourFurther(e, j);
      LaterTail(was, output[..], j + 4, len);
      i, j := i + 1, j + 4;
    }
  }

  method Decode(input: seq<Byte>) returns (x: seq<Word>)
    requires |input| % 4 == 0
    ensures x == Decoded(input)
  {
    hide Decoded, Combined, BytesWord;
    x := [];
    var j := 0;
    NoneDecoded();
    while j < |input|
      invariant 0 <= j <= |input| && j % 4 == 0
      invariant x == Decoded(input[..j])
    {
      DecodedNext(input, j);
      x := x + [Combined(input[j], input[j + 1], input[j + 2], input[j + 3])];
      j := j + 4;
    }
    assert input[..j] == input;
  }

  lemma NoneDecoded()
    ensures Decoded([]) == []
  {
  }

  lemma DecodedNext(s: seq<Byte>, j: nat)
    requires j % 4 == 0 && j + 4 <= |s|
    ensures 0 <= Combined(s[j], s[j + 1], s[j + 2], s[j + 3]) < TWO_32
    ensures Decoded(s[..j + 4]) == Decoded(s[..j]) + [Combined(s[j], s[j + 1], s[j + 2], s[j + 3])]
  {
    hide Decoded;
    DecodedMore(s[..j], s[j..j + 4]);
    assert s[..j + 4] == s[..j] + s[j..j + 4];
  }

  // ---- the digest that is meant (sections 3.1 to 3.5 of RFC 1321) ----

  function Transformed(f: Rounds, s: State, block: seq<Byte>): State
    requires |block| == 64
  {
    f(s, Decoded(block))
  }

  /** One block after the other. */
  function Folded(f: Rounds, s: State, m: seq<Byte>): State
    requires |m| % 64 == 0
    decreases |m|
  {
    if m == [] then s else Folded(f, Transformed(f, s, m[..64]), m[64..])
  }

  /** The low 64 bits of the length in bits, low word first. */
  function LengthBytes(n: nat): (s: seq<Byte>)
    ensures |s| == 8
  {
    WordBytes(8 * n % TWO_64 % TWO_32) + WordBytes(8 * n % TWO_64 / TWO_32)
  }

  /** How many zeros reach 56 modulo 64 after the one bit. */
  function Gap(n: nat): (k: nat)
    ensures k < 64 && (n + 1 + k) % 64 == 56
  {
    (119 - n % 64) % 64
  }

  /** A one bit, zeros up to 56 modulo 64 bytes, and the length. */
  function Padded(m: seq<Byte>): (p: seq<Byte>)
    ensures |p| % 64 == 0
  {
    assert (|m| + 1 + Gap(|m|) + 8) % 64 == 0;
    m + ([0x80] + Zeros(Gap(|m|)) + LengthBytes(|m|))
  }

  function Digest(f: Rounds, m: seq<Byte>): seq<Byte> {
    StateBytes(Folded(f, START, Padded(m)))
  }

  function StateBytes(s: State): seq<Byte> {
    Encoded([s.a, s.b, s.c, s.d])
  }

  lemma LengthBytesBack(n: nat)
    ensures BytesWord(LengthBytes(n)[..4]) + BytesWord(LengthBytes(n)[4..]) * TWO_32 == 8 * n % TWO_64
  {
    var k := 8 * n % TWO_64;
    var lo, hi := k % TWO_32, k / TWO_32;
    WordBytesBack(lo);
    WordBytesBack(hi);
    assert LengthBytes(n)[..4] == WordBytes(lo) && LengthBytes(n)[4..] == WordBytes(hi);
  }

  lemma PaddedEnds(m: seq<Byte>)
    ensures |Padded(m)| >= |m| + 8 && Padded(m)[..|m|] == m && Padded(m)[|Padded(m)| - 8..] == LengthBytes(|m|)
  {
    hide LengthBytes, Zeros, Gap;
  }

  /** Two messages shorter than 2^61 bytes are padded alike only if they are the same. */
  lemma PaddedInjective(m: seq<Byte>, n: seq<Byte>)
    requires |m| < TWO_64 / 8 && |n| < TWO_64 / 8 && Padded(m) == Padded(n)
    ensures m == n
  {
    hide Padded, LengthBytes, BytesWord;
    PaddedEnds(m);
    PaddedEnds(n);
    LengthBytesBack(|m|);
    LengthBytesBack(|n|);
  }

  lemma {:induction false} FoldedMore(f: Rounds, s: State, m: seq<Byte>, block: seq<Byte>)
    requires |m| % 64 == 0 && |block| == 64
    ensures Folded(f, s, m + block) == Transformed(f, Folded(f, s, m), block)
    decreases |m|
  {
    var t := m + block;
    if m == [] {
      assert t == block && t[..64] == block && t[64..] == [];
    } else {
      assert t[..64] == m[..64] && t[64..] == m[64..] + block;
      FoldedMore(f, Transformed(f, s, m[..64]), m[64..], block);
    }
  }

  // ---- the 64-bit count in two words ----

  function Count(lo: Word, hi: Word): int {
    lo + hi * TWO_32
  }

  function Shifted(n: nat): Word {
    n * 8 % TWO_32
  }

  function Carried(lo: Word, n: nat): int {
    if (lo + Shifted(n)) % TWO_32 < Shifted(n) then 1 else 0
  }

  lemma CountAdvances(lo: Word, hi: Word, n: nat, total: nat)
    requires n < TWO_32 && Count(lo, hi) == 8 * total % TWO_64
    ensures Count((lo + Shifted(n)) % TWO_32, (hi + Carried(lo, n) + n / 0x2000_0000) % TWO_32) == 8 * (total + n) % TWO_64
  {
    var c, k := Carried(lo, n), n / 0x2000_0000;
    assert n * 8 == Shifted(n) + k * TWO_32;
    assert lo + Shifted(n) == (lo + Shifted(n)) % TWO_32 + c * TWO_32;
    var h := hi + c + k;
    Whole(h);
    assert Count(lo, hi) + 8 * n == (lo + Shifted(n)) % TWO_32 + h * TWO_32;
    SumModulo(8 * total, 8 * n);
    assert h * TWO_32 == h % TWO_32 * TWO_32 + h / TWO_32 * TWO_64;
    Reduced((lo + Shifted(n)) % TWO_32 + h % TWO_32 * TWO_32, h / TWO_32);
  }

  lemma CarriedIs(lo: Word, hi: Word, n: nat)
    ensures (hi + Carried(lo, n) + n / 0x2000_0000) % TWO_32
      == ((if (lo + Shifted(n)) % TWO_32 < Shifted(n) then (hi + 1) % TWO_32 else hi) + n / 0x2000_0000) % TWO_32
  {
  }

  lemma Whole(h: nat)
    ensures h == h / TWO_32 * TWO_32 + h % TWO_32
  {
  }

  lemma SumModulo(a: nat, b: nat)
    ensures (a % TWO_64 + b) % TWO_64 == (a + b) % TWO_64
  {
    assert a == a / TWO_64 * TWO_64 + a % TWO_64;
    Reduced'(a % TWO_64 + b, a / TWO_64);
  }

  lemma Reduced'(x: nat, k: nat)
    ensures (x + k * TWO_64) % TWO_64 == x % TWO_64
    decreases k
  {
    if k > 0 {
      Reduced'(x, k - 1);
    }
  }

  lemma Reduced(x: nat, k: nat)
    requires x < TWO_64
    ensures (x + k * TWO_64) % TWO_64 == x
  {
    Reduced'(x, k);
  }

  lemma IndexOfCount(lo: Word, hi: Word, total: nat)
    requires Count(lo, hi) == 8 * total % TWO_64
    ensures lo / 8 % 64 == total % 64
  {
    var q := 8 * total / TWO_64;
    assert 8 * total == q * TWO_64 + lo + hi * TWO_32;
    assert lo == 8 * (total - q * (TWO_64 / 8) - hi * (TWO_32 / 8));
    assert lo / 8 == total - q * (TWO_64 / 8) - hi * (TWO_32 / 8);
    assert total == lo / 8 + 64 * (q * (TWO_64 / 512) + hi * (TWO_32 / 512));
  }

  // ---- the context ----

  /** The bytes of a stream that fill whole blocks. */
  function Filled(m: seq<Byte>): (k: nat)
    ensures k <= |m| < k + 64 && k % 64 == 0
  {
    |m| - |m| % 64
  }

  lemma FilledIs(m: seq<Byte>, k: nat)
    requires k % 64 == 0 && k <= |m| < k + 64
    ensures Filled(m) == k
  {
  }

  lemma FoldedNext(f: Rounds, s: seq<Byte>, k: nat)
    requires k % 64 == 0 && k + 64 <= |s|
    ensures Folded(f, START, s[..k + 64]) == Transformed(f, Folded(f, START, s[..k]), s[k..k + 64])
  {
    FoldedMore(f, START, s[..k], s[k..k + 64]);
    assert s[..k + 64] == s[..k] + s[k..k + 64];
  }

  // ---- what MD5Final feeds in ----

  lemma CountBytes(lo: Word, hi: Word, n: nat)
    requires Count(lo, hi) == 8 * n % TWO_64
    ensures Encoded([lo, hi]) == LengthBytes(n)
  {
    assert 8 * n % TWO_64 % TWO_32 == lo && 8 * n % TWO_64 / TWO_32 == hi;
    assert Encoded([hi]) == WordBytes(hi) + Encoded([]);
    assert [lo, hi][1..] == [hi];
  }

  lemma GapIs(n: nat, index: nat, padLen: nat)
    requires index == n % 64 && padLen == (if index < 56 then 56 - index else 120 - index)
    ensures padLen == Gap(n) + 1 && 1 <= padLen <= 64
  {
  }

  lemma {:induction false} ZerosTaken(n: nat, k: nat)
    requires k <= n
    ensures Zeros(n)[..k] == Zeros(k)
  {
    if k > 0 {
      ZerosTaken(n - 1, k - 1);
    }
  }

  lemma PaddingBytes(padLen: nat)
    requires 1 <= padLen <= 64
    ensures ([0x80] + Zeros(63))[..padLen] == [0x80] + Zeros(padLen - 1)
  {
    ZerosTaken(63, padLen - 1);
    assert ([0x80] + Zeros(63))[..padLen] == [0x80] + Zeros(63)[..padLen - 1];
  }

  lemma PaddedIs(m: seq<Byte>, padLen: nat)
    requires padLen == Gap(|m|) + 1
    ensures Padded(m) == m + ([0x80] + Zeros(padLen - 1)) + LengthBytes(|m|)
  {
    hide LengthBytes, Zeros, Gap;
    assert [0x80] + Zeros(padLen - 1) + LengthBytes(|m|) == ([0x80] + Zeros(padLen - 1)) + LengthBytes(|m|);
    assert m + (([0x80] + Zeros(padLen - 1)) + LengthBytes(|m|)) == m + ([0x80] + Zeros(padLen - 1)) + LengthBytes(|m|);
  }

  lemma StateBytesLength(s: State)
    ensures |StateBytes(s)| == 16
  {
    EncodedLength([s.a, s.b, s.c, s.d]);
  }

  /** The first whole block begins with what has been kept. */
  lemma FirstBlock(m: seq<Byte>, input: seq<Byte>, base: nat)
    requires base <= |m| <= base + 64 <= |m| + |input|
    ensures (m + input)[base..base + 64] == m[base..] + input[..base + 64 - |m|] && (m + input)[..base] == m[..base]
  {
  }

  lemma LaterBlock(m: seq<Byte>, input: seq<Byte>, i: nat)
    requires i + 64 <= |input|
    ensures (m + input)[|m| + i..|m| + i + 64] == input[i..i + 64]
  {
  }

  class Context {
    const rounds: Rounds
    var state: State
    var count0: Word
    var count1: Word
    var buffer: array<Byte>
    /** What has been fed in so far. */
    ghost var message: seq<Byte>

    ghost predicate Valid()
      reads this, buffer
    {
      && buffer.Length == 64
      && Count(count0, count1) == 8 * |message| % TWO_64
      && state == Folded(rounds, START, message[..Filled(message)])
      && buffer[..|message| % 64] == message[Filled(message)..]
    }

    constructor (f: Rounds)
      ensures Valid() && fresh(buffer) && rounds == f && message == []
    {
      rounds, state, count0, count1, message := f, START, 0, 0, [];
      buffer := new Byte[64](i => 0);
    }

    method Transform(block: seq<Byte>)
      requires |block| == 64
      modifies this`state
      ensures state == Transformed(rounds, old(state), block)
    {
      var x := Decode(block);
      state := rounds(state, x);
    }

    method CountUp(n: nat, ghost total: nat)
      requires n < TWO_32 && Count(count0, count1) == 8 * total % TWO_64
      modifies this`count0, this`count1
      ensures Count(count0, count1) == 8 * (total + n) % TWO_64
    {
      hide Count, Shifted;
      CountAdvances(count0, count1, n, total);
      CarriedIs(count0, count1, n);
      var low := Shifted(n);
      count0 := (count0 + low) % TWO_32;
      if count0 < low {
        count1 := (count1 + 1) % TWO_32;
      }
      count1 := (count1 + n / 0x2000_0000) % TWO_32;
    }

    /** The whole blocks of the stream that the input completes; i is how much of the input they take. */
    method Blocks(input: seq<Byte>, index: nat, ghost m: seq<Byte>) returns (i: nat)
      requires buffer.Length == 64 && index == |m| % 64 && index + |input| >= 64
      requires state == Folded(rounds, START, m[..Filled(m)]) && buffer[..index] == m[Filled(m)..]
      modifies this`state, buffer
      ensures i <= |input| && |m| + i == Filled(m + input)
      ensures state == Folded(rounds, START, (m + input)[..|m| + i])
    {
      hide Folded, Transformed;
      ghost var s, base := m + input, Filled(m);
      var partLen := 64 - index;
      MemCpy(buffer, index, input[..partLen]);
      FirstBlock(m, input, base);
      assert buffer[..] == m[base..] + input[..partLen];
      Transform(buffer[..]);
      FoldedNext(rounds, s, base);
      i := partLen;
      while i + 63 < |input|
        invariant partLen <= i <= |input| && (|m| + i) % 64 == 0
        invariant state == Folded(rounds, START, s[..|m| + i])
      {
        LaterBlock(m, input, i);
        FoldedNext(rounds, s, |m| + i);
        Transform(input[i..i + 64]);
        i := i + 64;
      }
      FilledIs(s, |m| + i);
    }

    /** The message grows by the input, wherever it is cut. */
    method Update(input: seq<Byte>)
      requires Valid() && |input| < TWO_32 - 64
      modifies this, buffer
      ensures Valid() && buffer == old(buffer) && message == old(message) + input
    {
      hide Count, Folded;
      ghost var m, s := message, message + input;
      IndexOfCount(count0, count1, |m|);
      var index := count0 / 8 % 64;
      CountUp(|input|, |m|);
      var i := 0;
      if |input| >= 64 - index {
        i := Blocks(input, index, m);
        index := 0;
      } else {
        FilledIs(s, Filled(m));
        assert s[..Filled(m)] == m[..Filled(m)];
      }
      ghost var kept := buffer[..index];
      MemCpy(buffer, index, input[i..]);
      message := s;
      assert buffer[..|s| % 64] == kept + input[i..];
      assert s[Filled(s)..] == kept + input[i..];
    }

    lemma AllFilled()
      requires Valid() && |message| % 64 == 0
      ensures state == Folded(rounds, START, message)
    {
      assert message[..|message|] == message;
    }

    /** The padding and the length. */
    method Pad()
      requires Valid()
      modifies this, buffer
      ensures Valid() && buffer == old(buffer) && message == Padded(old(message))
    {
      hide Count, Folded, Padded, Zeros, Gap, LengthBytes;
      ghost var m := message;
      var bits := new Byte[8](i => 0);
      Encode(bits, [count0, count1], 8);
      assert bits[..8] == bits[..];
      IndexOfCount(count0, count1, |m|);
      CountBytes(count0, count1, |m|);
      var index := count0 / 8 % 64;
      var padLen := if index < 56 then 56 - index else 120 - index;
      GapIs(|m|, index, padLen);
      Update(([0x80] + Zeros(63))[..padLen]);
      Update(bits[..]);
      PaddedIs(m, padLen);
      PaddingBytes(padLen);
    }

    /** The digest of everything fed in; the context is wiped. */
    method Final() returns (digest: array<Byte>)
      requires Valid()
      modifies this, buffer
      ensures fresh(digest) && digest[..] == Digest(rounds, old(message))
      ensures count0 == 0 && count1 == 0 && state == State(0, 0, 0, 0) && buffer[..] == Zeros(64)
    {
      hide Count, Folded, Padded, Zeros;
      Pad();
      AllFilled();
      digest := new Byte[16](i => 0);
      StateBytesLength(state);
      Encode(digest, [state.a, state.b, state.c, state.d], 16);
      assert digest[..16] == digest[..];
      state, count0, count1 := State(0, 0, 0, 0), 0, 0;
      MemCpy(buffer, 0, Zeros(64));
    }
  }

  /** The digest of a message that arrives in pieces: it depends on the message alone. */
  method DigestOf(f: Rounds, parts: seq<seq<Byte>>) returns (digest: array<Byte>)
    requires forall p {:trigger p in parts} :: p in parts ==> |p| < TWO_32 - 64
    ensures fresh(digest) && digest[..] == Digest(f, Joined(parts))
  {
    var context := new Context(f);
    var i := 0;
    while i < |parts|
      invariant 0 <= i <= |parts| && context.Valid() && fresh(context) && fresh(context.buffer) && context.rounds == f
      invariant context.message == Joined(parts[..i])
    {
      JoinedNext(parts, i);
      assert parts[i] in parts;
      context.Update(parts[i]);
      i := i + 1;
    }
    assert parts[..i] == parts;
    digest := context.Final();
  }

  function Joined(parts: seq<seq<Byte>>): seq<Byte> {
    if parts == [] then [] else Joined(parts[..|parts| - 1]) + parts[|parts| - 1]
  }

  lemma JoinedNext(parts: seq<seq<Byte>>, i: nat)
    requires i < |parts|
    ensures Joined(parts[..i + 1]) == Joined(parts[..i]) + parts[i]
  {
    assert parts[..i + 1][..i] == parts[..i];
  }
}
