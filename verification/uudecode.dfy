/** uudecode.c: a second decoder for what base64.c encodes; it stops at the first other character. */
module Uudecode {
  import opened Base64
  import opened Bytes

  /** pr2six: 64 for what is not in the alphabet, and so for the padding and the NUL. */
  function Pr2Six(c: Byte): (v: int)
    ensures 0 <= v <= 64
  {
    if Place(c) < 0 then 64 else Place(c)
  }

  predicate Blank(c: Byte) {
    c == 32 || c == 9
  }

  function Blanks(m: seq<Byte>): (n: nat)
    ensures n <= |m|
  {
    if m == [] || !Blank(m[0]) then 0 else 1 + Blanks(m[1..])
  }

  /** How many characters of the alphabet come first. */
  function Count(m: seq<Byte>): (n: nat)
    ensures n <= |m|
  {
    if m == [] || Place(m[0]) < 0 then 0 else 1 + Count(m[1..])
  }

  /** Bitwise or of two octets. */
  function Or(a: nat, b: nat): nat {
    if a == 0 && b == 0 then 0 else (if a % 2 == 1 || b % 2 == 1 then 1 else 0) + 2 * Or(a / 2, b / 2)
  }

  /** One quantum as the decoder puts it together, each octet cut to eight bits. */
  function Three(a: Byte, b: Byte, c: Byte, d: Byte): (t: seq<Byte>)
    ensures |t| == 3
  {
    [Or(Pr2Six(a) * 4, Pr2Six(b) / 16) % 256, Or(Pr2Six(b) * 16, Pr2Six(c) / 4) % 256, Or(Pr2Six(c) * 64, Pr2Six(d)) % 256]
  }

  function Threes(m: seq<Byte>, q: nat): (t: seq<Byte>)
    requires 4 * q <= |m|
    ensures |t| == 3 * q
  {
    if q == 0 then [] else Three(m[0], m[1], m[2], m[3]) + Threes(m[4..], q - 1)
  }

  /** The characters of whole quanta, of which the last may be incomplete. */
  function Rounded(n: nat): (r: nat)
    ensures n <= r < n + 4 && r % 4 == 0
  {
    (n + 3) / 4 * 4
  }

  /** The memory goes on for the character that stops the count, and to the end of the last quantum. */
  predicate Readable(m: seq<Byte>) {
    Count(m) < |m| && Rounded(Count(m)) <= |m|
  }

  /** How many octets an incomplete quantum lacks. */
  function Lacking(m: seq<Byte>, n: nat): (e: nat)
    requires Rounded(n) <= |m|
    ensures e <= 2 && e <= (n + 3) / 4 * 3
  {
    if n % 4 == 0 then 0 else if Pr2Six(m[(n + 3) / 4 * 4 - 2]) > 63 then 2 else 1
  }

  /** What comes out for memory that begins with the coded text. */
  function Uudecoded(m: seq<Byte>): seq<Byte>
    requires Readable(m)
  {
    var n := Count(m);
    var q := (n + 3) / 4;
    Threes(m, q)[..3 * q - Lacking(m, n)]
  }

  lemma Half(a: nat, p: nat)
    requires p % 2 == 0
    ensures a * p % 2 == 0 && a * p / 2 == a * (p / 2)
  {
    assert a * p == 2 * (a * (p / 2));
  }

  lemma OrStep(x: nat, b: nat)
    requires x % 2 == 0
    ensures Or(x, b) == (if x == 0 && b == 0 then 0 else b % 2 + 2 * Or(x / 2, b / 2))
  {
  }

  lemma {:induction false} OrOfApart(a: nat, b: nat, k: nat, p: nat)
    requires p == Power(k) && b < p
    ensures Or(a * p, b) == a * p + b
    decreases k
  {
    hide Or;
    if k == 0 {
      OrOfZero(a);
    } else {
      Half(a, p);
      OrOfApart(a, b / 2, k - 1, p / 2);
      OrStep(a * p, b);
    }
  }

  function Power(k: nat): nat {
    if k == 0 then 1 else 2 * Power(k - 1)
  }

  lemma {:induction false} OrOfZero(a: nat)
    ensures Or(a, 0) == a
  {
    if a > 0 {
      OrOfZero(a / 2);
    }
  }

  // ---- the decoder ----

  lemma {:induction false} StringCounts(m: seq<Byte>)
    requires 0 in m
    ensures Blanks(m) + Count(m[Blanks(m)..]) <= |CString(m)|
  {
    if Blanks(m) == 0 {
      CountInString(m);
      assert m[0..] == m;
    } else {
      assert m == [m[0]] + m[1..];
      StringCounts(m[1..]);
      assert m[1..][Blanks(m[1..])..] == m[Blanks(m)..];
    }
  }

  lemma {:induction false} CountInString(m: seq<Byte>)
    requires 0 in m
    ensures Count(m) <= |CString(m)|
  {
    if Count(m) > 0 {
      assert m == [m[0]] + m[1..];
      CountInString(m[1..]);
    }
  }

  lemma BlanksNext(m: seq<Byte>, i: nat)
    requires i < |m|
    ensures Blank(m[i]) ==> i + Blanks(m[i..]) == i + 1 + Blanks(m[i + 1..])
    ensures !Blank(m[i]) ==> Blanks(m[i..]) == 0
  {
    assert m[i..][1..] == m[i + 1..];
  }

  lemma CountNext(m: seq<Byte>, i: nat)
    requires i < |m|
    ensures Pr2Six(m[i]) <= 63 ==> Count(m[i..]) == 1 + Count(m[i + 1..])
    ensures Pr2Six(m[i]) > 63 ==> Count(m[i..]) == 0
  {
    assert m[i..][1..] == m[i + 1..];
    PlaceRange(m[i]);
  }

  lemma PlaceRange(c: Byte)
    ensures -1 <= Place(c) < 64
  {
  }

  lemma {:induction false} ThreesMore(m: seq<Byte>, q: nat)
    requires 4 * q + 4 <= |m|
    ensures Threes(m, q + 1) == Threes(m, q) + Three(m[4 * q], m[4 * q + 1], m[4 * q + 2], m[4 * q + 3])
    decreases q
  {
    hide Three;
    if q == 0 {
      assert Threes(m[4..], 0) == [];
    } else {
      ThreesMore(m[4..], q - 1);
      var u := m[4..];
      assert u[4 * (q - 1)] == m[4 * q] && u[4 * (q - 1) + 1] == m[4 * q + 1] && u[4 * (q - 1) + 2] == m[4 * q + 2] && u[4 * (q - 1) + 3] == m[4 * q + 3];
    }
  }

  lemma UudecodedIs(m: seq<Byte>, n: nat, q: nat)
    requires n == Count(m) && Readable(m) && q == (n + 3) / 4
    ensures 4 * q <= |m| && Lacking(m, n) <= 3 * q && |Threes(m, q)| == 3 * q
    ensures Uudecoded(m) == Threes(m, q)[..3 * q - Lacking(m, n)]
  {
  }

  lemma LackingIs(m: seq<Byte>, n: nat, q: nat)
    requires Rounded(n) <= |m| && q == (n + 3) / 4
    ensures 4 * q <= |m| && (n % 4 != 0 ==> 4 * q >= 2)
    ensures Lacking(m, n) == if n % 4 == 0 then 0 else if Pr2Six(m[4 * q - 2]) > 63 then 2 else 1
  {
  }

  /** Where the coded text begins and how long it is. */
  method Measure(bufcoded: seq<Byte>) returns (p: nat, n: nat)
    requires Readable(bufcoded[Blanks(bufcoded)..])
    ensures p == Blanks(bufcoded) && p <= |bufcoded| && n == Count(bufcoded[p..])
  {
    hide *;
    p := 0;
    ReadableIs(bufcoded[Blanks(bufcoded)..]);
    assert bufcoded[0..] == bufcoded;
    BlanksNext(bufcoded, 0);
    while Blank(bufcoded[p])
      invariant p < |bufcoded| && p + Blanks(bufcoded[p..]) == Blanks(bufcoded)
      decreases |bufcoded| - p
    {
      BlanksNext(bufcoded, p);
      p := p + 1;
    }
    BlanksNext(bufcoded, p);
    var m := bufcoded[p..];
    n := 0;
    assert m[0..] == m;
    while Pr2Six(m[n]) <= 63
      invariant 0 <= n < |m| && n + Count(m[n..]) == Count(m)
      decreases |m| - n
    {
      CountNext(m, n);
      n := n + 1;
    }
    CountNext(m, n);
  }

  method Turn(m: seq<Byte>, n: nat) returns (bufplain: array<Byte>)
    requires n == Count(m) && Readable(m)
    ensures fresh(bufplain) && Ends(bufplain[..], Uudecoded(m))
  {
    hide *;
    var q, nbytes, nprbytes: int := 0, (n + 3) / 4 * 3, n;
    ghost var whole := (n + 3) / 4;
    UudecodedIs(m, n, whole);
    LackingIs(m, n, whole);
    bufplain := new Byte[nbytes + 1](i => 0);
    NoThrees(m);
    while nprbytes > 0
      invariant 0 <= q <= whole && nprbytes == n - 4 * q
      invariant bufplain[..3 * q] == Threes(m, q)
    {
      ThreesMore(m, q);
      PutOctets(bufplain, 3 * q, m[4 * q], m[4 * q + 1], m[4 * q + 2], m[4 * q + 3]);
      ThreeFurther(bufplain[..], 3 * q);
      nprbytes := nprbytes - 4;
      q := q + 1;
    }
    SameRemainder(n, q, nprbytes);
    if nprbytes % 4 != 0 {
      nbytes := nbytes - (if Pr2Six(m[4 * q - 2]) > 63 then 2 else 1);
    }
    ghost var r := bufplain[..];
    bufplain[nbytes] := 0;
    assert r[..3 * q][..nbytes] == r[..nbytes];
    EndsAt(r, bufplain[..], nbytes, Uudecoded(m));
  }

  lemma SameRemainder(n: nat, q: nat, left: int)
    requires left == n - 4 * q && left <= 0 && 4 * q <= n + 3
    ensures left % 4 == n % 4 && q == (n + 3) / 4
  {
  }

  method Uudecode(bufcoded: seq<Byte>) returns (bufplain: array<Byte>)
    requires Readable(bufcoded[Blanks(bufcoded)..])
    ensures fresh(bufplain) && Ends(bufplain[..], Uudecoded(bufcoded[Blanks(bufcoded)..]))
  {
    hide *;
    var p, n := Measure(bufcoded);
    bufplain := Turn(bufcoded[p..], n);
  }

  lemma NoThrees(m: seq<Byte>)
    ensures Threes(m, 0) == []
  {
  }

  lemma ThreeFurther(s: seq<Byte>, k: nat)
    requires k + 3 <= |s|
    ensures s[..k + 3] == s[..k] + s[k..k + 3]
  {
  }

  method PutOctets(bufout: array<Byte>, at: nat, a: Byte, b: Byte, c: Byte, d: Byte)
    requires at + 3 <= bufout.Length
    modifies bufout
    ensures bufout[..at] == old(bufout[..at]) && bufout[at..at + 3] == Three(a, b, c, d)
  {
    hide Or, Pr2Six;
    bufout[at] := Or(Pr2Six(a) * 4, Pr2Six(b) / 16) % 256;
    bufout[at + 1] := Or(Pr2Six(b) * 16, Pr2Six(c) / 4) % 256;
    bufout[at + 2] := Or(Pr2Six(c) * 64, Pr2Six(d)) % 256;
  }

  // ---- decoding undoes encoding ----

  lemma OrSum(a: nat, b: nat, k: nat, p: nat)
    requires p == Power(k) && b < p
    ensures Or(a * p, b) == a * p + b
  {
    OrOfApart(a, b, k, p);
  }

  lemma Powers()
    ensures Power(2) == 4 && Power(4) == 16 && Power(6) == 64
  {
    assert Power(1) == 2 * Power(0) && Power(3) == 2 * Power(2) && Power(5) == 2 * Power(4);
  }

  lemma ThreeIs(a: Byte, b: Byte, c: Byte, d: Byte)
    requires Place(a) >= 0 && Place(b) >= 0
    ensures Three(a, b, c, d)[0] == Place(a) * 4 + Place(b) / 16
    ensures Place(c) >= 0 ==> Three(a, b, c, d)[1] == (Place(b) * 16 + Place(c) / 4) % 256
    ensures Place(c) >= 0 && Place(d) >= 0 ==> Three(a, b, c, d)[2] == (Place(c) * 64 + Place(d)) % 256
  {
    hide Place, Or, Power;
    Powers();
    PlaceRange(a);
    PlaceRange(b);
    PlaceRange(c);
    PlaceRange(d);
    OrSum(Place(a), Place(b) / 16, 2, 4);
    if Place(c) >= 0 {
      OrSum(Place(b), Place(c) / 4, 4, 16);
      if Place(d) >= 0 {
        OrSum(Place(c), Place(d), 6, 64);
      }
    }
  }

  lemma OctetsOf(v: int)
    requires 0 <= v < 0x100_0000
    ensures v / 0x4_0000 * 4 + v / 0x1000 % 64 / 16 == v / 0x1_0000
    ensures (v / 0x1000 % 64 * 16 + v / 64 % 64 / 4) % 256 == v / 0x100 % 256
    ensures (v / 64 % 64 * 64 + v % 64) % 256 == v % 256
  {
    hide *;
    SixesOf(v);
    FirstOctet(v / 0x4_0000, v / 0x1000 % 64, v / 64 % 64, v % 64, v);
    SecondOctet(v / 0x4_0000, v / 0x1000 % 64, v / 64 % 64, v % 64, v);
  }

  lemma FirstOctet(a: nat, b: nat, c: nat, d: nat, v: int)
    requires a < 64 && b < 64 && c < 64 && d < 64 && v == a * 0x4_0000 + b * 0x1000 + c * 64 + d
    ensures a * 4 + b / 16 == v / 0x1_0000
  {
    assert b == b / 16 * 16 + b % 16;
    assert v == (a * 4 + b / 16) * 0x1_0000 + (b % 16 * 0x1000 + c * 64 + d);
  }

  lemma SecondOctet(a: nat, b: nat, c: nat, d: nat, v: int)
    requires a < 64 && b < 64 && c < 64 && d < 64 && v == a * 0x4_0000 + b * 0x1000 + c * 64 + d
    ensures (b * 16 + c / 4) % 256 == v / 0x100 % 256 && (c * 64 + d) % 256 == v % 256
  {
    assert c == c / 4 * 4 + c % 4;
    assert v == (a * 0x400 + b * 16 + c / 4) * 0x100 + (c % 4 * 64 + d);
    assert v / 0x100 == a * 0x400 + b * 16 + c / 4;
  }

  lemma ThreeOfQuantum(v: int)
    requires 0 <= v < 0x100_0000
    ensures var q := Quantum(v); Three(q[0], q[1], q[2], q[3]) == Triple(v)
    ensures var q := Quantum(v); forall i {:trigger q[i]} :: 0 <= i < 4 ==> Place(q[i]) >= 0
    ensures var q := Quantum(v); forall d, e {:trigger Three(q[0], q[1], d, e)} :: Three(q[0], q[1], d, e)[0] == Triple(v)[0]
    ensures var q := Quantum(v); forall e {:trigger Three(q[0], q[1], q[2], e)} :: Three(q[0], q[1], q[2], e)[1] == Triple(v)[1]
  {
    hide Place, Code, Three;
    var q := Quantum(v);
    SixesOf(v);
    OctetsOf(v);
    PlaceOfCode(v / 0x4_0000);
    PlaceOfCode(v / 0x1000 % 64);
    PlaceOfCode(v / 64 % 64);
    PlaceOfCode(v % 64);
    ThreeIs(q[0], q[1], q[2], q[3]);
    forall d, e {:trigger Three(q[0], q[1], d, e)} | true
      ensures Three(q[0], q[1], d, e)[0] == Triple(v)[0]
    {
      ThreeIs(q[0], q[1], d, e);
    }
    forall e {:trigger Three(q[0], q[1], q[2], e)} | true
      ensures Three(q[0], q[1], q[2], e)[1] == Triple(v)[1]
    {
      ThreeIs(q[0], q[1], q[2], e);
    }
  }

  lemma CountFour(q: seq<Byte>, m: seq<Byte>)
    requires |q| == 4 && Place(q[0]) >= 0 && Place(q[1]) >= 0 && Place(q[2]) >= 0 && Place(q[3]) >= 0
    ensures Count(q + m) == 4 + Count(m)
  {
    hide Place;
    var u := q + m;
    assert u[0..] == u && u[4..] == m;
    CountNext(u, 0);
    CountNext(u, 1);
    CountNext(u, 2);
    CountNext(u, 3);
  }

  lemma ThreesFirst(q: seq<Byte>, m: seq<Byte>, k: nat)
    requires |q| == 4 && 4 * k <= |m|
    ensures Threes(q + m, k + 1) == Three(q[0], q[1], q[2], q[3]) + Threes(m, k) && |Threes(m, k)| == 3 * k
  {
    hide Three;
    assert (q + m)[4..] == m;
  }

  lemma ReadableIs(m: seq<Byte>)
    ensures Readable(m) <==> Count(m) < |m| && Rounded(Count(m)) <= |m|
  {
  }

  lemma QuantaCount(n: nat)
    ensures Rounded(n + 4) == Rounded(n) + 4
    ensures (n + 4 + 3) / 4 == (n + 3) / 4 + 1 && (n + 4) % 4 == n % 4 && (n % 4 != 0 ==> (n + 3) / 4 >= 1)
  {
  }

  lemma UudecodedFirst(q: seq<Byte>, m: seq<Byte>)
    requires |q| == 4 && Place(q[0]) >= 0 && Place(q[1]) >= 0 && Place(q[2]) >= 0 && Place(q[3]) >= 0
    requires Readable(m)
    ensures Count(q + m) == 4 + Count(m) && Readable(q + m)
    ensures Uudecoded(q + m) == Three(q[0], q[1], q[2], q[3]) + Uudecoded(m)
  {
    hide *;
    CountFour(q, m);
    var u, n, k, t := q + m, Count(m), (Count(m) + 3) / 4, Three(q[0], q[1], q[2], q[3]);
    QuantaCount(n);
    ReadableIs(m);
    ReadableIs(u);
    UudecodedIs(u, n + 4, k + 1);
    UudecodedIs(m, n, k);
    ThreesFirst(q, m, k);
    LackingLater(q, m, n);
    CutTogether(Uudecoded(u), Uudecoded(m), t, Threes(m, k), Lacking(m, n), 3 * k);
  }

  lemma CutTogether(u: seq<Byte>, m: seq<Byte>, t: seq<Byte>, x: seq<Byte>, e: nat, k: nat)
    requires |x| == k && |t| == 3 && e <= k && u == (t + x)[..k + 3 - e] && m == x[..k - e]
    ensures u == t + m
  {
  }

  lemma LackingLater(q: seq<Byte>, m: seq<Byte>, n: nat)
    requires |q| == 4 && Rounded(n) <= |m| && Rounded(n + 4) <= |q + m|
    ensures Lacking(q + m, n + 4) == Lacking(m, n)
  {
    hide *;
    var k := (n + 3) / 4;
    QuantaCount(n);
    LackingIs(m, n, k);
    LackingIs(q + m, n + 4, k + 1);
    if n % 4 != 0 {
      assert (q + m)[4 * (k + 1) - 2] == m[4 * k - 2];
    }
  }

  lemma PadCounts(q: seq<Byte>, k: nat, m: seq<Byte>)
    requires |q| == 4 && 2 <= k <= 3 && q[k] == PAD && forall i {:trigger q[i]} :: 0 <= i < k ==> Place(q[i]) >= 0
    ensures Count(q + m) == k
  {
    hide Place;
    var u := q + m;
    assert u[0..] == u;
    CountNext(u, 0);
    CountNext(u, 1);
    CountNext(u, 2);
    PadPlace();
    CountNext(u, k);
  }

  lemma PadPlace()
    ensures Place(PAD) < 0 && Place(0) < 0 && !Blank(PAD) && !Blank(0)
  {
  }

  /** An incomplete quantum loses what it lacks. */
  lemma UudecodedLast(q: seq<Byte>, k: nat, m: seq<Byte>)
    requires |q| == 4 && 2 <= k <= 3 && q[k] == PAD
    requires forall i {:trigger q[i]} :: 0 <= i < k ==> Place(q[i]) >= 0
    requires k == 2 ==> q[2] == PAD
    ensures Count(q + m) == k && Readable(q + m) && Uudecoded(q + m) == Three(q[0], q[1], q[2], q[3])[..k - 1]
  {
    hide *;
    PadCounts(q, k, m);
    CountNextIs(k);
    ReadableIs(q + m);
    UudecodedIs(q + m, k, 1);
    LackingIs(q + m, k, 1);
    ThreesFirst(q, m, 0);
    NoThrees(m);
    PadPlace();
    PlaceIs(q[2]);
  }

  lemma CountNextIs(k: nat)
    requires 2 <= k <= 3
    ensures (k + 3) / 4 == 1 && k % 4 != 0 && Rounded(k) == 4
  {
  }

  lemma PlaceIs(c: Byte)
    ensures Pr2Six(c) > 63 <==> Place(c) < 0
  {
    hide Place;
    PlaceRange(c);
  }

  lemma NothingCoded(m: seq<Byte>)
    requires m != [] && m[0] == 0
    ensures Count(m) == 0 && Encoded([]) + m == m && Readable(m) && Uudecoded(m) == []
  {
  }

  lemma EncodedLast(s: seq<Byte>)
    requires |s| == 1 || |s| == 2
    ensures var v := Bits(s[0], if |s| == 2 then s[1] else 0, 0);
      Encoded(s) == if |s| == 1 then [Quantum(v)[0], Quantum(v)[1], PAD, PAD] else [Quantum(v)[0], Quantum(v)[1], Quantum(v)[2], PAD]
  {
    hide Quantum, Bits;
  }

  /** Whatever was encoded is decoded, byte for byte, whatever follows its NUL, and if nothing does. */
  lemma {:induction false} UudecodeEncode(s: seq<Byte>, m: seq<Byte>)
    requires m != [] && m[0] == 0
    ensures Readable(Encoded(s) + m) && Uudecoded(Encoded(s) + m) == s
    decreases |s|
  {
    hide *;
    if s == [] {
      NothingCoded(m);
    } else if |s| < 3 {
      var b := if |s| == 2 then s[1] else 0;
      var v := Bits(s[0], b, 0);
      EncodedLast(s);
      ThreeOfQuantum(v);
      TripleOfBits(s[0], b, 0);
      UudecodedLast(Encoded(s), |s| + 1, m);
    } else {
      var v := Bits(s[0], s[1], s[2]);
      EncodedFirst(s);
      ThreeOfQuantum(v);
      TripleOfBits(s[0], s[1], s[2]);
      UudecodeEncode(s[3..], m);
      UudecodedFirst(Quantum(v), Encoded(s[3..]) + m);
      assert Encoded(s) + m == Quantum(v) + (Encoded(s[3..]) + m);
      assert s == [s[0], s[1], s[2]] + s[3..];
    }
  }

  /** Both decoders give back the same string from the same text, leading blanks or not. */
  lemma DecodersAgree(s: seq<Byte>, blanks: seq<Byte>, more: seq<Byte>, m: seq<Byte>)
    requires 0 !in s && |s| <= MOST && forall c {:trigger c in blanks} :: c in blanks ==> Blank(c)
    requires Ends(m, Decoded(blanks + Encoded(s)))
    ensures var coded := blanks + Encoded(s) + ([0] + more);
      Readable(coded[Blanks(coded)..]) && Uudecoded(coded[Blanks(coded)..]) == s && 0 in m && CString(m) == s
  {
    hide *;
    TakenIs(s);
    BlanksAreJunk(blanks);
    JunkIsSkipped([], blanks, Encoded(s));
    assert [] + blanks + Encoded(s) == blanks + Encoded(s) && [] + Encoded(s) == Encoded(s);
    StringRoundTrip(s, m);
    UudecodeEncode(s, [0] + more);
    BlanksBefore(blanks, Encoded(s) + ([0] + more));
    NotBlank(s, [0] + more);
    assert blanks + Encoded(s) + ([0] + more) == blanks + (Encoded(s) + ([0] + more));
    assert (blanks + (Encoded(s) + ([0] + more)))[|blanks|..] == Encoded(s) + ([0] + more);
  }

  lemma BlanksAreJunk(blanks: seq<Byte>)
    requires forall c {:trigger c in blanks} :: c in blanks ==> Blank(c)
    ensures forall c {:trigger c in blanks} :: c in blanks ==> Value(c) < 0
  {
  }

  lemma {:induction false} BlanksBefore(blanks: seq<Byte>, m: seq<Byte>)
    requires forall c {:trigger c in blanks} :: c in blanks ==> Blank(c)
    ensures m != [] && !Blank(m[0]) ==> Blanks(blanks + m) == |blanks|
  {
    if blanks == [] {
      assert blanks + m == m;
    } else {
      assert blanks[0] in blanks && (blanks + m)[1..] == blanks[1..] + m;
      forall c {:trigger c in blanks[1..]} | c in blanks[1..]
        ensures Blank(c)
      {
        assert c in blanks;
      }
      BlanksBefore(blanks[1..], m);
    }
  }

  lemma NotBlank(s: seq<Byte>, m: seq<Byte>)
    requires m != [] && m[0] == 0
    ensures Encoded(s) + m != [] && !Blank((Encoded(s) + m)[0])
  {
    if s != [] {
      var v := Bits(s[0], if |s| > 1 then s[1] else 0, if |s| > 2 then s[2] else 0);
      assert Encoded(s)[0] == Code(v / 0x4_0000);
    }
  }

  // ---- how far the memory is read ----

  /** One more than the last place that the count or the quanta come to. */
  function Reach(m: seq<Byte>): nat {
    var n := Count(m[Blanks(m)..]);
    Blanks(m) + if Rounded(n) > n then Rounded(n) else n + 1
  }

  /** Nothing beyond the NUL is read exactly when the string has the characters that complete the
      last quantum, counting the NUL. */
  lemma StaysInside(m: seq<Byte>)
    requires 0 in m
    ensures var n, left := Count(m[Blanks(m)..]), |CString(m)| - Blanks(m) - Count(m[Blanks(m)..]);
      Reach(m) <= |CString(m)| + 1 <==> n % 4 == 0 || n % 4 == 3 || (n % 4 == 2 && left >= 1) || left >= 2
  {
    hide Count, Blanks, CString;
    StringCounts(m);
  }

  /** What was encoded is never read beyond its NUL. */
  lemma EncodedStaysInside(s: seq<Byte>, blanks: seq<Byte>)
    requires forall c {:trigger c in blanks} :: c in blanks ==> Blank(c)
    ensures Reach(blanks + Encoded(s) + [0]) <= |blanks + Encoded(s)| + 1
  {
    hide *;
    UudecodeEncode(s, [0]);
    ReadableIs(Encoded(s) + [0]);
    BlanksBefore(blanks, Encoded(s) + [0]);
    NotBlank(s, [0]);
    var m := blanks + Encoded(s) + [0];
    assert m == blanks + (Encoded(s) + [0]) && m[|blanks|..] == Encoded(s) + [0];
    ReachIs(m);
  }

  lemma ReachIs(m: seq<Byte>)
    ensures Readable(m[Blanks(m)..]) <==> Reach(m) <= |m|
  {
    hide Count, Blanks;
  }

  /** One or two characters over a multiple of four, and the NUL: two or one octets too many are read. */
  lemma ReadsBeyondTheEnd()
    ensures CString([65, 0]) == [65] && Reach([65, 0]) == 4
    ensures CString([65, 66, 0]) == [65, 66] && Reach([65, 66, 0]) == 4
  {
    var a: seq<Byte>, b: seq<Byte> := [65, 0], [65, 66, 0];
    assert a[0..] == a && b[0..] == b && a[1..] == [0] && b[1..] == [66, 0] && b[1..][1..] == [0];
    CountNext(a, 0);
    CountNext(a, 1);
    CountNext(b, 0);
    CountNext(b, 1);
    CountNext(b, 2);
    assert b[2..] == [0];
  }
}
