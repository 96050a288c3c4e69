/** Keys as bit strings: the bits a radix tree tests, and the first bit at which two keys differ. */
module RadixKeys {
  type Byte = x: int | 0 <= x < 256
  type Key = seq<Byte>

  /** x shifted right k times. */
  function Shift(x: nat, k: nat): nat {
    if k == 0 then x else Shift(x / 2, k - 1)
  }

  /** The mask `0x80 >> (b & 7)` of a bit, told by the position of its one bit. */
  function MaskBit(b: nat): nat {
    7 - b % 8
  }

  /** `x & mask` */
  predicate HasBit(x: Byte, m: nat) {
    Shift(x, m) % 2 == 1
  }

  /** Bit i of a key, bit 0 being the highest of the first byte; beyond the key there are none. */
  predicate BitAt(k: Key, i: nat) {
    i / 8 < |k| && HasBit(k[i / 8], MaskBit(i))
  }

  /** The keys agree on bits lo up to hi. */
  ghost predicate SameBits(a: Key, b: Key, lo: nat, hi: int) {
    forall i: nat {:trigger BitAt(a, i)} {:trigger BitAt(b, i)} :: lo <= i < hi ==> BitAt(a, i) == BitAt(b, i)
  }

  /** In the order of the bits from lo on, a comes before b. */
  ghost predicate Before(a: Key, b: Key, lo: nat, i: nat) {
    lo <= i && SameBits(a, b, lo, i) && !BitAt(a, i) && BitAt(b, i)
  }

  // ---- the exclusive or of two bytes ----

  function Xor(a: nat, b: nat): nat
    decreases a + b
  {
    if a == 0 && b == 0 then 0 else 2 * Xor(a / 2, b / 2) + (a + b) % 2
  }

  /** The number of shifts after which nothing is left. */
  function BitLength(x: nat): nat {
    if x == 0 then 0 else 1 + BitLength(x / 2)
  }

  /** What the shifting of the exclusive or tells: above that many low bits the two agree, and at
      the highest of them they differ. */
  lemma {:induction false} XorTells(a: nat, b: nat, n: nat)
    requires a != b && Shift(a, n) == Shift(b, n)
    ensures var k := BitLength(Xor(a, b)); 1 <= k <= n && Shift(a, k) == Shift(b, k) && Shift(a, k - 1) % 2 != Shift(b, k - 1) % 2
    decreases n
  {
    if a / 2 == b / 2 {
      LastBitTells(a, b);
      assert n > 0;
    } else {
      XorTells(a / 2, b / 2, n - 1);
      HalvesTell(a, b, BitLength(Xor(a / 2, b / 2)));
    }
  }

  lemma OneIsOdd(a: nat, b: nat)
    requires a != b && a / 2 == b / 2
    ensures (a + b) % 2 == 1 && a % 2 != b % 2
  {
    var h := a / 2;
    assert a == 2 * h + a % 2 && b == 2 * h + b % 2;
    assert a + b == 2 * (2 * h) + 1;
    Odd(2 * h);
  }

  lemma Odd(k: nat)
    ensures (2 * k + 1) % 2 == 1
  {
  }

  lemma ShiftOnce(a: nat)
    ensures Shift(a, 0) == a && Shift(a, 1) == a / 2
  {
    assert Shift(a, 1) == Shift(a / 2, 0);
  }

  lemma XorSplit(a: nat, b: nat)
    requires a != 0 || b != 0
    ensures Xor(a, b) == 2 * Xor(a / 2, b / 2) + (a + b) % 2
  {
  }

  lemma LastBitTells(a: nat, b: nat)
    requires a != b && a / 2 == b / 2
    ensures BitLength(Xor(a, b)) == 1 && Shift(a, 1) == Shift(b, 1) && Shift(a, 0) % 2 != Shift(b, 0) % 2
  {
    OneIsOdd(a, b);
    XorSplit(a, b);
    XorSelf(a / 2);
    ShiftOnce(a);
    ShiftOnce(b);
    hide Xor, Shift;
    assert BitLength(1) == 1 + BitLength(0);
  }

  lemma HalvesTell(a: nat, b: nat, k: nat)
    requires k == BitLength(Xor(a / 2, b / 2)) && k >= 1
    ensures BitLength(Xor(a, b)) == k + 1 && Shift(a, k + 1) == Shift(a / 2, k) && Shift(b, k + 1) == Shift(b / 2, k)
    ensures Shift(a, k) == Shift(a / 2, k - 1) && Shift(b, k) == Shift(b / 2, k - 1)
  {
    assert Xor(a, b) / 2 == Xor(a / 2, b / 2) && Xor(a, b) != 0;
  }

  lemma {:induction false} XorSelf(a: nat)
    ensures Xor(a, a) == 0
    decreases a
  {
    if a > 0 {
      XorSelf(a / 2);
    }
  }

  lemma {:induction false} ShiftTwice(a: nat, j: nat, k: nat)
    ensures Shift(a, j + k) == Shift(Shift(a, j), k)
    decreases j
  {
    if j > 0 {
      ShiftTwice(a / 2, j - 1, k);
    }
  }

  lemma {:induction false} SmallShift(x: nat, n: nat, bound: nat)
    requires n > 0 ==> x < 2 * bound
    requires (bound == 1 && n == 1) || (bound == 2 && n == 2) || (bound == 4 && n == 3) || (bound == 8 && n == 4)
      || (bound == 16 && n == 5) || (bound == 32 && n == 6) || (bound == 64 && n == 7) || (bound == 128 && n == 8)
    ensures Shift(x, n) == 0
    decreases n
  {
    if n == 1 {
      assert Shift(x, 1) == Shift(x / 2, 0);
    } else {
      SmallShift(x / 2, n - 1, bound / 2);
    }
  }

  lemma ByteShift(x: Byte)
    ensures Shift(x, 8) == 0
  {
    SmallShift(x, 8, 128);
  }

  /** The first bit at which two keys differ, from the first byte at which they do. */
  lemma FirstDifference(a: Key, b: Key, lo: nat, i: nat)
    requires lo <= i < |a| && i < |b| && a[lo..i] == b[lo..i] && a[i] != b[i]
    ensures var n := BitLength(Xor(a[i], b[i]));
      var d := 8 * (i + 1) - n;
      && 1 <= n <= 8 && 8 * i <= d < 8 * i + 8
      && SameBits(a, b, 8 * lo, d) && BitAt(a, d) != BitAt(b, d)
  {
    ByteShift(a[i]);
    ByteShift(b[i]);
    XorTells(a[i], b[i], 8);
    var n := BitLength(Xor(a[i], b[i]));
    var d := 8 * (i + 1) - n;
    forall j: nat {:trigger BitAt(a, j)} {:trigger BitAt(b, j)} | 8 * lo <= j < d
      ensures BitAt(a, j) == BitAt(b, j)
    {
      if j / 8 < i {
        assert a[lo..i][j / 8 - lo] == b[lo..i][j / 8 - lo];
      } else {
        ShiftTwice(a[i], n, MaskBit(j) - n);
        ShiftTwice(b[i], n, MaskBit(j) - n);
      }
    }
    assert d / 8 == i && 7 - d % 8 == n - 1;
  }

  lemma SameBytesSameBits(a: Key, b: Key, lo: nat, hi: nat)
    requires lo <= hi <= |a| && hi <= |b| && a[lo..hi] == b[lo..hi]
    ensures SameBits(a, b, 8 * lo, 8 * hi)
  {
    forall j: nat {:trigger BitAt(a, j)} {:trigger BitAt(b, j)} | 8 * lo <= j < 8 * hi
      ensures BitAt(a, j) == BitAt(b, j)
    {
      assert a[lo..hi][j / 8 - lo] == b[lo..hi][j / 8 - lo];
    }
  }

  lemma SameBitsTransitive(a: Key, b: Key, c: Key, lo: nat, hi: int)
    requires SameBits(a, b, lo, hi) && SameBits(b, c, lo, hi)
    ensures SameBits(a, c, lo, hi)
  {
    forall i: nat {:trigger BitAt(a, i)} {:trigger BitAt(c, i)} | lo <= i < hi
      ensures BitAt(a, i) == BitAt(c, i)
    {
      assert BitAt(a, i) == BitAt(b, i);
    }
  }
}
