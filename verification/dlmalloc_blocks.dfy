/** The one-word bitmap `binblocks` of dlmalloc.c, read as a number.  Bit k stands for the
    block of bins 4k .. 4k+3. */
module DlBlocks {

  function Pow2(k: nat): (p: nat)
    ensures p >= 1
  {
    if k == 0 then 1 else 2 * Pow2(k - 1)
  }

  /** `word & (1 << k)` is nonzero. */
  predicate Bit(word: nat, k: nat) {
    if k == 0 then word % 2 == 1 else Bit(word / 2, k - 1)
  }

  /** `word | (1 << k)` */
  function SetBit(word: nat, k: nat): (r: nat)
  {
    if k == 0 then word / 2 * 2 + 1 else SetBit(word / 2, k - 1) * 2 + word % 2
  }

  /** `word & ~(1 << k)` */
  function ClearBit(word: nat, k: nat): (r: nat)
  {
    if k == 0 then word / 2 * 2 else ClearBit(word / 2, k - 1) * 2 + word % 2
  }

  lemma {:induction false} BitAfterSet(word: nat, k: nat, j: nat)
    ensures Bit(SetBit(word, k), j) == (j == k || Bit(word, j))
  {
    if k != 0 && j != 0 {
      BitAfterSet(word / 2, k - 1, j - 1);
    }
  }

  lemma {:induction false} BitAfterClear(word: nat, k: nat, j: nat)
    ensures Bit(ClearBit(word, k), j) == (j != k && Bit(word, j))
  {
    if k != 0 && j != 0 {
      BitAfterClear(word / 2, k - 1, j - 1);
    }
  }

  /** Setting and clearing one bit is visible at that bit only. */
  lemma BitAfterUpdate(word: nat, k: nat, j: nat)
    ensures Bit(SetBit(word, k), j) == (j == k || Bit(word, j))
    ensures Bit(ClearBit(word, k), j) == (j != k && Bit(word, j))
  {
    hide *;
    BitAfterSet(word, k, j);
    BitAfterClear(word, k, j);
  }

  /** A word of n bits stays one. */
  lemma {:induction false} UpdateInRange(word: nat, k: nat, n: nat)
    requires word < Pow2(n) && k < n
    ensures SetBit(word, k) < Pow2(n) && ClearBit(word, k) < Pow2(n)
  {
    var half := Pow2(n - 1);
    assert Pow2(n) == 2 * half;
    assert word / 2 < half;
    if k != 0 {
      UpdateInRange(word / 2, k - 1, n - 1);
      Doubled(SetBit(word / 2, k - 1), word % 2, half);
      Doubled(ClearBit(word / 2, k - 1), word % 2, half);
    } else {
      Doubled(word / 2, 1, half);
    }
  }

  lemma Doubled(x: nat, bit: nat, half: nat)
    requires x < half && bit <= 1
    ensures x * 2 + bit < 2 * half
  {
  }

  ghost predicate AnyBitFrom(word: nat, k: nat) {
    exists j: nat :: k <= j && Bit(word, j)
  }

  /** Comparing a one-bit word with the bitmap asks whether any bit from there on is set. */
  lemma {:induction false} CompareFindsBit(word: nat, k: nat)
    ensures Pow2(k) <= word <==> AnyBitFrom(word, k)
  {
    if k == 0 {
      if word > 0 {
        SomeBit(word);
      } else {
        forall j: nat ensures !Bit(word, j) { NoBit(j); }
      }
    } else {
      CompareFindsBit(word / 2, k - 1);
      if j: nat :| k - 1 <= j && Bit(word / 2, j) {
        assert Bit(word, j + 1);
      }
      if j: nat :| k <= j && Bit(word, j) {
        var i: nat := j - 1;
        assert Bit(word / 2, i);
        assert AnyBitFrom(word / 2, k - 1);
      }
    }
  }

  lemma {:induction false} SomeBit(word: nat)
    requires word > 0
    ensures exists j: nat :: Bit(word, j)
  {
    if word % 2 == 1 {
      assert Bit(word, 0);
    } else {
      SomeBit(word / 2);
      var j: nat :| Bit(word / 2, j);
      assert Bit(word, j + 1);
    }
  }

  lemma {:induction false} NoBit(j: nat)
    ensures !Bit(0, j)
  {
    if j > 0 {
      NoBit(j - 1);
    }
  }

  /** A word of n bits has no bit from n on. */
  lemma {:induction false} BitsInRange(word: nat, n: nat, j: nat)
    requires word < Pow2(n) && Bit(word, j)
    ensures j < n
  {
    if n == 0 {
      NoBit(j);
    } else if j > 0 {
      BitsInRange(word / 2, n - 1, j - 1);
    }
  }
}
