/** Sizes, alignment and bin numbers of the boundary-tag allocator (dlmalloc.c).
    The layout is the 32-bit one its commentary describes: a size field takes 4 bytes,
    chunks are 8-byte aligned and the smallest chunk is 16 bytes. */
module DlSizes {

  const SIZE_SZ := 4
  const ALIGNMENT := 8
  const MINSIZE := 16

  // 2^32 and 2^31: `size_t` wraps at the first, a cast to `long` goes negative at the second.
  const SIZE_T_RANGE := 0x1_0000_0000
  const LONG_RANGE := 0x8000_0000

  const NAV := 128
  const MAX_SMALLBIN_SIZE := 512
  const SMALLBIN_WIDTH := 8

  /** The value of an unsigned word after the cast to `long`. */
  function AsLong(x: nat): (r: int)
    requires x < SIZE_T_RANGE
  {
    if x < LONG_RANGE then x else x - SIZE_T_RANGE
  }

  /** Pads a request to a chunk size.  The addition wraps, and the comparison is signed. */
  function Request2Size(req: nat): (nb: nat)
    requires req < SIZE_T_RANGE
    ensures nb % ALIGNMENT == 0 && MINSIZE <= nb < LONG_RANGE
  {
    var padded := (req + (SIZE_SZ + (ALIGNMENT - 1))) % SIZE_T_RANGE;
    if AsLong(padded) < MINSIZE + (ALIGNMENT - 1) then MINSIZE else padded - padded % ALIGNMENT
  }

  /** A size a chunk can have. */
  predicate LegalSize(s: int) {
    s % ALIGNMENT == 0 && MINSIZE <= s
  }

  /** Requests for which the padded sum stays below 2^31. */
  predicate Paddable(req: nat) {
    req + (SIZE_SZ + (ALIGNMENT - 1)) < LONG_RANGE
  }

  /** A padded request leaves room for the request and one size field exactly when the
      padded sum stays below 2^31, and it is then the smallest legal size that does. */
  lemma PaddingHoldsTheRequest(req: nat)
    requires req < SIZE_T_RANGE
    ensures req + SIZE_SZ <= Request2Size(req) <==> Paddable(req)
    ensures Paddable(req) ==> forall s | LegalSize(s) && req + SIZE_SZ <= s :: Request2Size(req) <= s
  {
    if Paddable(req) {
      forall s | LegalSize(s) && req + SIZE_SZ <= s
        ensures Request2Size(req) <= s
      {
        var padded := req + (SIZE_SZ + (ALIGNMENT - 1));
        assert padded % SIZE_T_RANGE == padded;
        if padded >= MINSIZE + (ALIGNMENT - 1) {
          assert s >= padded - 7;
        }
      }
    }
  }

  /** The largest requests get the smallest chunk: the padded sum is negative as a `long`. */
  lemma PaddingOfAHugeRequest()
    ensures Request2Size(0x8000_0000) == MINSIZE
    ensures Request2Size(0xFFFF_FFFF) == MINSIZE
  {
  }

  function BinIndex(sz: nat): (i: nat)
  {
    var w := sz / 512;
    if w == 0 then sz / 8
    else if w <= 4 then 56 + sz / 64
    else if w <= 20 then 91 + sz / 512
    else if w <= 84 then 110 + sz / 4096
    else if w <= 340 then 119 + sz / 32768
    else if w <= 1364 then 124 + sz / 262144
    else 126
  }

  function SmallBinIndex(sz: nat): nat {
    sz / 8
  }

  predicate IsSmallRequest(nb: nat) {
    nb < MAX_SMALLBIN_SIZE - SMALLBIN_WIDTH
  }

  /** Larger chunks never go to a lower bin, chunk sizes stay within bins 2 to 126,
      and below 512 bytes a bin holds chunks of one size only. */
  lemma BinIndexMonotone(s: nat, t: nat)
    requires s <= t
    ensures BinIndex(s) <= BinIndex(t) <= 126
    ensures MINSIZE <= s ==> 2 <= BinIndex(s)
    ensures LegalSize(s) && LegalSize(t) && s < t && s < MAX_SMALLBIN_SIZE ==> BinIndex(s) < BinIndex(t)
    ensures s < MAX_SMALLBIN_SIZE <==> BinIndex(s) <= 63
  {
  }
}
