/** What freeing a chunk does to the book: the chunk comes loose, takes in its free neighbours,
    and settles on a list or as `top`. */
module DlFrees {
  import opened DlSizes
  import opened DlBook
  import opened DlLists
  import opened DlChunks
  import opened DlMoves

  /** Only p is loose, and no two free chunks touch but at p's ends. */
  ghost predicate Near(k: Book, p: int) {
    && (forall q {:trigger k.chunks[q]} :: q in k.chunks && k.chunks[q].st.Loose? ==> q == p)
    && (forall q {:trigger k.chunks[q].prev} ::
          q in k.chunks && q != k.base && k.chunks[q].prev in k.chunks && q != p && k.chunks[q].prev != p ==>
          k.chunks[q].st.Used? || k.chunks[k.chunks[q].prev].st.Used?)
  }

  /** p is no longer in use; every other block is as before. */
  ghost predicate Frees(k: Book, k': Book, p: int) {
    && UsedIn(k', k) && !(p in k'.chunks && k'.chunks[p].st.Used?)
    && (forall q {:trigger k.chunks[q]} :: q in k.chunks && k.chunks[q].st.Used? && q != p ==>
          q in k'.chunks && k'.chunks[q].st.Used? && k'.chunks[q].size == k.chunks[q].size)
  }

  /** But for p before and p' after, the blocks in use are the same. */
  ghost predicate Others(k: Book, p: int, k': Book, p': int) {
    && (forall q {:trigger k.chunks[q]} :: q in k.chunks && k.chunks[q].st.Used? && q != p ==>
          q != p' && q in k'.chunks && k'.chunks[q].st.Used? && k'.chunks[q].size == k.chunks[q].size)
    && (forall q {:trigger k'.chunks[q]} :: q in k'.chunks && k'.chunks[q].st.Used? && q != p' ==>
          q != p && q in k.chunks && k.chunks[q].st.Used? && k.chunks[q].size == k'.chunks[q].size)
  }

  lemma FreesOver(k0: Book, k1: Book, k2: Book, p: int)
    requires Frees(k0, k1, p) && UsedIn(k1, k2) && UsedIn(k2, k1)
    ensures Frees(k0, k2, p)
  {
  }

  lemma ReleaseNear(k: Book, p: int)
    requires NoLoose(k) && Consolidated(k) && p in k.chunks && k.chunks[p].st.Used?
    ensures Near(Restatus(k, p, Loose), p) && Frees(k, Restatus(k, p, Loose), p)
  {
    var k' := Restatus(k, p, Loose);
    forall q {:trigger k'.chunks[q].prev} | q in k'.chunks && q != k'.base && k'.chunks[q].prev in k'.chunks
        && q != p && k'.chunks[q].prev != p
      ensures k'.chunks[q].st.Used? || k'.chunks[k'.chunks[q].prev].st.Used?
    {
      assert k'.chunks[q].prev == k.chunks[q].prev;
    }
  }

  lemma KeepsFewer(m: Memory, m': Memory, k: Book, k': Book)
    requires Keeps(m, m', k) && UsedIn(k', k)
    ensures Keeps(m, m', k')
  {
    forall p, a {:trigger UserWord(k', p, a)} | UserWord(k', p, a)
      ensures Rd(m', a) == Rd(m, a)
    {
      assert UserWord(k, p, a);
    }
  }

  // ---- taking in the chunk below ----

  /** Listed chunk q lies just below chunk p. */
  ghost predicate Below(k: Book, q: int, p: int, b: nat, i: nat) {
    && IsFiled(k, q, b, i) && k.chunks[q].st == Free(b) && q != k.top
    && p in k.chunks && q != p && Next(k.chunks, q) == p && !k.chunks[p].st.Free?
  }

  lemma BelowJoinable(k: Book, q: int, p: int, b: nat, i: nat)
    requires Below(k, q, p, b, i)
    ensures Joinable(Detach(k, q, b, i), q) && Next(Detach(k, q, b, i).chunks, q) == p
  {
  }

  ghost function TakeBelow(k: Book, q: int, p: int, b: nat, i: nat): Book
    requires Below(k, q, p, b, i)
  {
    BelowJoinable(k, q, p, b, i);
    Join(Detach(k, q, b, i), q)
  }

  /** The chunks after a join, one by one. */
  lemma JoinChunks(k: Book, p: int, q: int, n: int, r: int)
    requires Joinable(k, p) && q == Next(k.chunks, p) && q != p && n == Next(k.chunks, q) && n != p && n != q
    requires q != k.top ==> n in k.chunks && k.chunks[n].prev == q
    requires r in k.chunks && k.chunks[r].prev == q && r != k.base ==> q != k.top && r == n
    requires q == k.top ==> n !in k.chunks
    ensures var k' := Join(k, p);
      && (r in k'.chunks <==> r in k.chunks && r != q)
      && k'.base == k.base && k'.top == (if q == k.top then p else k.top)
      && p in k'.chunks && k'.chunks[p] == Chunk(k.chunks[p].size + k.chunks[q].size, k.chunks[p].prev, k.chunks[q].st)
      && (r in k.chunks && r != p && r != q ==>
            && k'.chunks[r].st == k.chunks[r].st && k'.chunks[r].size == k.chunks[r].size
            && (r != k.base ==> k'.chunks[r].prev == if k.chunks[r].prev == q then p else k.chunks[r].prev))
  {
  }

  lemma JoinSides(k: Book, p: int, r: int)
    requires Apart(k) && Upward(k) && Downward(k) && p in k.chunks && p != k.top
    ensures var q := Next(k.chunks, p);
      && q in k.chunks && q != p
      && var n := Next(k.chunks, q);
      && n != p && n != q && (q != k.top ==> n in k.chunks && k.chunks[n].prev == q)
      && (r in k.chunks && k.chunks[r].prev == q && r != k.base ==> q != k.top && r == n)
      && (q == k.top ==> n !in k.chunks)
  {
    var q := Next(k.chunks, p);
    assert q in k.chunks;
    if r in k.chunks && k.chunks[r].prev == q && r != k.base {
      assert Next(k.chunks, k.chunks[r].prev) == r;
    }
  }

  lemma TakeBelowChunks(k: Book, q: int, p: int, b: nat, i: nat, r: int)
    requires Below(k, q, p, b, i) && Apart(k) && Upward(k) && Downward(k)
    ensures var k' := TakeBelow(k, q, p, b, i);
      && (r in k'.chunks <==> r in k.chunks && r != p)
      && k'.base == k.base && k'.top == (if p == k.top then q else k.top)
      && q in k'.chunks && k'.chunks[q].size == k.chunks[q].size + k.chunks[p].size
      && k'.chunks[q].prev == k.chunks[q].prev && k'.chunks[q].st == k.chunks[p].st
      && (r in k.chunks && r != p && r != q ==>
            && k'.chunks[r].st == k.chunks[r].st && k'.chunks[r].size == k.chunks[r].size
            && (r != k.base ==> k'.chunks[r].prev == if k.chunks[r].prev == p then q else k.chunks[r].prev))
  {
    hide Apart, Upward, Downward, Join;
    JoinSides(k, q, r);
    BelowJoinable(k, q, p, b, i);
    var k1 := Detach(k, q, b, i);
    assert Next(k1.chunks, p) == Next(k.chunks, p);
    JoinChunks(k1, q, p, Next(k1.chunks, p), r);
  }

  lemma TakeBelowCalm(k: Book, q: int, p: int, b: nat, i: nat)
    requires Below(k, q, p, b, i) && Apart(k) && Upward(k) && Downward(k) && Near(k, p)
    ensures Near(TakeBelow(k, q, p, b, i), q)
  {
    hide TakeBelow, Apart, Upward, Downward;
    var k' := TakeBelow(k, q, p, b, i);
    forall r {:trigger k'.chunks[r]} | r in k'.chunks && k'.chunks[r].st.Loose?
      ensures r == q
    {
      TakeBelowChunks(k, q, p, b, i, r);
    }
    forall r {:trigger k'.chunks[r].prev} | r in k'.chunks && r != k'.base && k'.chunks[r].prev in k'.chunks
        && r != q && k'.chunks[r].prev != q
      ensures k'.chunks[r].st.Used? || k'.chunks[k'.chunks[r].prev].st.Used?
    {
      TakeBelowChunks(k, q, p, b, i, r);
      TakeBelowChunks(k, q, p, b, i, k'.chunks[r].prev);
    }
  }

  lemma TakeBelowOthers(k: Book, q: int, p: int, b: nat, i: nat)
    requires Below(k, q, p, b, i) && Apart(k) && Upward(k) && Downward(k)
    ensures var k' := TakeBelow(k, q, p, b, i);
      Others(k, p, k', q) && (!k.chunks[p].st.Used? ==> UsedIn(k, k') && UsedIn(k', k))
  {
    hide TakeBelow, Apart, Upward, Downward;
    var k' := TakeBelow(k, q, p, b, i);
    forall r {:trigger k.chunks[r]} {:trigger k'.chunks[r]}
      ensures r in k.chunks && k.chunks[r].st.Used? && r != p ==>
        r != q && r in k'.chunks && k'.chunks[r].st.Used? && k'.chunks[r].size == k.chunks[r].size
      ensures r in k'.chunks && k'.chunks[r].st.Used? && r != q ==>
        r != p && r in k.chunks && k.chunks[r].st.Used? && k.chunks[r].size == k'.chunks[r].size
    {
      TakeBelowChunks(k, q, p, b, i, r);
    }
    TakeBelowChunks(k, q, p, b, i, q);
  }

  lemma TakeBelowNear(k: Book, q: int, p: int, b: nat, i: nat)
    requires Below(k, q, p, b, i) && Apart(k) && Upward(k) && Downward(k) && Near(k, p)
    ensures var k' := TakeBelow(k, q, p, b, i);
      && Near(k', q) && PBit(k', q) == 1 && Others(k, p, k', q)
      && (!k.chunks[p].st.Used? ==> UsedIn(k, k') && UsedIn(k', k))
  {
    TakeBelowCalm(k, q, p, b, i);
    TakeBelowOthers(k, q, p, b, i);
    TakeBelowChunks(k, q, p, b, i, q);
    if q != k.base {
      assert k.chunks[q].prev in k.chunks;
      PrevBelow(k, q);
      TakeBelowChunks(k, q, p, b, i, k.chunks[q].prev);
    }
    hide TakeBelow, Apart, Upward, Downward, Others, UsedIn;
  }

  lemma TakeBelowStep(m: Memory, k: Book, x: int, q: int, p: int, b: nat, i: nat)
    requires Core(m, k, x) && (x == NONE || x == p) && Below(k, q, p, b, i) && Near(k, p)
    ensures var k' := TakeBelow(k, q, p, b, i);
      && Core(Unlink(m, q), k', q) && Near(k', q) && PBit(k', q) == 1 && Others(k, p, k', q)
      && (!k.chunks[p].st.Used? ==> UsedIn(k, k') && UsedIn(k', k)) && Keeps(m, Unlink(m, q), k)
  {
    hide Shaped, Apart, Upward, Downward, Tagged, Linked, Homed, Listed, Distinct, Sorted, Keeps, UsedIn, Near, Join, Joinable, Others;
    UnlinkStep(m, k, x, q, b, i);
    BelowJoinable(k, q, p, b, i);
    JoinStep(Unlink(m, q), Detach(k, q, b, i), q, x);
    TakeBelowNear(k, q, p, b, i);
  }

  // ---- taking in the chunk above ----

  ghost predicate Above(k: Book, n: int, p: int, b: nat, i: nat) {
    && IsFiled(k, n, b, i) && k.chunks[n].st == Free(b) && n != k.top
    && p in k.chunks && p != n && p != k.top && Next(k.chunks, p) == n && !k.chunks[p].st.Free?
  }

  lemma AboveJoinable(k: Book, n: int, p: int, b: nat, i: nat)
    requires Above(k, n, p, b, i)
    ensures Joinable(Detach(k, n, b, i), p) && Next(Detach(k, n, b, i).chunks, p) == n
  {
  }

  ghost function TakeAbove(k: Book, n: int, p: int, b: nat, i: nat): Book
    requires Above(k, n, p, b, i)
  {
    AboveJoinable(k, n, p, b, i);
    Join(Detach(k, n, b, i), p)
  }

  lemma TakeAboveChunks(k: Book, n: int, p: int, b: nat, i: nat, r: int)
    requires Above(k, n, p, b, i) && Apart(k) && Upward(k) && Downward(k)
    ensures var k' := TakeAbove(k, n, p, b, i);
      && (r in k'.chunks <==> r in k.chunks && r != n)
      && k'.base == k.base && k'.top == k.top
      && p in k'.chunks && k'.chunks[p].size == k.chunks[p].size + k.chunks[n].size
      && k'.chunks[p].prev == k.chunks[p].prev && k'.chunks[p].st == Loose
      && (r in k.chunks && r != p && r != n ==>
            && k'.chunks[r].st == k.chunks[r].st && k'.chunks[r].size == k.chunks[r].size
            && (r != k.base ==> k'.chunks[r].prev == if k.chunks[r].prev == n then p else k.chunks[r].prev))
      && Next(k'.chunks, p) == Next(k.chunks, n)
  {
    hide Apart, Upward, Downward, Join;
    JoinSides(k, p, r);
    AboveJoinable(k, n, p, b, i);
    var k1 := Detach(k, n, b, i);
    assert Next(k1.chunks, n) == Next(k.chunks, n);
    JoinChunks(k1, p, n, Next(k1.chunks, n), r);
  }

  lemma TakeAboveNear(k: Book, n: int, p: int, b: nat, i: nat)
    requires Above(k, n, p, b, i) && Apart(k) && Upward(k) && Downward(k) && Near(k, p)
    ensures var k' := TakeAbove(k, n, p, b, i);
      && Near(k', p) && PBit(k', p) == PBit(k, p) && Others(k, p, k', p)
      && (!k.chunks[p].st.Used? ==> UsedIn(k, k') && UsedIn(k', k))
      && p != k'.top && Next(k'.chunks, p) in k'.chunks && k'.chunks[Next(k'.chunks, p)].st.Used?
  {
    hide TakeAbove;
    var k' := TakeAbove(k, n, p, b, i);
    forall r {:trigger k'.chunks[r]} | r in k'.chunks && k'.chunks[r].st.Loose?
      ensures r == p
    {
      TakeAboveChunks(k, n, p, b, i, r);
    }
    forall r {:trigger k'.chunks[r].prev} | r in k'.chunks && r != k'.base && k'.chunks[r].prev in k'.chunks
        && r != p && k'.chunks[r].prev != p
      ensures k'.chunks[r].st.Used? || k'.chunks[k'.chunks[r].prev].st.Used?
    {
      TakeAboveChunks(k, n, p, b, i, r);
      TakeAboveChunks(k, n, p, b, i, k'.chunks[r].prev);
    }
    forall r {:trigger k.chunks[r]} {:trigger k'.chunks[r]}
      ensures r in k.chunks && k.chunks[r].st.Used? && r != p ==>
        r in k'.chunks && k'.chunks[r].st.Used? && k'.chunks[r].size == k.chunks[r].size
      ensures r in k'.chunks && k'.chunks[r].st.Used? && r != p ==>
        r in k.chunks && k.chunks[r].st.Used? && k.chunks[r].size == k'.chunks[r].size
    {
      TakeAboveChunks(k, n, p, b, i, r);
    }
    TakeAboveChunks(k, n, p, b, i, p);
    if p != k.base {
      assert k.chunks[p].prev in k.chunks;
      PrevBelow(k, p);
      TakeAboveChunks(k, n, p, b, i, k.chunks[p].prev);
    }
    var o := Next(k.chunks, n);
    assert n in k.chunks && o in k.chunks && k.chunks[o].prev == n;
    BaseHasNoPrev(k, n);
    TakeAboveChunks(k, n, p, b, i, o);
  }

  lemma TakeAboveStep(m: Memory, k: Book, x: int, n: int, p: int, b: nat, i: nat)
    requires Core(m, k, x) && (x == NONE || x == p) && Above(k, n, p, b, i) && Near(k, p)
    ensures var k' := TakeAbove(k, n, p, b, i);
      && Core(Unlink(m, n), k', p) && Near(k', p) && PBit(k', p) == PBit(k, p) && Others(k, p, k', p)
      && (!k.chunks[p].st.Used? ==> UsedIn(k, k') && UsedIn(k', k)) && Keeps(m, Unlink(m, n), k)
      && p != k'.top && Next(k'.chunks, p) in k'.chunks && k'.chunks[Next(k'.chunks, p)].st.Used?
  {
    hide Shaped, Apart, Upward, Downward, Tagged, Linked, Homed, Listed, Distinct, Sorted, Keeps, UsedIn, Near, Join, Joinable, Others;
    UnlinkStep(m, k, x, n, b, i);
    AboveJoinable(k, n, p, b, i);
    JoinStep(Unlink(m, n), Detach(k, n, b, i), p, x);
    TakeAboveNear(k, n, p, b, i);
  }

  // ---- settling ----

  lemma SettleFree(k: Book, p: int, b: nat, i: nat)
    requires Filed(k) && Near(k, p) && Belongs(k, p, b, i) && PBit(k, p) == 1 && Upward(k) && Downward(k)
    requires p != k.top && Next(k.chunks, p) in k.chunks && k.chunks[Next(k.chunks, p)].st.Used?
    ensures NoLoose(Attach(k, p, b, i)) && Consolidated(Attach(k, p, b, i))
  {
    hide Listed, Homed, Distinct, Sorted;
    var k' := Attach(k, p, b, i);
    forall q {:trigger k'.chunks[q].prev} | q in k'.chunks && q != k'.base && k'.chunks[q].prev in k'.chunks
      ensures k'.chunks[q].st.Used? || k'.chunks[k'.chunks[q].prev].st.Used?
    {
      assert k'.chunks[q].prev == k.chunks[q].prev;
      assert Next(k.chunks, k.chunks[q].prev) == q;
    }
  }

  lemma SettleTop(k: Book)
    requires k.top in k.chunks && k.chunks[k.top].st.Top? && Near(k, k.top) && PBit(k, k.top) == 1 && Downward(k)
    ensures NoLoose(k) && Consolidated(k)
  {
  }

  // ---- finding the neighbours ----

  /** A clear use bit: the chunk below is free, listed, and its size is in the foot. */
  lemma FreeBelow(m: Memory, k: Book, x: int, p: int) returns (q: int, b: nat, i: nat)
    requires Core(m, k, x) && Near(k, p) && p in k.chunks && PBit(k, p) == 0
    requires !k.chunks[p].st.Free?
    ensures Below(k, q, p, b, i) && q == p - PrevSize(m, p) && k.chunks[q].size == PrevSize(m, p)
  {
    hide Linked, Distinct, Sorted;
    q := k.chunks[p].prev;
    assert q in k.chunks && Next(k.chunks, q) == p && q != k.top;
    assert q != p;
    assert k.chunks[q].st.Free?;
    b := k.chunks[q].st.bin;
    i :| 0 <= i < |k.bins[b]| && k.bins[b][i] == q;
  }

  /** A clear use bit above the next chunk: the next chunk is free and listed. */
  lemma FreeAbove(m: Memory, k: Book, x: int, p: int, n: int) returns (b: nat, i: nat)
    requires Core(m, k, x) && Near(k, p) && p in k.chunks && p != k.top && !k.chunks[p].st.Free?
    requires n == Next(k.chunks, p) && n in k.chunks && k.chunks[n].st.Free?
    ensures Above(k, n, p, b, i)
  {
    hide Linked, Distinct, Sorted, Tagged;
    assert p < n;
    b := k.chunks[n].st.bin;
    i :| 0 <= i < |k.bins[b]| && k.bins[b][i] == n;
  }

  /** The use bit above a chunk says whether it is free. */
  lemma UseBitReads(m: Memory, k: Book, x: int, n: int)
    requires Core(m, k, x) && n in k.chunks && n != k.top && x != Next(k.chunks, n)
    ensures Next(k.chunks, n) in k.chunks
    ensures PrevInuse(m, Next(k.chunks, n)) <==> k.chunks[n].st.Used?
  {
    hide Linked, Filed;
    var o := Next(k.chunks, n);
    assert o in k.chunks && k.chunks[o].prev == n;
    BaseHasNoPrev(k, n);
    HeadReads(m, k, x, o);
  }

  /** A chunk on the last-remainder list is recognised by its forward link. */
  lemma FdTellsLast(m: Memory, k: Book, p: int, b: nat, i: nat)
    requires Core(m, k, NONE) || exists x :: Core(m, k, x)
    requires IsFiled(k, p, b, i)
    ensures Fd(m, p) == BinAt(1) <==> b == 1
    ensures b == 1 ==> i == 0 && k.bins[1] == [p] && Bk(m, p) == BinAt(1)
  {
    hide Tagged, Apart, Upward, Downward, Sorted;
    LinksOf(m, k, p, b, i);
    NodeIsSite(k, b, i + 2);
    if b != 1 && 1 <= i + 2 <= |k.bins[b]| {
      assert k.bins[b][i + 1] in k.chunks;
    }
  }

  lemma ShadowHead(v: Memory, m: Memory, k: Book, p: int, q: int)
    requires Apart(k) && p in k.chunks && q in k.chunks && Spliced(v, m, p, BinAt(1), BinAt(1))
    ensures Head(m, q) == Head(v, q) && PrevSize(m, q) == PrevSize(v, q)
  {
  }

  /** Two memories that differ in the last-remainder links still do after another `unlink`. */
  lemma ShadowUnlink(v: Memory, m: Memory, k: Book, x: int, p: int, n: int, b: nat, i: nat)
    requires Core(v, k, x) && Spliced(v, m, p, BinAt(1), BinAt(1)) && IsFiled(k, n, b, i) && b != 1
    requires p in k.chunks && k.chunks[p].st.Loose?
    ensures Spliced(Unlink(v, n), Unlink(m, n), p, BinAt(1), BinAt(1))
  {
    hide Tagged, Upward, Downward, Linked, Homed, Listed, Distinct, Sorted;
    LinksOf(v, k, n, b, i);
    NodeIsSite(k, b, i);
    NodeIsSite(k, b, i + 2);
    assert n in k.chunks && p != n;
    ShadowUnlinkAt(v, m, k, p, n, b);
  }

  lemma ShadowUnlinkAt(v: Memory, m: Memory, k: Book, p: int, n: int, b: nat)
    requires Apart(k) && p in k.chunks && n in k.chunks && p != n && 2 <= b < NAV
    requires Spliced(v, m, p, BinAt(1), BinAt(1))
    requires Fd(v, n) == BinAt(b) || (Fd(v, n) in k.chunks && Fd(v, n) != p)
    requires Bk(v, n) == BinAt(b) || (Bk(v, n) in k.chunks && Bk(v, n) != p)
    ensures Spliced(Unlink(v, n), Unlink(m, n), p, BinAt(1), BinAt(1))
  {
    assert Fd(m, n) == Fd(v, n) && Bk(m, n) == Bk(v, n);
    var v', m' := Unlink(v, n), Unlink(m, n);
    forall a {:trigger Rd(m', a)}
      ensures Rd(m', a) ==
        if a == p + 8 || a == p + 12 then BinAt(1) else if a == BinAt(1) + 12 || a == BinAt(1) + 8 then p else Rd(v', a)
    {
      assert Rd(m, a) == if a == p + 8 || a == p + 12 then BinAt(1)
                         else if a == BinAt(1) + 12 || a == BinAt(1) + 8 then p else Rd(v, a);
    }
  }

  /** Taking the only chunk off the last-remainder list, and putting p there instead. */
  lemma RelinkLast(m: Memory, k: Book, x: int, p: int, n: int)
    requires Core(m, k, x) && IsFiled(k, n, 1, 0) && p in k.chunks
    ensures Spliced(Unlink(m, n), LinkLast(m, p), p, BinAt(1), BinAt(1))
  {
    hide Tagged, Upward, Downward, Homed, Listed, Sorted;
    LinksOf(m, k, n, 1, 0);
    assert 0 <= p;
  }

  /** A chunk left on the last-remainder list looks like one just put there. */
  lemma StillLast(m: Memory, k: Book, x: int, p: int)
    requires Core(m, k, x) && IsFiled(k, p, 1, 0)
    ensures Spliced(Unlink(m, p), m, p, BinAt(1), BinAt(1))
  {
    hide Tagged, Upward, Downward, Homed, Listed, Sorted;
    LinksOf(m, k, p, 1, 0);
    assert Ring(m, BinAt(1), k.bins[1]);
    assert Node(BinAt(1), k.bins[1], 0) == BinAt(1) && Node(BinAt(1), k.bins[1], 1) == p && Node(BinAt(1), k.bins[1], 2) == BinAt(1);
    assert 0 <= p by {
      assert p in k.chunks;
    }
  }

  lemma ShadowWrite(v: Memory, m: Memory, p: int, a: int, w: int)
    requires Spliced(v, m, p, BinAt(1), BinAt(1)) && a != p + 8 && a != p + 12 && 0 <= a
    ensures Spliced(v[a := w], m[a := w], p, BinAt(1), BinAt(1))
  {
    forall c {:trigger Rd(m[a := w], c)}
      ensures Rd(m[a := w], c) ==
        if c == p + 8 || c == p + 12 then BinAt(1) else if c == BinAt(1) + 12 || c == BinAt(1) + 8 then p else Rd(v[a := w], c)
    {
      assert Rd(m, c) == if c == p + 8 || c == p + 12 then BinAt(1)
                         else if c == BinAt(1) + 12 || c == BinAt(1) + 8 then p else Rd(v, c);
    }
  }

  /** Header and foot of a loose chunk, written last. */
  lemma CloseChunk(v: Memory, k: Book, x: int, p: int, sz: nat)
    requires Core(v, k, x) && (x == NONE || x == p) && p in k.chunks && k.chunks[p].st.Loose?
    requires k.chunks[p].size == sz && PBit(k, p) == 1
    ensures Core(v[p + 4 := sz + 1][p + sz := sz], k, NONE) && PrevSize(v[p + 4 := sz + 1][p + sz := sz], p + sz) == sz
  {
    hide Shaped, Upward, Downward, Tagged, Linked, Homed, Listed, Distinct, Sorted;
    HeadStep(v, k, x, p, sz + 1);
    SpareFoot(k, p);
    SpareWrite(v[p + 4 := sz + 1], k, NONE, p + sz, sz);
  }

  lemma CloseKeeps(m: Memory, k: Book, p: int, sz: nat)
    requires Apart(k) && p in k.chunks && !k.chunks[p].st.Used? && k.chunks[p].size == sz
    ensures Keeps(m, m[p + 4 := sz + 1][p + sz := sz], k)
  {
  }

  lemma LinkLastKeeps(m: Memory, k: Book, p: int)
    requires Apart(k) && p in k.chunks && k.chunks[p].st.Loose?
    ensures Keeps(m, LinkLast(m, p), k)
  {
  }

  // ---- merging with top ----

  /** A chunk below `top` joins it; no use bit is written, since the header of `top` goes away. */
  ghost function IntoTop(k: Book, p: int): Book
    requires p in k.chunks && p != k.top && Next(k.chunks, p) == k.top && k.top in k.chunks
  {
    Join(k, p)
  }

  lemma IntoTopChunks(k: Book, p: int, r: int)
    requires k.top in k.chunks && k.chunks[k.top].st.Top? && Apart(k) && Upward(k) && Downward(k)
    requires p in k.chunks && p != k.top && Next(k.chunks, p) == k.top && !k.chunks[p].st.Free?
    ensures var k' := IntoTop(k, p);
      && (r in k'.chunks <==> r in k.chunks && r != k.top)
      && k'.base == k.base && k'.top == p && k'.bins == k.bins
      && p in k'.chunks && k'.chunks[p] == Chunk(k.chunks[p].size + k.chunks[k.top].size, k.chunks[p].prev, Top)
      && (r in k.chunks && r != p && r != k.top ==>
            && k'.chunks[r].st == k.chunks[r].st && k'.chunks[r].size == k.chunks[r].size
            && (r != k.base ==> k'.chunks[r].prev == k.chunks[r].prev))
  {
    hide Apart, Upward, Downward, Join;
    JoinSides(k, p, r);
    JoinChunks(k, p, k.top, Next(k.chunks, k.top), r);
    JoinKeepsBins(k, p);
  }

  lemma JoinKeepsBins(k: Book, p: int)
    requires Joinable(k, p) && Next(k.chunks, p) != p
    ensures Join(k, p).bins == k.bins
  {
  }

  lemma IntoTopNear(k: Book, p: int)
    requires Apart(k) && Upward(k) && Downward(k) && p in k.chunks && p != k.top && Next(k.chunks, p) == k.top
    requires Near(k, p) && !k.chunks[p].st.Free? && k.chunks[k.top].st.Top?
    ensures Near(IntoTop(k, p), p) && Frees(k, IntoTop(k, p), p) && PBit(IntoTop(k, p), p) == PBit(k, p)
  {
    hide IntoTop;
    var k' := IntoTop(k, p);
    forall r {:trigger k'.chunks[r]} | r in k'.chunks && k'.chunks[r].st.Loose?
      ensures r == p
    {
      IntoTopChunks(k, p, r);
    }
    forall r {:trigger k'.chunks[r].prev} | r in k'.chunks && r != k'.base && k'.chunks[r].prev in k'.chunks
        && r != p && k'.chunks[r].prev != p
      ensures k'.chunks[r].st.Used? || k'.chunks[k'.chunks[r].prev].st.Used?
    {
      IntoTopChunks(k, p, r);
      IntoTopChunks(k, p, k'.chunks[r].prev);
    }
    forall r {:trigger k.chunks[r]} {:trigger k'.chunks[r]}
      ensures r in k.chunks && k.chunks[r].st.Used? && r != p ==>
        r in k'.chunks && k'.chunks[r].st.Used? && k'.chunks[r].size == k.chunks[r].size
      ensures r in k'.chunks && k'.chunks[r].st.Used? ==>
        r in k.chunks && k.chunks[r].st.Used? && k.chunks[r].size == k'.chunks[r].size
    {
      IntoTopChunks(k, p, r);
      IntoTopChunks(k, p, p);
    }
    IntoTopChunks(k, p, p);
    if p != k.base {
      assert k.chunks[p].prev in k.chunks && k.chunks[p].prev != k.top;
      PrevBelow(k, p);
      IntoTopChunks(k, p, k.chunks[p].prev);
    }
  }

  lemma IntoTopStep(m: Memory, k: Book, x: int, p: int)
    requires Core(m, k, x) && (x == NONE || x == p) && Near(k, p)
    requires p in k.chunks && !k.chunks[p].st.Free? && p != k.top && Next(k.chunks, p) == k.top
    ensures k.top in k.chunks && k.chunks[k.top].st.Top?
    ensures var k' := IntoTop(k, p);
      && Core(m, k', p) && Near(k', p) && Frees(k, k', p) && PBit(k', p) == PBit(k, p)
      && p in k'.chunks && k'.top == p && k'.bins == k.bins && k'.chunks[p].size == k.chunks[p].size + k.chunks[k.top].size
  {
    hide Tagged, Linked, Homed, Listed, Distinct, Sorted, Near, Frees, Join, Upward, Downward;
    assert k.top in k.chunks && k.chunks[k.top].st.Top?;
    JoinStep(m, k, p, x);
    IntoTopNear(k, p);
    IntoTopChunks(k, p, p);
  }

  lemma SettledNear(k: Book, p: int)
    requires NoLoose(k) && Consolidated(k)
    ensures Near(k, p)
  {
  }
}
