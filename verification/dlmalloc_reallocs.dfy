/** What realloc does to the book once the old block and its neighbours have become one chunk. */
module DlReallocs {
  import opened DlSizes
  import opened DlBook
  import opened DlLists
  import opened DlChunks
  import opened DlMoves
  import opened DlFrees

  /** The book as seen by everybody but the user of p. */
  ghost function Without(k: Book, p: int): Book
  {
    if p in k.chunks then Restatus(k, p, Loose) else k
  }

  /** The words of a user part of n - SIZE_SZ bytes, at p in m and at p' in m'. */
  ghost predicate SameUser(m: Memory, p: int, m': Memory, p': int, n: int) {
    forall o {:trigger UserAt(m', p', o)} :: 8 <= o < n + 4 && o % 4 == 0 ==> UserAt(m', p', o) == UserAt(m, p, o)
  }

  /** The user word at distance o from the chunk. */
  ghost function UserAt(m: Memory, p: int, o: int): int {
    Rd(m, p + o)
  }

  lemma OthersWithout(k0: Book, p0: int, k1: Book, p1: int)
    requires Others(k0, p0, k1, p1) && p0 in k0.chunks
    ensures UsedIn(Without(k0, p0), Without(k1, p1)) && UsedIn(Without(k1, p1), Without(k0, p0))
  {
  }

  lemma OthersTrans(k0: Book, p0: int, k1: Book, p1: int, k2: Book, p2: int)
    requires Others(k0, p0, k1, p1) && Others(k1, p1, k2, p2)
    ensures Others(k0, p0, k2, p2)
  {
  }

  lemma SameUserTrans(m0: Memory, p0: int, m1: Memory, p1: int, m2: Memory, p2: int, n: int)
    requires SameUser(m0, p0, m1, p1, n) && SameUser(m1, p1, m2, p2, n)
    ensures SameUser(m0, p0, m2, p2, n)
  {
    forall o {:trigger UserAt(m2, p2, o)} | 8 <= o < n + 4 && o % 4 == 0
      ensures UserAt(m2, p2, o) == UserAt(m0, p0, o)
    {
      assert UserAt(m1, p1, o) == UserAt(m0, p0, o);
    }
  }

  lemma WithoutKeeps(m: Memory, m': Memory, k: Book, p: int)
    requires Keeps(m, m', k)
    ensures Keeps(m, m', Without(k, p))
  {
    KeepsFewer(m, m', k, Without(k, p));
  }

  /** A block whose chunk keeps its words keeps its user part. */
  lemma KeepsIsSameUser(m: Memory, m': Memory, k: Book, p: int)
    requires Keeps(m, m', k) && p in k.chunks && k.chunks[p].st.Used?
    ensures SameUser(m, p, m', p, k.chunks[p].size)
  {
    forall o {:trigger UserAt(m', p, o)} | 8 <= o < k.chunks[p].size + 4 && o % 4 == 0
      ensures UserAt(m', p, o) == UserAt(m, p, o)
    {
      assert UserWord(k, p, p + o);
    }
  }

  // ---- the end of realloc ----

  /** Chunk p, the result of the merges: in use, or loose and about to be. */
  ghost predicate Mergeable(k: Book, p: int) {
    && Near(k, p) && p in k.chunks && p != k.top && (k.chunks[p].st.Used? || k.chunks[p].st.Loose?)
  }

  lemma UseSettles(k: Book, p: int)
    requires Mergeable(k, p)
    ensures NoLoose(Restatus(k, p, Used)) && Consolidated(Restatus(k, p, Used)) && Others(k, p, Restatus(k, p, Used), p)
  {
    var k' := Restatus(k, p, Used);
    forall q {:trigger k'.chunks[q].prev} | q in k'.chunks && q != k'.base && k'.chunks[q].prev in k'.chunks
      ensures k'.chunks[q].st.Used? || k'.chunks[k'.chunks[q].prev].st.Used?
    {
      assert k'.chunks[q].prev == k.chunks[q].prev;
    }
  }

  /** `set_head_size` and the use bit: the whole chunk is in use. */
  lemma UseWhole(m: Memory, k: Book, p: int)
    requires Core(m, k, p) && Mergeable(k, p)
    ensures var m1 := m[p + 4 := k.chunks[p].size + PBit(k, p)];
      var m' := SetInuse(m1, Next(k.chunks, p));
      && Settled(m', Restatus(k, p, Used)) && Keeps(m, m', Without(k, p)) && SameUser(m, p, m', p, k.chunks[p].size)
  {
    hide Shaped, Upward, Downward, Tagged, Linked, Homed, Listed, Distinct, Sorted, Near;
    var m1 := m[p + 4 := k.chunks[p].size + PBit(k, p)];
    HeadStep(m, k, p, p, k.chunks[p].size + PBit(k, p));
    UseBitStep(m1, k, p, Used);
    UseSettles(k, p);
    UseWholeWords(m, k, p, k.chunks[p].size + PBit(k, p));
  }

  lemma UseWholeWords(m: Memory, k: Book, p: int, v: int)
    requires Apart(k) && Upward(k) && p in k.chunks && p != k.top
    ensures var m' := SetInuse(m[p + 4 := v], Next(k.chunks, p));
      Keeps(m, m', Without(k, p)) && SameUser(m, p, m', p, k.chunks[p].size)
  {
    var n := Next(k.chunks, p);
    assert n in k.chunks && n != p && p in k.chunks;
  }

  ghost function CutUse(k: Book, p: int, n: nat): Book
    requires p in k.chunks && 0 < n < k.chunks[p].size
  {
    Restatus(Cut(k, p, n, Used), p + n, Used)
  }

  lemma CutUseChunks(k: Book, p: int, n: nat, r: int)
    requires Apart(k) && Upward(k) && Downward(k) && Mergeable(k, p) && Cuttable(k, p, n, Used)
    ensures var k' := CutUse(k, p, n);
      && (r in k'.chunks <==> r in k.chunks || r == p + n) && p + n !in k.chunks
      && p in k'.chunks && k'.chunks[p].st == Used && k'.chunks[p].size == n
      && p + n in k'.chunks && k'.chunks[p + n].st == Used && k'.chunks[p + n].prev == p && k'.chunks[p + n].size == k.chunks[p].size - n
      && (r in k.chunks && r != p ==> k'.chunks[r].st == k.chunks[r].st && k'.chunks[r].size == k.chunks[r].size)
      && (r in k.chunks && r != k.base ==> k'.chunks[r].prev == if k.chunks[r].prev == p then p + n else k.chunks[r].prev)
      && k'.base == k.base && k'.top == k.top && k'.bins == k.bins
  {
    hide Apart, Upward, Downward, Near;
    CutFresh(k, p, n);
    CutSides(k, p, r);
  }

  lemma CutSides(k: Book, p: int, r: int)
    requires Upward(k) && Downward(k) && p in k.chunks && p != k.top
    ensures Next(k.chunks, p) in k.chunks && k.chunks[Next(k.chunks, p)].prev == p
    ensures r in k.chunks && r != k.base && k.chunks[r].prev == p ==> r == Next(k.chunks, p)
  {
    assert Next(k.chunks, p) in k.chunks;
    if r in k.chunks && r != k.base {
      assert Next(k.chunks, k.chunks[r].prev) == r;
    }
  }

  lemma CutUseSettles(k: Book, p: int, n: nat)
    requires Apart(k) && Upward(k) && Downward(k) && Mergeable(k, p) && Cuttable(k, p, n, Used)
    ensures var k' := CutUse(k, p, n);
      && NoLoose(k') && Consolidated(k') && p + n in k'.chunks && k'.chunks[p + n].st.Used? && p + n !in k.chunks
      && p in k'.chunks && k'.chunks[p].st.Used? && k'.chunks[p].size == n && p != p + n
  {
    hide CutUse, Apart, Upward, Downward;
    var k' := CutUse(k, p, n);
    CutUseChunks(k, p, n, p);
    forall r {:trigger k'.chunks[r]} | r in k'.chunks
      ensures !k'.chunks[r].st.Loose?
    {
      CutUseChunks(k, p, n, r);
    }
    forall r {:trigger k'.chunks[r].prev} | r in k'.chunks && r != k'.base && k'.chunks[r].prev in k'.chunks
      ensures k'.chunks[r].st.Used? || k'.chunks[k'.chunks[r].prev].st.Used?
    {
      CutUseChunks(k, p, n, r);
      CutUseChunks(k, p, n, k'.chunks[r].prev);
    }
  }

  /** Once the cut-off rest has been freed, only p has changed. */
  lemma CutUseOthers(k: Book, p: int, n: nat, k2: Book)
    requires Apart(k) && Upward(k) && Downward(k) && Mergeable(k, p) && Cuttable(k, p, n, Used)
    requires Frees(CutUse(k, p, n), k2, p + n)
    ensures Others(k, p, k2, p) && p in k2.chunks && k2.chunks[p].st.Used? && k2.chunks[p].size == n
  {
    hide CutUse, Apart, Upward, Downward;
    var k1 := CutUse(k, p, n);
    CutUseChunks(k, p, n, p);
    forall q {:trigger k.chunks[q]} | q in k.chunks && k.chunks[q].st.Used? && q != p
      ensures q in k2.chunks && k2.chunks[q].st.Used? && k2.chunks[q].size == k.chunks[q].size
    {
      CutUseChunks(k, p, n, q);
      assert q in k1.chunks && k1.chunks[q].st.Used?;
    }
    forall q {:trigger k2.chunks[q]} | q in k2.chunks && k2.chunks[q].st.Used? && q != p
      ensures q in k.chunks && k.chunks[q].st.Used? && k.chunks[q].size == k2.chunks[q].size
    {
      assert q in k1.chunks && k1.chunks[q].st.Used?;
      CutUseChunks(k, p, n, q);
    }
  }

  /** `set_head_size`, the rest's header, and the use bit above it. */
  function CutUseWrites(m: Memory, p: int, size: int, n: int, bit: int): Memory {
    SetInuse(m[p + 4 := n + bit][p + n + 4 := size - n + 1], p + n + (size - n))
  }

  lemma CutUseStep(m: Memory, k: Book, p: int, n: nat)
    requires Core(m, k, p) && Mergeable(k, p) && Cuttable(k, p, n, Used)
    ensures var m' := CutUseWrites(m, p, k.chunks[p].size, n, PBit(k, p));
      Core(m', CutUse(k, p, n), NONE)
  {
    hide Shaped, Upward, Downward, Tagged, Linked, Homed, Listed, Distinct, Sorted, Near, Apart;
    var m1 := m[p + 4 := n + PBit(k, p)];
    HeadStep(m, k, p, p, n + PBit(k, p));
    CutStep(m1, k, p, n, Used);
    var k1 := Cut(k, p, n, Used);
    PrevBelow(k, p);
    CutUseChunks(k, p, n, p);
    HeadStep(m1, k1, p + n, p + n, k.chunks[p].size - n + 1);
    CutTopStays(k, p, n);
    UseBitStep(m1[p + n + 4 := k.chunks[p].size - n + 1], k1, p + n, Used);
  }

  lemma CutTopStays(k: Book, p: int, n: nat)
    requires Apart(k) && p in k.chunks && p != k.top && 0 < n < k.chunks[p].size
    ensures Cut(k, p, n, Used).top == k.top && p + n != k.top
  {
  }

  lemma CutUseWords(m: Memory, k: Book, p: int, n: nat, bit: int)
    requires Apart(k) && Upward(k) && p in k.chunks && p != k.top && 16 <= n && n + 16 <= k.chunks[p].size
    ensures var m' := CutUseWrites(m, p, k.chunks[p].size, n, bit);
      Keeps(m, m', Without(k, p)) && SameUser(m, p, m', p, n)
  {
    assert Next(k.chunks, p) in k.chunks && p in k.chunks;
  }

  // ---- growing into top ----

  /** After the merge with `top`, p takes n bytes and the rest is `top` again. */
  lemma CutTopStep(m: Memory, k: Book, p: int, n: nat)
    requires Core(m, k, p) && Near(k, p) && p == k.top && p in k.chunks && k.chunks[p].st.Top? && Cuttable(k, p, n, Used)
    ensures var m' := m[p + n + 4 := k.chunks[p].size - n + 1][p + 4 := n + PBit(k, p)];
      var k' := Cut(k, p, n, Used);
      && Settled(m', k') && Next(k'.chunks, k'.top) == Next(k.chunks, p) && k'.top == p + n && k'.top in k'.chunks
      && Frees(k', k, p) && p in k'.chunks && k'.chunks[p].st.Used? && k'.chunks[p].size == n && k'.bins == k.bins
      && Keeps(m, m', k) && SameUser(m, p, m', p, n)
  {
    hide Shaped, Tagged, Linked, Homed, Listed, Distinct, Sorted, Near, Upward, Downward, Frees;
    var m1 := m[p + 4 := n + PBit(k, p)];
    var k' := Cut(k, p, n, Used);
    HeadStep(m, k, p, p, n + PBit(k, p));
    CutStep(m1, k, p, n, Used);
    PrevBelow(k, p);
    CutFresh(k, p, n);
    HeadStep(m1, k', p + n, p + n, k.chunks[p].size - n + 1);
    assert m1[p + n + 4 := k.chunks[p].size - n + 1] == m[p + n + 4 := k.chunks[p].size - n + 1][p + 4 := n + PBit(k, p)];
    CutTopNear(k, n);
    CutTopWords(m, k, n, PBit(k, p));
  }

  lemma CutTopNear(k: Book, n: nat)
    requires k.top in k.chunks && k.chunks[k.top].st.Top? && Near(k, k.top) && 0 < n < k.chunks[k.top].size
    requires Downward(k) && k.top + n !in k.chunks && (k.top != k.base ==> k.chunks[k.top].prev < k.top)
    ensures var k' := Cut(k, k.top, n, Used);
      NoLoose(k') && Consolidated(k') && Frees(k', k, k.top)
  {
  }

  lemma CutTopWords(m: Memory, k: Book, n: nat, bit: int)
    requires Apart(k) && k.chunks[k.top].st.Top? && 16 <= n && n + 16 <= k.chunks[k.top].size
    ensures var m' := m[k.top + n + 4 := k.chunks[k.top].size - n + 1][k.top + 4 := n + bit];
      Keeps(m, m', k) && SameUser(m, k.top, m', k.top, n)
  {
  }

  /** Out of use and back: only p differs. */
  lemma FreedAndUsed(k0: Book, p0: int, k1: Book, p: int, k2: Book, k3: Book)
    requires Others(k0, p0, k1, p) && Frees(k1, k2, p) && Frees(k3, k2, p)
    requires p in k3.chunks && k3.chunks[p].st.Used?
    ensures Others(k0, p0, k3, p)
  {
  }

  lemma OthersSelf(k: Book, p: int)
    ensures Others(k, p, k, p)
  {
  }

  // ---- merging two blocks in use ----

  lemma JoinUsedChunks(k: Book, p: int, q: int, r: int)
    requires Apart(k) && Upward(k) && Downward(k) && p in k.chunks && p != k.top && q == Next(k.chunks, p)
    requires q in k.chunks && q != k.top && k.chunks[p].st.Used? && k.chunks[q].st.Used?
    ensures q != p
    ensures var k' := Join(k, p);
      && (r in k'.chunks <==> r in k.chunks && r != q)
      && k'.base == k.base && k'.top == k.top && k'.bins == k.bins
      && p in k'.chunks && k'.chunks[p] == Chunk(k.chunks[p].size + k.chunks[q].size, k.chunks[p].prev, Used)
      && (r in k.chunks && r != p && r != q ==>
            && k'.chunks[r].st == k.chunks[r].st && k'.chunks[r].size == k.chunks[r].size
            && (r != k.base ==> k'.chunks[r].prev == if k.chunks[r].prev == q then p else k.chunks[r].prev))
  {
    hide Apart, Upward, Downward, Join;
    JoinSides(k, p, r);
    JoinChunks(k, p, q, Next(k.chunks, q), r);
    JoinKeepsBins(k, p);
  }

  lemma JoinUsedNear(k: Book, p: int, q: int)
    requires Apart(k) && Upward(k) && Downward(k) && p in k.chunks && p != k.top && q == Next(k.chunks, p)
    requires q in k.chunks && q != k.top && k.chunks[p].st.Used? && k.chunks[q].st.Used?
    requires Near(k, p) && (p != k.base ==> k.chunks[p].prev < p)
    ensures Near(Join(k, p), p) && PBit(Join(k, p), p) == PBit(k, p)
  {
    hide Join;
    JoinUsedChunks(k, p, q, p);
    var k' := Join(k, p);
    forall r {:trigger k'.chunks[r]} | r in k'.chunks && k'.chunks[r].st.Loose?
      ensures r == p
    {
      JoinUsedChunks(k, p, q, r);
    }
    forall r {:trigger k'.chunks[r].prev} | r in k'.chunks && r != k'.base && k'.chunks[r].prev in k'.chunks
        && r != p && k'.chunks[r].prev != p
      ensures k'.chunks[r].st.Used? || k'.chunks[k'.chunks[r].prev].st.Used?
    {
      JoinUsedChunks(k, p, q, r);
      JoinUsedChunks(k, p, q, k'.chunks[r].prev);
    }
    if p != k.base {
      assert k.chunks[p].prev in k.chunks;
      JoinUsedChunks(k, p, q, k.chunks[p].prev);
    }
  }

  /** malloc found its chunk right above the old block: the two are one. */
  lemma JoinUsedOthers(k0: Book, k1: Book, p: int, q: int, n: nat)
    requires Apart(k1) && Upward(k1) && Downward(k1) && p in k1.chunks && p != k1.top && q == Next(k1.chunks, p)
    requires q in k1.chunks && q != k1.top && k1.chunks[p].st.Used? && Grants(k0, k1, q, n)
    requires p in k0.chunks && k0.chunks[p].st.Used?
    ensures Others(k0, p, Join(k1, p), p)
  {
    hide Join;
    var k' := Join(k1, p);
    JoinUsedChunks(k1, p, q, p);
    forall r {:trigger k0.chunks[r]} | r in k0.chunks && k0.chunks[r].st.Used? && r != p
      ensures r in k'.chunks && k'.chunks[r].st.Used? && k'.chunks[r].size == k0.chunks[r].size
    {
      JoinUsedChunks(k1, p, q, r);
    }
    forall r {:trigger k'.chunks[r]} | r in k'.chunks && k'.chunks[r].st.Used? && r != p
      ensures r in k0.chunks && k0.chunks[r].st.Used? && k0.chunks[r].size == k'.chunks[r].size
    {
      JoinUsedChunks(k1, p, q, r);
      assert r in k1.chunks && k1.chunks[r].st.Used?;
    }
  }

  // ---- copying ----

  /** The inside of a chunk that is on no list holds no allocator word. */
  lemma SpareInterior(k: Book, x: int, p: int, a: int)
    requires Apart(k) && p in k.chunks && !k.chunks[p].st.Free? && p + 8 <= a < p + k.chunks[p].size
    ensures Spare(k, x, a)
  {
  }

  /** `unlink` leaves headers and feet alone. */
  lemma UnlinkHead(m: Memory, k: Book, x: int, n: int, b: nat, i: nat, q: int)
    requires Core(m, k, x) && IsFiled(k, n, b, i) && q in k.chunks
    ensures Head(Unlink(m, n), q) == Head(m, q) && PrevSize(Unlink(m, n), q) == PrevSize(m, q)
  {
    hide Tagged, Linked, Homed, Listed, Distinct, Sorted, Upward, Downward;
    LinksOf(m, k, n, b, i);
  }

  ghost function CopyWord(m: Memory, p: int, i: int): int {
    Rd(m, p + 8 + 4 * i)
  }

  /** The first n words of the user part at p are those of the one at p0. */
  ghost predicate Copied(m0: Memory, p0: int, m: Memory, p: int, n: int) {
    forall i {:trigger CopyWord(m, p, i)} :: 0 <= i < n ==> CopyWord(m, p, i) == CopyWord(m0, p0, i)
  }

  ghost predicate OnlyWithin(m: Memory, m': Memory, lo: int, hi: int) {
    forall a {:trigger Rd(m', a)} :: a < lo || hi <= a ==> Rd(m', a) == Rd(m, a)
  }

  lemma DividesEvenly(n: int)
    ensures 4 * n / 4 == n
  {
  }

  lemma CopyWords(size: nat)
    requires LegalSize(size)
    ensures 4 * ((size - SIZE_SZ) / 4) + 4 == size
  {
    var q := size / ALIGNMENT;
    assert size - SIZE_SZ == 4 * (2 * q - 1);
    DividesEvenly(2 * q - 1);
  }

  /** Words inside p are no other block's. */
  lemma InteriorKeeps(m: Memory, m': Memory, k: Book, p: int, hi: int)
    requires Apart(k) && p in k.chunks && OnlyWithin(m, m', p + 8, hi) && hi <= p + k.chunks[p].size
    ensures Keeps(m, m', Without(k, p)) && Head(m', p) == Head(m, p)
  {
  }

  /** The copied words, read as user parts. */
  lemma CopiedUser(m0: Memory, p0: int, m: Memory, p: int, m': Memory, n: nat)
    requires Copied(m, p0, m', p, n) && SameUser(m0, p0, m, p0, 4 * n + 4)
    ensures SameUser(m0, p0, m', p, 4 * n + 4)
  {
    forall o {:trigger UserAt(m', p, o)} | 8 <= o < 4 * n + 8 && o % 4 == 0
      ensures UserAt(m', p, o) == UserAt(m0, p0, o)
    {
      var i := (o - 8) / 4;
      assert o == 8 + 4 * i;
      assert CopyWord(m', p, i) == CopyWord(m, p0, i);
      assert UserAt(m, p0, o) == UserAt(m0, p0, o);
    }
  }

  lemma SameUserShorter(m0: Memory, p0: int, m: Memory, p: int, n: int, n': int)
    requires SameUser(m0, p0, m, p, n) && n' <= n
    ensures SameUser(m0, p0, m, p, n')
  {
  }
}
