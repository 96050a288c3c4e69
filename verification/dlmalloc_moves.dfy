/** The whole moves of the allocator: taking a free chunk, splitting one, filing the last
    remainder, and carving `top`.  Each keeps the invariants that hold between calls. */
module DlMoves {
  import opened DlSizes
  import opened DlBook
  import opened DlLists
  import opened DlChunks

  /** Between calls: the memory agrees with the book, no chunk is off its list, and no two
      free chunks touch. */
  ghost predicate Settled(m: Memory, k: Book) {
    Core(m, k, NONE) && NoLoose(k) && Consolidated(k)
  }

  lemma SettledParts(m: Memory, k: Book)
    requires Settled(m, k)
    ensures Core(m, k, NONE) && Tiled(k) && Shaped(k) && Apart(k) && Upward(k) && Downward(k) && Filed(k) && Tagged(m, k, NONE)
    ensures NoLoose(k) && Consolidated(k)
  {
  }

  /** Chunk p is new in use, cut to fit n bytes within MINSIZE, its lower neighbour is in use,
      and every other block is as before. */
  ghost predicate Grants(k: Book, k': Book, p: int, n: nat) {
    && p in k'.chunks && k'.chunks[p].st.Used? && n <= k'.chunks[p].size < n + MINSIZE
    && PBit(k', p) == 1
    && !(p in k.chunks && k.chunks[p].st.Used?)
    && UsedIn(k, k')
    && (forall q {:trigger k'.chunks[q]} :: q in k'.chunks && k'.chunks[q].st.Used? ==>
          q == p || (q in k.chunks && k.chunks[q].st.Used?))
  }

  /** `link_last_remainder` */
  function LinkLast(m: Memory, r: int): Memory {
    var h := BinAt(1);
    m[h + 12 := r][h + 8 := r][r + 12 := h][r + 8 := h]
  }

  /** `clear_last_remainder` */
  function ClearLast(m: Memory): Memory {
    var h := BinAt(1);
    m[h + 12 := h][h + 8 := h]
  }

  ghost predicate SameWords(m: Memory, m': Memory) {
    forall a {:trigger Rd(m', a)} :: Rd(m', a) == Rd(m, a)
  }

  lemma CoreCongruence(m: Memory, m': Memory, k: Book, x: int)
    requires Core(m, k, x) && SameWords(m, m')
    ensures Core(m', k, x)
  {
    forall p {:trigger Head(m', p)} | p in k.chunks && p != x
      ensures Head(m', p) == k.chunks[p].size + PBit(k, p)
    {
      assert Head(m, p) == k.chunks[p].size + PBit(k, p);
    }
    forall b {:trigger k.bins[b]} | 1 <= b < NAV
      ensures Ring(m', BinAt(b), k.bins[b])
    {
      assert Ring(m, BinAt(b), k.bins[b]);
      RingFrame(m, m', BinAt(b), k.bins[b]);
    }
  }

  /** The neighbours of a free chunk between calls. */
  lemma FreeNeighbours(m: Memory, k: Book, p: int)
    requires Settled(m, k) && p in k.chunks && k.chunks[p].st.Free?
    ensures p != k.top && PBit(k, p) == 1
    ensures Next(k.chunks, p) in k.chunks && k.chunks[Next(k.chunks, p)].st.Used?
  {
    var n := Next(k.chunks, p);
    assert p != k.top;
    assert n in k.chunks && k.chunks[n].prev == p;
    BaseHasNoPrev(k, p);
    if p != k.base {
      assert k.chunks[p].prev in k.chunks;
    }
  }

  // ---- take ----

  ghost function Taken(k: Book, p: int, b: nat, i: nat): Book
    requires IsFiled(k, p, b, i)
  {
    Restatus(Detach(k, p, b, i), p, Used)
  }

  lemma TakenSettled(k: Book, p: int, b: nat, i: nat)
    requires NoLoose(k) && Consolidated(k) && IsFiled(k, p, b, i)
    ensures NoLoose(Taken(k, p, b, i)) && Consolidated(Taken(k, p, b, i))
  {
    var k' := Taken(k, p, b, i);
    forall q {:trigger k'.chunks[q].prev} | q in k'.chunks && q != k'.base && k'.chunks[q].prev in k'.chunks
      ensures k'.chunks[q].st.Used? || k'.chunks[k'.chunks[q].prev].st.Used?
    {
      assert k'.chunks[q].prev == k.chunks[q].prev;
    }
  }

  lemma TakenGrants(k: Book, p: int, b: nat, i: nat, n: nat)
    requires IsFiled(k, p, b, i) && k.chunks[p].st.Free? && PBit(k, p) == 1 && n <= k.chunks[p].size < n + MINSIZE
    requires p != k.base ==> k.chunks[p].prev != p
    ensures Grants(k, Taken(k, p, b, i), p, n)
  {
  }

  /** Unlinking a chunk and setting its use bit hands it out whole. */
  lemma TakeStep(m: Memory, m': Memory, k: Book, p: int, b: nat, i: nat, n: nat)
    requires Settled(m, k) && IsFiled(k, p, b, i) && n <= k.chunks[p].size < n + MINSIZE
    requires Next(k.chunks, p) in k.chunks ==> SameWords(SetInuse(Unlink(m, p), Next(k.chunks, p)), m')
    ensures Settled(m', Taken(k, p, b, i)) && Grants(k, Taken(k, p, b, i), p, n) && Keeps(m, m', k)
  {
    var k1, m1 := Detach(k, p, b, i), Unlink(m, p);
    assert k.chunks[p].st == Free(b);
    FreeNeighbours(m, k, p);
    UnlinkStep(m, k, NONE, p, b, i);
    UseBitStep(m1, k1, p, Used);
    var m2 := SetInuse(m1, Next(k1.chunks, p));
    KeepsTrans(m, m1, m2, k, k1);
    CoreCongruence(m2, m', Taken(k, p, b, i), NONE);
    TakenSettled(k, p, b, i);
    PrevBelow(k, p);
    TakenGrants(k, p, b, i, n);
  }

  lemma PrevBelow(k: Book, p: int)
    requires Apart(k) && Downward(k) && p in k.chunks
    ensures p != k.base ==> k.chunks[p].prev < p
  {
  }

  // ---- split ----

  lemma CutHeads(m: Memory, k: Book, p: int, n: nat)
    requires Core(m, k, NONE) && Cuttable(k, p, n, Used) && PBit(k, p) == 1
    ensures Core(m[p + 4 := n + 1][p + n + 4 := k.chunks[p].size - n + 1], Cut(k, p, n, Used), NONE)
  {
    hide Shaped, Apart, Upward, Downward, Tagged, Linked, Homed, Listed, Distinct, Sorted, Keeps, UsedIn;
    HeadStep(m, k, NONE, p, n + 1);
    CutStep(m[p + 4 := n + 1], k, p, n, Used);
    PrevBelow(k, p);
    HeadStep(m[p + 4 := n + 1], Cut(k, p, n, Used), p + n, p + n, k.chunks[p].size - n + 1);
  }

  /** Loose chunk p with all list words settled: write both headers and the foot. */
  lemma CutWrites(m: Memory, k: Book, p: int, n: nat)
    requires Core(m, k, NONE) && Cuttable(k, p, n, Used) && k.chunks[p].st.Loose? && PBit(k, p) == 1 && p != k.top
    ensures var r, rs := p + n, k.chunks[p].size - n;
      var m' := m[p + 4 := n + 1][r + 4 := rs + 1][r + rs := rs];
      Core(m', Cut(k, p, n, Used), NONE) && Keeps(m, m', k) && PrevSize(m', r + rs) == rs
  {
    hide Shaped, Apart, Upward, Downward, Tagged, Linked, Homed, Listed, Distinct, Sorted, Keeps, UsedIn;
    CutHeads(m, k, p, n);
    CutFresh(k, p, n);
    var k' := Cut(k, p, n, Used);
    SpareFoot(k', p + n);
    SpareWrite(m[p + 4 := n + 1][p + n + 4 := k.chunks[p].size - n + 1], k', NONE, p + k.chunks[p].size, k.chunks[p].size - n);
    CutWritesKeep(m, k, p, n);
  }

  lemma CutWritesKeep(m: Memory, k: Book, p: int, n: nat)
    requires Apart(k) && Cuttable(k, p, n, Used) && k.chunks[p].st.Loose?
    ensures var r, rs := p + n, k.chunks[p].size - n;
      Keeps(m, m[p + 4 := n + 1][r + 4 := rs + 1][r + rs := rs], k)
  {
  }

  /** The foot of a loose chunk is nobody else's word. */
  lemma SpareFoot(k: Book, r: int)
    requires Apart(k) && r in k.chunks && k.chunks[r].st.Loose?
    ensures Spare(k, NONE, r + k.chunks[r].size)
  {
    var a := r + k.chunks[r].size;
    forall p {:trigger p in k.chunks} | p in k.chunks
      ensures a != p + 4
      ensures k.chunks[p].st.Free? ==> a != p + 8 && a != p + 12 && a != p + k.chunks[p].size
    {
    }
  }

  /** Chunk p off its list, cut at n, the rest filed as last remainder. */
  ghost function SplitBook(k: Book, p: int, b: nat, i: nat, n: nat): Book
    requires IsFiled(k, p, b, i) && LegalSize(n) && n + MINSIZE <= k.chunks[p].size
    requires Belongs(Cut(Detach(k, p, b, i), p, n, Used), p + n, 1, 0)
  {
    Attach(Cut(Detach(k, p, b, i), p, n, Used), p + n, 1, 0)
  }

  ghost predicate Splittable(k: Book, p: int, b: nat, i: nat, n: nat) {
    && Apart(k) && Filed(k) && IsFiled(k, p, b, i) && LegalSize(n) && n + MINSIZE <= k.chunks[p].size
    && (b == 1 || k.bins[1] == [])
  }

  lemma SplitBelongs(k: Book, p: int, b: nat, i: nat, n: nat)
    requires Splittable(k, p, b, i, n)
    ensures Cuttable(Detach(k, p, b, i), p, n, Used)
    ensures Filed(Detach(k, p, b, i))
    ensures Filed(Cut(Detach(k, p, b, i), p, n, Used))
    ensures Belongs(Cut(Detach(k, p, b, i), p, n, Used), p + n, 1, 0)
  {
    var k1 := Detach(k, p, b, i);
    DetachHomed(k, p, b, i);
    DetachListed(k, p, b, i);
    DetachSorted(k, p, b, i);
    CutFresh(k, p, n);
    CutFiled(k1, p, n, Used);
    assert b == 1 ==> k1.bins[1] == [];
  }

  /** The chunks of a split: p, the rest r above it, and everything else as it was. */
  lemma SplitChunks(k: Book, p: int, b: nat, i: nat, n: nat, q: int)
    requires Splittable(k, p, b, i, n)
    requires Belongs(Cut(Detach(k, p, b, i), p, n, Used), p + n, 1, 0)
    ensures var k' := SplitBook(k, p, b, i, n);
      && (q in k'.chunks <==> q in k.chunks || q == p + n) && p + n !in k.chunks
      && p in k'.chunks && k'.chunks[p].st == Used && k'.chunks[p].size == n && k'.chunks[p].prev == k.chunks[p].prev
      && p + n in k'.chunks && k'.chunks[p + n].st == Free(1) && k'.chunks[p + n].prev == p
      && k'.chunks[p + n].size == k.chunks[p].size - n
      && (q in k.chunks && q != p ==>
            && k'.chunks[q].st == k.chunks[q].st && k'.chunks[q].size == k.chunks[q].size
            && k'.chunks[q].prev == if p != k.top && q == Next(k.chunks, p) then p + n else k.chunks[q].prev)
      && k'.base == k.base && (p != k.top ==> k'.top == k.top)
  {
    CutFresh(k, p, n);
  }

  lemma SplitSettled(k: Book, p: int, b: nat, i: nat, n: nat)
    requires Splittable(k, p, b, i, n)
    requires Belongs(Cut(Detach(k, p, b, i), p, n, Used), p + n, 1, 0)
    requires NoLoose(k) && Consolidated(k) && Upward(k) && Downward(k) && p != k.top
    requires Next(k.chunks, p) in k.chunks && k.chunks[Next(k.chunks, p)].st.Used?
    ensures NoLoose(SplitBook(k, p, b, i, n)) && Consolidated(SplitBook(k, p, b, i, n))
  {
    hide Detach, Cut, Attach, Filed, Belongs, Cuttable;
    var k' := SplitBook(k, p, b, i, n);
    forall q {:trigger k'.chunks[q]} | q in k'.chunks
      ensures !k'.chunks[q].st.Loose?
    {
      SplitChunks(k, p, b, i, n, q);
    }
    forall q {:trigger k'.chunks[q].prev} | q in k'.chunks && q != k'.base && k'.chunks[q].prev in k'.chunks
      ensures k'.chunks[q].st.Used? || k'.chunks[k'.chunks[q].prev].st.Used?
    {
      SplitChunks(k, p, b, i, n, q);
      SplitChunks(k, p, b, i, n, k'.chunks[q].prev);
      if q != p + n {
        assert k.chunks[q].prev in k.chunks;
      }
    }
  }

  lemma SplitGrants(k: Book, p: int, b: nat, i: nat, n: nat)
    requires Splittable(k, p, b, i, n)
    requires Belongs(Cut(Detach(k, p, b, i), p, n, Used), p + n, 1, 0)
    requires p != k.top && k.chunks[p].st.Free? && PBit(k, p) == 1 && (p != k.base ==> k.chunks[p].prev < p)
    ensures Grants(k, SplitBook(k, p, b, i, n), p, n)
  {
    hide Detach, Cut, Attach, Filed, Belongs, Cuttable;
    var k' := SplitBook(k, p, b, i, n);
    SplitChunks(k, p, b, i, n, p);
    if p != k.base {
      SplitChunks(k, p, b, i, n, k.chunks[p].prev);
    }
    forall q {:trigger k.chunks[q]} | q in k.chunks && k.chunks[q].st.Used?
      ensures q in k'.chunks && k'.chunks[q].st.Used? && k'.chunks[q].size == k.chunks[q].size
    {
      SplitChunks(k, p, b, i, n, q);
    }
    forall q {:trigger k'.chunks[q]} | q in k'.chunks && k'.chunks[q].st.Used?
      ensures q == p || (q in k.chunks && k.chunks[q].st.Used?)
    {
      SplitChunks(k, p, b, i, n, q);
    }
  }

  /** The words a split writes once p is off its list, but for the links of the rest. */
  function SplitTags(m: Memory, p: int, size: int, n: int): Memory {
    m[p + 4 := n + 1][p + n + 4 := size - n + 1][p + n + (size - n) := size - n]
  }

  lemma SplitCore(m: Memory, m': Memory, k: Book, p: int, b: nat, i: nat, n: nat)
    requires Settled(m, k) && Splittable(k, p, b, i, n)
    requires Belongs(Cut(Detach(k, p, b, i), p, n, Used), p + n, 1, 0)
    requires Cuttable(Detach(k, p, b, i), p, n, Used)
    requires PBit(k, p) == 1 && p != k.top && (p != k.base ==> k.chunks[p].prev != p)
    requires Spliced(SplitTags(Unlink(m, p), p, k.chunks[p].size, n), m', p + n, BinAt(1), BinAt(1))
    ensures Core(m', SplitBook(k, p, b, i, n), NONE) && Keeps(m, m', k)
  {
    hide Shaped, Apart, Upward, Downward, Tagged, Linked, Homed, Listed, Distinct, Sorted, Keeps, UsedIn, NoLoose, Consolidated;
    hide Spliced, Unlink, Cuttable;
    var k1, m1 := Detach(k, p, b, i), Unlink(m, p);
    UnlinkStep(m, k, NONE, p, b, i);
    assert PBit(k1, p) == 1;
    assert k1.chunks[p].st.Loose? && k1.chunks[p].size == k.chunks[p].size;
    CutWrites(m1, k1, p, n);
    var k2, m2 := Cut(k1, p, n, Used), SplitTags(m1, p, k.chunks[p].size, n);
    KeepsTrans(m, m1, m2, k, k1);
    assert k2.bins[1] == [];
    LinkStep(m2, m', k2, NONE, p + n, 1, 0);
    CutFresh(k, p, n);
    CutUsed(k1, p, n);
    KeepsTrans(m1, m2, m', k1, k2);
    KeepsTrans(m, m1, m', k, k1);
  }

  lemma CutUsed(k: Book, p: int, n: nat)
    requires Cuttable(k, p, n, Used) && k.chunks[p].st.Loose? && p + n !in k.chunks
    ensures UsedIn(k, Cut(k, p, n, Used))
  {
  }

  /** Cutting a listed chunk hands out its front and leaves the rest as last remainder. */
  lemma SplitStep(m: Memory, m': Memory, k: Book, p: int, b: nat, i: nat, n: nat)
    requires Settled(m, k) && Splittable(k, p, b, i, n)
    requires Spliced(SplitTags(Unlink(m, p), p, k.chunks[p].size, n), m', p + n, BinAt(1), BinAt(1))
    ensures Belongs(Cut(Detach(k, p, b, i), p, n, Used), p + n, 1, 0)
    ensures Settled(m', SplitBook(k, p, b, i, n)) && Grants(k, SplitBook(k, p, b, i, n), p, n) && Keeps(m, m', k)
  {
    hide Shaped, Tagged, Linked, Homed, Distinct, Sorted, Keeps, UsedIn, NoLoose, Consolidated;
    hide Belongs, Spliced, Unlink, Cuttable, Upward, Downward, Grants, Apart;
    assert k.chunks[p].st == Free(b) by {
      assert k.bins[b][i] == p;
    }
    FreeNeighbours(m, k, p);
    PrevBelow(k, p);
    SplitBelongs(k, p, b, i, n);
    SplitCore(m, m', k, p, b, i, n);
    SplitSettled(k, p, b, i, n);
    SplitGrants(k, p, b, i, n);
  }

  /** The order in which malloc writes the words of a split makes no difference. */
  lemma SplitWords(m: Memory, k: Book, p: int, b: nat, i: nat, n: nat)
    requires Settled(m, k) && Splittable(k, p, b, i, n) && 2 <= b
    ensures var size := k.chunks[p].size;
      var m' := LinkLast(Unlink(m[p + 4 := n + 1], p), p + n)[p + n + 4 := size - n + 1][p + n + (size - n) := size - n];
      Spliced(SplitTags(Unlink(m, p), p, size, n), m', p + n, BinAt(1), BinAt(1))
  {
    hide Shaped, Upward, Downward, Tagged, Linked, Homed, Listed, Distinct, Sorted, NoLoose, Consolidated;
    LinksOf(m, k, p, b, i);
    assert k.chunks[p].st.Free?;
    FreeNeighbours(m, k, p);
    assert Next(k.chunks, p) in k.chunks;
    assert 0 <= p;
    SplitWordsAt(m, k, p, k.chunks[p].size, n);
  }

  /** Address a is not a link of the places unlink and the new last remainder touch. */
  ghost predicate Clear(a: int, r: int, bck: int, fwd: int) {
    && a != bck + 8 && a != fwd + 12 && a != r + 8 && a != r + 12 && a != BinAt(1) + 8 && a != BinAt(1) + 12
  }

  lemma SplitWordsAt(m: Memory, k: Book, p: int, size: nat, n: nat)
    requires Apart(k) && p in k.chunks && k.chunks[p].size == size && 16 <= n <= size - 16 && p + size in k.chunks
    requires LinkSite(k, Fd(m, p)) && LinkSite(k, Bk(m, p))
    ensures var m' := LinkLast(Unlink(m[p + 4 := n + 1], p), p + n)[p + n + 4 := size - n + 1][p + n + (size - n) := size - n];
      Spliced(SplitTags(Unlink(m, p), p, size, n), m', p + n, BinAt(1), BinAt(1))
  {
    var r, bck, fwd := p + n, Bk(m, p), Fd(m, p);
    assert Clear(p + 4, r, bck, fwd) && Clear(r + 4, r, bck, fwd) && Clear(p + size, r, bck, fwd);
    hide Apart, LinkSite;
    SplitWordsCalm(m, p, size, n, bck, fwd);
  }

  lemma SplitWordsCalm(m: Memory, p: int, size: nat, n: nat, bck: int, fwd: int)
    requires 0 <= p && 16 <= n <= size - 16 && bck == Bk(m, p) && fwd == Fd(m, p)
    requires Clear(p + 4, p + n, bck, fwd) && Clear(p + n + 4, p + n, bck, fwd) && Clear(p + size, p + n, bck, fwd)
    ensures var m' := LinkLast(Unlink(m[p + 4 := n + 1], p), p + n)[p + n + 4 := size - n + 1][p + n + (size - n) := size - n];
      Spliced(SplitTags(Unlink(m, p), p, size, n), m', p + n, BinAt(1), BinAt(1))
  {
    var m1 := m[p + 4 := n + 1];
    assert Bk(m1, p) == bck && Fd(m1, p) == fwd;
    var u, u1 := Unlink(m, p), Unlink(m1, p);
    assert forall a {:trigger Rd(u1, a)} :: Rd(u1, a) == if a == p + 4 then n + 1 else Rd(u, a);
  }

  lemma ResplitWords(m: Memory, k: Book, p: int, n: nat)
    requires Settled(m, k) && Splittable(k, p, 1, 0, n)
    ensures var size := k.chunks[p].size;
      var m' := LinkLast(m[p + 4 := n + 1], p + n)[p + n + 4 := size - n + 1][p + n + (size - n) := size - n];
      Spliced(SplitTags(Unlink(m, p), p, size, n), m', p + n, BinAt(1), BinAt(1))
  {
    LinksOf(m, k, p, 1, 0);
    assert p in k.chunks;
  }

  // ---- top ----

  /** `top` gives its first n bytes. */
  lemma TopStep(m: Memory, k: Book, n: nat)
    requires Settled(m, k) && LegalSize(n) && n + MINSIZE <= k.chunks[k.top].size
    ensures var m' := m[k.top + 4 := n + 1][k.top + n + 4 := k.chunks[k.top].size - n + 1];
      && Settled(m', Cut(k, k.top, n, Used)) && Grants(k, Cut(k, k.top, n, Used), k.top, n) && Keeps(m, m', k)
  {
    TopNeighbour(m, k);
    PrevBelow(k, k.top);
    CutFresh(k, k.top, n);
    TopCutKeeps(m, k, n);
    CutHeads(m, k, k.top, n);
    TopCutSettled(k, n);
    TopCutGrants(k, n);
  }

  lemma TopCutKeeps(m: Memory, k: Book, n: nat)
    requires Apart(k) && 0 < n < k.chunks[k.top].size && k.chunks[k.top].st.Top?
    ensures Keeps(m, m[k.top + 4 := n + 1][k.top + n + 4 := k.chunks[k.top].size - n + 1], k)
  {
  }

  lemma TopNeighbour(m: Memory, k: Book)
    requires Settled(m, k)
    ensures k.top in k.chunks && k.chunks[k.top].st.Top? && PBit(k, k.top) == 1
  {
    hide Tagged, Linked, Filed, NoLoose, Upward;
    assert k.top in k.chunks;
    if k.top != k.base {
      assert k.chunks[k.top].prev in k.chunks;
    }
  }

  lemma TopCutSettled(k: Book, n: nat)
    requires k.top in k.chunks && NoLoose(k) && Consolidated(k) && 0 < n < k.chunks[k.top].size && PBit(k, k.top) == 1
    requires Downward(k) && k.chunks[k.top].st.Top? && k.top + n !in k.chunks
    ensures NoLoose(Cut(k, k.top, n, Used)) && Consolidated(Cut(k, k.top, n, Used))
  {
  }

  lemma TopCutGrants(k: Book, n: nat)
    requires k.top in k.chunks && 0 < n < k.chunks[k.top].size && PBit(k, k.top) == 1
    requires k.chunks[k.top].st.Top? && k.top + n !in k.chunks && (k.top != k.base ==> k.chunks[k.top].prev < k.top)
    ensures Grants(k, Cut(k, k.top, n, Used), k.top, n)
  {
  }
}
