/** The allocator's own debug checks (`do_check_chunk` and its relatives), read off the memory
    alone, and the proof that the invariants kept between calls make all of them pass. */
module DlChecks {
  import opened DlSizes
  import opened DlBook
  import opened DlLists
  import opened DlChunks
  import opened DlMoves
  import opened DlFrees

  /** The globals the checks look at: `top`, `sbrk_base`, and the end of the region obtained. */
  datatype Globals = Globals(top: int, sbrkBase: int, end: int)

  /** `inuse(p)` */
  predicate Inuse(m: Memory, p: int) {
    PrevInuse(m, p + HeadSize(m, p))
  }

  predicate CheckChunk(m: Memory, g: Globals, p: int) {
    var sz := HeadSize(m, p);
    && Head(m, p) / 2 % 2 == 0
    && g.sbrkBase <= p
    && (if p != g.top then p + sz <= g.top else p + sz <= g.end)
  }

  predicate CheckFreeChunk(m: Memory, g: Globals, p: int) {
    var sz := HeadSize(m, p);
    var next := p + sz;
    && CheckChunk(m, g, p)
    && !Inuse(m, p)
    && (if MINSIZE <= sz then
          && sz % ALIGNMENT == 0 && (p + 2 * SIZE_SZ) % ALIGNMENT == 0
          && PrevSize(m, next) == sz
          && PrevInuse(m, p)
          && (next == g.top || Inuse(m, next))
          && Bk(m, Fd(m, p)) == p && Fd(m, Bk(m, p)) == p
        else sz == SIZE_SZ)
  }

  predicate CheckInuseChunk(m: Memory, g: Globals, p: int) {
    var next := p + HeadSize(m, p);
    && CheckChunk(m, g, p)
    && Inuse(m, p)
    && (!PrevInuse(m, p) ==>
          var prv := p - PrevSize(m, p);
          prv + HeadSize(m, prv) == p && CheckFreeChunk(m, g, prv))
    && (if next == g.top then PrevInuse(m, next) && MINSIZE <= ChunkSize(m, next)
        else !Inuse(m, next) ==> CheckFreeChunk(m, g, next))
  }

  predicate CheckMallocedChunk(m: Memory, g: Globals, p: int, s: int) {
    var sz := HeadSize(m, p);
    && CheckInuseChunk(m, g, p)
    && MINSIZE <= sz && sz % ALIGNMENT == 0
    && 0 <= sz - s < MINSIZE
    && (p + 2 * SIZE_SZ) % ALIGNMENT == 0
    && PrevInuse(m, p)
  }

  ghost predicate GlobalsAgree(k: Book, g: Globals) {
    g.top == k.top && g.sbrkBase <= k.base && k.top in k.chunks && g.end == Next(k.chunks, k.top)
  }

  lemma NotMmapped(s: nat, bit: int)
    requires s % ALIGNMENT == 0 && 0 <= bit <= 1
    ensures (s + bit) / 2 % 2 == 0
  {
    var t := s / ALIGNMENT;
    assert (s + bit) / 2 == 4 * t;
  }

  lemma ChunkChecks(m: Memory, k: Book, g: Globals, p: int)
    requires Settled(m, k) && GlobalsAgree(k, g) && p in k.chunks
    ensures CheckChunk(m, g, p) && HeadSize(m, p) == ChunkSize(m, p) == k.chunks[p].size
    ensures p != k.top ==> Next(k.chunks, p) in k.chunks && (Inuse(m, p) <==> k.chunks[p].st.Used?)
    ensures LegalSize(k.chunks[p].size) && (p + 8) % ALIGNMENT == 0
  {
    hide Linked, Filed, Consolidated, NoLoose;
    ShapeOf(k, p);
    hide Shaped, Apart, Upward, Downward, Tagged, LegalSize;
    HeadReads(m, k, NONE, p);
    NotMmapped(k.chunks[p].size, PBit(k, p));
    if p != k.top {
      var n := Next(k.chunks, p);
      AboveOf(k, p);
      HeadReads(m, k, NONE, n);
    }
  }

  lemma ShapeOf(k: Book, p: int)
    requires Tiled(k) && p in k.chunks
    ensures LegalSize(k.chunks[p].size) && (p + 8) % ALIGNMENT == 0 && k.base <= p && k.chunks[p].size % ALIGNMENT == 0
    ensures p != k.top ==> p + k.chunks[p].size <= k.top
  {
    hide Upward, Downward;
    assert p in k.chunks && k.top in k.chunks;
  }

  lemma AboveOf(k: Book, p: int)
    requires Tiled(k) && p in k.chunks && p != k.top
    ensures Next(k.chunks, p) in k.chunks && k.chunks[Next(k.chunks, p)].prev == p && Next(k.chunks, p) != k.base
  {
    hide Shaped, Downward;
    assert Next(k.chunks, p) in k.chunks;
    BaseHasNoPrev(k, p);
  }

  /** Every chunk on a list passes `do_check_free_chunk`. */
  lemma FreeChunksPass(m: Memory, k: Book, g: Globals, p: int)
    requires Settled(m, k) && GlobalsAgree(k, g) && p in k.chunks && k.chunks[p].st.Free?
    ensures CheckFreeChunk(m, g, p)
  {
    hide Shaped, Apart, Upward, Downward, Consolidated, NoLoose, Sorted, Distinct, Linked;
    ChunkChecks(m, k, g, p);
    FreeNeighbours(m, k, p);
    HeadReads(m, k, NONE, p);
    ChunkChecks(m, k, g, Next(k.chunks, p));
    assert PrevSize(m, Next(k.chunks, p)) == k.chunks[p].size;
    ListLinksAgree(m, k, p);
  }

  lemma ListLinksAgree(m: Memory, k: Book, p: int)
    requires Filed(k) && Linked(m, k.bins) && p in k.chunks && k.chunks[p].st.Free?
    ensures Bk(m, Fd(m, p)) == p && Fd(m, Bk(m, p)) == p
  {
    hide Distinct, Sorted;
    var b := k.chunks[p].st.bin;
    var h, s := BinAt(b), k.bins[b];
    var i :| 0 <= i < |s| && s[i] == p;
    assert Ring(m, h, s);
    assert Node(h, s, i + 1) == p;
    assert Node(h, s, i) == Bk(m, p) && Node(h, s, i + 2) == Fd(m, p);
  }

  /** Every block in use passes `do_check_inuse_chunk`. */
  lemma InuseChunksPass(m: Memory, k: Book, g: Globals, p: int)
    requires Settled(m, k) && GlobalsAgree(k, g) && p in k.chunks && k.chunks[p].st.Used?
    ensures CheckInuseChunk(m, g, p)
  {
    hide Shaped, Apart, Upward, Downward, Tagged, Linked, Filed, Consolidated, CheckFreeChunk;
    ChunkChecks(m, k, g, p);
    TopNeighbour(m, k);
    UsedIsNotTop(k, p);
    HeadReads(m, k, NONE, p);
    if !PrevInuse(m, p) {
      SettledNear(k, p);
      var q, b, i := FreeBelow(m, k, NONE, p);
      ChunkChecks(m, k, g, q);
      FreeChunksPass(m, k, g, q);
    }
    var n := Next(k.chunks, p);
    ChunkChecks(m, k, g, n);
    if n != k.top && !k.chunks[n].st.Used? {
      NotLooseNotTop(k, n);
      FreeChunksPass(m, k, g, n);
    }
    HeadReads(m, k, NONE, n);
  }

  lemma UsedIsNotTop(k: Book, p: int)
    requires Shaped(k) && p in k.chunks && k.chunks[p].st.Used?
    ensures p != k.top
  {
  }

  lemma NotLooseNotTop(k: Book, n: int)
    requires Shaped(k) && NoLoose(k) && n in k.chunks && n != k.top && !k.chunks[n].st.Used?
    ensures k.chunks[n].st.Free?
  {
  }

  /** A chunk malloc has just handed out passes `do_check_malloced_chunk`. */
  lemma MallocedChunkPasses(m: Memory, k0: Book, k: Book, g: Globals, p: int, nb: nat)
    requires Settled(m, k) && GlobalsAgree(k, g) && Grants(k0, k, p, nb)
    ensures CheckMallocedChunk(m, g, p, nb)
  {
    hide Shaped, Apart, Upward, Downward, Tagged, Linked, Filed, Consolidated, CheckInuseChunk, UsedIn;
    ChunkChecks(m, k, g, p);
    InuseChunksPass(m, k, g, p);
    HeadReads(m, k, NONE, p);
  }

  // ---- blocks in use ----

  /** Blocks in use are aligned, and no word belongs to two of them. */
  lemma BlocksAreDisjoint(k: Book, p: int, q: int, a: int)
    requires Tiled(k) && UserWord(k, p, a) && UserWord(k, q, a)
    ensures p == q && (p + 8) % ALIGNMENT == 0
  {
    hide Upward, Downward;
    assert p in k.chunks && q in k.chunks;
  }

  /** Whatever users write into their blocks, the invariants and all other blocks stand. */
  lemma UserWritesAreHarmless(m: Memory, k: Book, p: int, a: int, v: int)
    requires Settled(m, k) && UserWord(k, p, a)
    ensures Settled(m[a := v], k)
    ensures forall q, b {:trigger UserWord(k, q, b)} :: UserWord(k, q, b) && q != p ==> Rd(m[a := v], b) == Rd(m, b)
  {
    hide Upward, Downward, Tagged, Linked, Filed, Consolidated, NoLoose;
    assert p in k.chunks;
    assert Spare(k, NONE, a);
    SpareWrite(m, k, NONE, a, v);
    forall q, b {:trigger UserWord(k, q, b)} | UserWord(k, q, b) && q != p
      ensures Rd(m[a := v], b) == Rd(m, b)
    {
      if a == b {
        BlocksAreDisjoint(k, p, q, a);
      }
    }
  }
}
