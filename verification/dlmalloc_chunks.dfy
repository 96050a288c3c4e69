/** Splitting, joining, claiming and releasing chunks: what the header and use-bit macros of
    dlmalloc.c do to the book. */
module DlChunks {
  import opened DlSizes
  import opened DlBook
  import opened DlLists

  /** `set_inuse` and `clear_inuse` on the header of the chunk at a. */
  function SetInuse(m: Memory, a: int): Memory { m[a + 4 := HeadSize(m, a) + 1] }
  function ClearInuse(m: Memory, a: int): Memory { m[a + 4 := HeadSize(m, a)] }

  /** The same free chunks, of the same sizes, on the same lists. */
  ghost predicate SameFree(k: Book, k': Book) {
    && k'.bins == k.bins
    && (forall q {:trigger k.chunks[q]} :: q in k.chunks && k.chunks[q].st.Free? ==>
          q in k'.chunks && k'.chunks[q].st == k.chunks[q].st && k'.chunks[q].size == k.chunks[q].size)
    && (forall q {:trigger k'.chunks[q]} :: q in k'.chunks && k'.chunks[q].st.Free? ==>
          q in k.chunks && k.chunks[q].st.Free?)
  }

  lemma FiledFrame(k: Book, k': Book)
    requires Filed(k) && SameFree(k, k')
    ensures Filed(k')
  {
    forall b, i {:trigger k'.bins[b][i]} | 0 <= b < NAV && 0 <= i < |k'.bins[b]|
      ensures k'.bins[b][i] in k'.chunks && k'.chunks[k'.bins[b][i]].st == Free(b)
      ensures 2 <= b ==> BinIndex(k'.chunks[k'.bins[b][i]].size) == b
    {
      var q := k.bins[b][i];
      assert q in k.chunks && k.chunks[q].st == Free(b);
    }
  }

  // ---- claim and release ----

  lemma SpareHead(k: Book, q: int)
    requires Apart(k) && q in k.chunks
    ensures Spare(k, q, q + 4)
  {
  }

  lemma StaleAnywhere(m: Memory, k: Book, x: int)
    requires Core(m, k, NONE)
    ensures Core(m, k, x)
  {
    forall p {:trigger Head(m, p)} | p in k.chunks && p != x
      ensures Head(m, p) == k.chunks[p].size + PBit(k, p)
    {
      assert p != NONE;
    }
  }

  /** A header with the right size and bit is not stale. */
  lemma HeadMended(m: Memory, k: Book, q: int)
    requires Core(m, k, q) && (q in k.chunks ==> Head(m, q) == k.chunks[q].size + PBit(k, q))
    ensures Core(m, k, NONE)
  {
  }

  /** `set_head` */
  lemma HeadStep(m: Memory, k: Book, x: int, q: int, v: int)
    requires Core(m, k, x) && q in k.chunks && (x == NONE || x == q)
    ensures Core(m[q + 4 := v], k, q)
    ensures v == k.chunks[q].size + PBit(k, q) ==> Core(m[q + 4 := v], k, NONE)
  {
    if x == NONE {
      StaleAnywhere(m, k, q);
    }
    SpareHead(k, q);
    SpareWrite(m, k, q, q + 4, v);
    if v == k.chunks[q].size + PBit(k, q) {
      HeadMended(m[q + 4 := v], k, q);
    }
  }

  /** Or-ing a use bit into a chunk size loses neither. */
  lemma TagBits(s: nat, bit: int)
    requires s % ALIGNMENT == 0 && 0 <= bit <= 1
    ensures (s + bit) - (s + bit) % 2 == s && (s + bit) - (s + bit) % 4 == s && (s + bit) % 2 == bit
  {
  }

  lemma LegalSum(s: nat, t: nat)
    requires LegalSize(s) && LegalSize(t)
    ensures LegalSize(s + t)
  {
  }

  /** What a header that is not stale reads as. */
  lemma HeadReads(m: Memory, k: Book, x: int, q: int)
    requires Shaped(k) && Tagged(m, k, x) && q in k.chunks && q != x
    ensures HeadSize(m, q) == ChunkSize(m, q) == k.chunks[q].size
    ensures Head(m, q) == k.chunks[q].size + PBit(k, q)
    ensures PrevInuse(m, q) <==> PBit(k, q) == 1
  {
    TagBits(k.chunks[q].size, PBit(k, q));
  }

  lemma PBitAfterRestatus(k: Book, p: int, st: Status, q: int)
    requires Upward(k) && Downward(k) && p in k.chunks && p != k.top && q in k.chunks
    ensures q == Next(k.chunks, p) ==> PBit(Restatus(k, p, st), q) == if q == k.base || st.Used? then 1 else 0
    ensures q != Next(k.chunks, p) ==> PBit(Restatus(k, p, st), q) == PBit(k, q)
  {
    if q != k.base {
      assert k.chunks[q].prev in k.chunks;
      assert Next(k.chunks, k.chunks[q].prev) == q;
    }
  }

  lemma RestatusTagsAround(m: Memory, k: Book, p: int, st: Status)
    requires Upward(k) && Downward(k) && p in k.chunks && p != k.top && !st.Free?
    requires Tagged(m, k, Next(k.chunks, p))
    ensures Tagged(m, Restatus(k, p, st), Next(k.chunks, p))
  {
    var k' := Restatus(k, p, st);
    forall q {:trigger Head(m, q)} | q in k'.chunks && q != Next(k.chunks, p)
      ensures Head(m, q) == k'.chunks[q].size + PBit(k', q)
    {
      PBitAfterRestatus(k, p, st, q);
    }
    forall q {:trigger Next(k'.chunks, q)} | q in k'.chunks && k'.chunks[q].st.Free?
      ensures PrevSize(m, Next(k'.chunks, q)) == k'.chunks[q].size
    {
      assert Next(k'.chunks, q) == Next(k.chunks, q);
    }
  }

  lemma UseBitWrite(m: Memory, k: Book, p: int, v: int)
    requires Core(m, k, NONE) && p in k.chunks && p != k.top && !k.chunks[p].st.Free?
    ensures Core(m[Next(k.chunks, p) + 4 := v], k, Next(k.chunks, p))
    ensures Keeps(m, m[Next(k.chunks, p) + 4 := v], k)
  {
    var n := Next(k.chunks, p);
    assert n in k.chunks;
    StaleAnywhere(m, k, n);
    SpareHead(k, n);
    SpareWrite(m, k, n, n + 4, v);
    HeadWriteKeeps(m, k, n, v);
  }

  lemma RestatusFiled(k: Book, p: int, st: Status)
    requires Filed(k) && p in k.chunks && !k.chunks[p].st.Free? && !st.Free?
    ensures Filed(Restatus(k, p, st))
  {
    FiledFrame(k, Restatus(k, p, st));
  }

  lemma RestatusAround(m: Memory, k: Book, p: int, st: Status)
    requires p in k.chunks && p != k.top && !k.chunks[p].st.Free? && (st.Used? || st.Loose?)
    requires Core(m, k, Next(k.chunks, p))
    ensures Core(m, Restatus(k, p, st), Next(k.chunks, p))
  {
    RestatusTagsAround(m, k, p, st);
    RestatusTiled(k, p, st, k.bins);
    RestatusFiled(k, p, st);
    assert Restatus(k, p, st) == Restatus(k, p, st).(bins := k.bins);
  }

  lemma UseBitValue(m: Memory, k: Book, n: int)
    requires Shaped(k) && Tagged(m, k, NONE) && n in k.chunks
    ensures SetInuse(m, n) == m[n + 4 := k.chunks[n].size + 1] && ClearInuse(m, n) == m[n + 4 := k.chunks[n].size]
    ensures HeadSize(m, n) == k.chunks[n].size
  {
    HeadReads(m, k, NONE, n);
  }

  lemma UseBitRestatus(m: Memory, k: Book, p: int, st: Status, v: int)
    requires Core(m, k, NONE) && p in k.chunks && p != k.top && Next(k.chunks, p) in k.chunks
    requires !k.chunks[p].st.Free? && (st.Used? || st.Loose?)
    requires v == k.chunks[Next(k.chunks, p)].size + if st.Used? then 1 else 0
    ensures Core(m[Next(k.chunks, p) + 4 := v], Restatus(k, p, st), NONE)
  {
    hide Shaped, Apart, Upward, Downward, Tagged, Linked, Homed, Listed, Distinct, Sorted, Keeps;
    var n := Next(k.chunks, p);
    UseBitWrite(m, k, p, v);
    RestatusAround(m[n + 4 := v], k, p, st);
    PBitAfterRestatus(k, p, st, n);
    BaseHasNoPrev(k, p);
    HeadWritten(m, n, v);
    hide Core, PBit, Head;
    HeadMended(m[n + 4 := v], Restatus(k, p, st), n);
  }

  lemma HeadWritten(m: Memory, p: int, v: int)
    ensures Head(m[p + 4 := v], p) == v
  {
  }

  lemma NextIsSettled(m: Memory, k: Book, p: int)
    requires Core(m, k, NONE) && p in k.chunks && p != k.top
    ensures Next(k.chunks, p) in k.chunks && Shaped(k) && Apart(k) && Tagged(m, k, NONE)
  {
    assert Next(k.chunks, p) in k.chunks;
  }

  /** Writing the use bit above chunk p turns it from loose to used, or from used to loose. */
  lemma UseBitStep(m: Memory, k: Book, p: int, st: Status)
    requires Core(m, k, NONE) && p in k.chunks && p != k.top
    requires !k.chunks[p].st.Free? && (st.Used? || st.Loose?)
    ensures var n := Next(k.chunks, p);
      var m' := if st.Used? then SetInuse(m, n) else ClearInuse(m, n);
      && Core(m', Restatus(k, p, st), NONE) && Keeps(m, m', k)
      && m' == m[n + 4 := k.chunks[n].size + if st.Used? then 1 else 0]
  {
    hide *;
    NextIsSettled(m, k, p);
    var n := Next(k.chunks, p);
    UseBitValue(m, k, n);
    if st.Used? {
      HeadWriteKeeps(m, k, n, k.chunks[n].size + 1);
      UseBitRestatus(m, k, p, st, k.chunks[n].size + 1);
    } else {
      HeadWriteKeeps(m, k, n, k.chunks[n].size);
      UseBitRestatus(m, k, p, st, k.chunks[n].size);
    }
  }

  lemma BaseHasNoPrev(k: Book, p: int)
    requires Apart(k) && Upward(k) && p in k.chunks && p != k.top
    ensures Next(k.chunks, p) != k.base
  {
  }

  lemma HeadWriteKeeps(m: Memory, k: Book, q: int, v: int)
    requires Apart(k) && q in k.chunks
    ensures Keeps(m, m[q + 4 := v], k)
  {
  }

  // ---- join ----

  /** Chunk p takes in the chunk above it. */
  ghost function Join(k: Book, p: int): Book
    requires p in k.chunks && Next(k.chunks, p) in k.chunks && Next(k.chunks, p) != p
  {
    var q := Next(k.chunks, p);
    var c := (k.chunks - {q})[p := Chunk(k.chunks[p].size + k.chunks[q].size, k.chunks[p].prev, k.chunks[q].st)];
    var n := Next(k.chunks, q);
    if q == k.top then k.(chunks := c, top := p)
    else k.(chunks := if n in c then c[n := c[n].(prev := p)] else c)
  }

  ghost predicate Growing(k: Book) {
    && k.top in k.chunks
    && (forall p {:trigger Next(k.chunks, p)} :: p in k.chunks ==> p < Next(k.chunks, p))
    && (forall p {:trigger p in k.chunks} :: p in k.chunks ==> k.base <= p <= k.top)
  }

  ghost predicate Joinable(k: Book, p: int) {
    && p in k.chunks && p != k.top && !k.chunks[p].st.Free?
    && Next(k.chunks, p) in k.chunks && !k.chunks[Next(k.chunks, p)].st.Free?
  }

  lemma JoinShaped(k: Book, p: int)
    requires Shaped(k) && Apart(k) && Upward(k) && Joinable(k, p)
    ensures Shaped(Join(k, p))
  {
    hide LegalSize, Apart, Upward, Downward;
    var q := Next(k.chunks, p);
    assert q != p by {
      GrowsUpward(k);
    }
    var k' := Join(k, p);
    LegalSum(k.chunks[p].size, k.chunks[q].size);
    JoinApart(k, p);
    forall r {:trigger r in k'.chunks} | r in k'.chunks
      ensures 0 <= r && r % ALIGNMENT == 0 && LegalSize(k'.chunks[r].size) && (k'.chunks[r].st.Top? <==> r == k'.top)
    {
      assert r in k.chunks && r != q;
      assert r != p ==> k'.chunks[r].st == k.chunks[r].st && k'.chunks[r].size == k.chunks[r].size;
      assert r == p ==> k'.chunks[r].st == k.chunks[q].st && k'.chunks[r].size == k.chunks[p].size + k.chunks[q].size;
    }
  }

  /** Sizes and places after a join, one by one. */
  lemma JoinSize(k: Book, p: int, r: int)
    requires Joinable(k, p) && Next(k.chunks, p) != p && r in Join(k, p).chunks
    ensures r in k.chunks && r != Next(k.chunks, p) && p in Join(k, p).chunks
    ensures Join(k, p).chunks[r].size == if r == p then k.chunks[p].size + k.chunks[Next(k.chunks, p)].size else k.chunks[r].size
  {
  }

  lemma JoinApart(k: Book, p: int)
    requires Apart(k) && Upward(k) && Joinable(k, p)
    ensures Apart(Join(k, p))
  {
    hide Upward;
    var q := Next(k.chunks, p);
    assert p in k.chunks && q in k.chunks && q != p;
    var k' := Join(k, p);
    forall a {:trigger a in k'.chunks} | a in k'.chunks
      ensures k'.base <= a <= k'.top && 16 <= k'.chunks[a].size
    {
      JoinSize(k, p, a);
      assert a in k.chunks;
    }
    forall a, b {:trigger a in k'.chunks, b in k'.chunks} | a in k'.chunks && b in k'.chunks && a < b
      ensures a + k'.chunks[a].size <= b
    {
      JoinSize(k, p, a);
      JoinSize(k, p, b);
      assert a in k.chunks && b in k.chunks;
    }
  }

  lemma JoinNext(k: Book, p: int, r: int)
    requires Upward(k) && Downward(k) && Joinable(k, p) && Growing(k) && r in Join(k, p).chunks
    ensures r in k.chunks
    ensures Next(Join(k, p).chunks, r) == if r == p then Next(k.chunks, Next(k.chunks, p)) else Next(k.chunks, r)
    ensures r != Join(k, p).top ==> r != k.top && Next(Join(k, p).chunks, r) in Join(k, p).chunks
    ensures r != Join(k, p).top ==> Join(k, p).chunks[Next(Join(k, p).chunks, r)].prev == r
  {
    var q := Next(k.chunks, p);
    if r != Join(k, p).top {
      if r == p {
        assert q != k.top;
        assert Next(k.chunks, q) in k.chunks;
      } else {
        assert r != k.top;
        assert Next(k.chunks, r) in k.chunks;
        assert k.chunks[Next(k.chunks, r)].prev == r;
        assert q != k.top ==> k.chunks[Next(k.chunks, q)].prev == q;
        assert k.chunks[q].prev == p;
      }
    }
  }

  lemma JoinPrev(k: Book, p: int, r: int)
    requires Upward(k) && Downward(k) && Joinable(k, p) && Growing(k)
    requires r in Join(k, p).chunks && r != k.base
    ensures Join(k, p).chunks[r].prev == if k.chunks[r].prev == Next(k.chunks, p) then p else k.chunks[r].prev
    ensures Join(k, p).chunks[r].prev in Join(k, p).chunks && Join(k, p).chunks[r].prev != Join(k, p).top
    ensures Next(Join(k, p).chunks, Join(k, p).chunks[r].prev) == r
  {
    var q := Next(k.chunks, p);
    assert r in k.chunks && k.chunks[q].prev == p;
    var o := k.chunks[r].prev;
    assert o in k.chunks && Next(k.chunks, o) == r && o != k.top;
    if o == q {
      JoinNext(k, p, p);
    } else {
      if q != k.top {
        assert k.chunks[Next(k.chunks, q)].prev == q;
      }
      assert o != p;
      JoinNext(k, p, o);
    }
  }

  lemma JoinTiled(k: Book, p: int)
    requires Tiled(k) && Joinable(k, p)
    ensures Tiled(Join(k, p))
  {
    JoinShaped(k, p);
    JoinApart(k, p);
    var k' := Join(k, p);
    forall r {:trigger Next(k'.chunks, r)} | r in k'.chunks && r != k'.top
      ensures Next(k'.chunks, r) in k'.chunks && k'.chunks[Next(k'.chunks, r)].prev == r
    {
      JoinNext(k, p, r);
    }
    forall r {:trigger k'.chunks[r].prev} | r in k'.chunks && r != k'.base
      ensures k'.chunks[r].prev in k'.chunks && k'.chunks[r].prev != k'.top && Next(k'.chunks, k'.chunks[r].prev) == r
    {
      JoinPrev(k, p, r);
    }
  }

  lemma JoinTagged(m: Memory, k: Book, p: int, x: int)
    requires Upward(k) && Downward(k) && Joinable(k, p) && Growing(k)
    requires Tagged(m, k, x) && (x == NONE || x == p || x == Next(k.chunks, p))
    requires 0 <= k.base && k.chunks[k.top].st.Top?
    ensures Tagged(m, Join(k, p), p)
  {
    var k' := Join(k, p);
    var q := Next(k.chunks, p);
    forall r {:trigger Head(m, r)} | r in k'.chunks && r != p
      ensures Head(m, r) == k'.chunks[r].size + PBit(k', r)
    {
      JoinNext(k, p, r);
      assert r != q;
      assert Head(m, r) == k.chunks[r].size + PBit(k, r);
      if r != k.base {
        JoinPrev(k, p, r);
        assert k.chunks[r].prev in k.chunks && Next(k.chunks, k.chunks[r].prev) == r;
        assert k.chunks[r].prev != k.top;
      }
    }
    forall r {:trigger Next(k'.chunks, r)} | r in k'.chunks && k'.chunks[r].st.Free?
      ensures PrevSize(m, Next(k'.chunks, r)) == k'.chunks[r].size
    {
      JoinNext(k, p, r);
      assert PrevSize(m, Next(k.chunks, r)) == k.chunks[r].size;
    }
  }

  lemma GrowsUpward(k: Book)
    requires Apart(k)
    ensures Growing(k)
  {
  }

  lemma JoinFiled(k: Book, p: int)
    requires Filed(k) && Joinable(k, p) && Next(k.chunks, p) != p && k.top in k.chunks && k.chunks[k.top].st.Top?
    ensures Filed(Join(k, p))
  {
    FiledFrame(k, Join(k, p));
  }

  /** Two chunks that are on no list become one, in use if the upper one was; only the lower
      header is stale. */
  lemma JoinStep(m: Memory, k: Book, p: int, x: int)
    requires Core(m, k, x) && Joinable(k, p) && (x == NONE || x == p || x == Next(k.chunks, p))
    ensures Core(m, Join(k, p), p)
  {
    GrowsUpward(k);
    assert p < Next(k.chunks, p);
    assert k.top in k.chunks && k.chunks[k.top].st.Top?;
    JoinTiled(k, p);
    JoinFiled(k, p);
    JoinTagged(m, k, p, x);
  }

  // ---- cut ----

  /** Chunk p keeps n bytes with status st; the rest becomes a chunk with p's old status. */
  ghost function Cut(k: Book, p: int, n: nat, st: Status): Book
    requires p in k.chunks && 0 < n < k.chunks[p].size
  {
    var r := p + n;
    var was := k.chunks[p];
    var c := k.chunks[p := Chunk(n, was.prev, st)][r := Chunk(was.size - n, p, was.st)];
    if p == k.top then k.(chunks := c, top := r)
    else k.(chunks := if Next(k.chunks, p) in c then c[Next(k.chunks, p) := c[Next(k.chunks, p)].(prev := r)] else c)
  }

  ghost predicate Cuttable(k: Book, p: int, n: nat, st: Status) {
    && p in k.chunks && !k.chunks[p].st.Free? && (st.Used? || st.Loose?)
    && LegalSize(n) && n + MINSIZE <= k.chunks[p].size
    && (k.chunks[p].st.Used? ==> st.Used?)
  }

  lemma LegalRest(s: nat, n: nat)
    requires LegalSize(s) && LegalSize(n) && n + MINSIZE <= s
    ensures LegalSize(s - n)
  {
  }

  lemma CutShaped(k: Book, p: int, n: nat, st: Status)
    requires Tiled(k) && Cuttable(k, p, n, st)
    ensures Shaped(Cut(k, p, n, st))
  {
    hide Apart, Upward, Downward, LegalSize, Cut;
    CutFacts(k, p, n, st);
    var k' := Cut(k, p, n, st);
    forall r {:trigger r in k'.chunks} | r in k'.chunks
      ensures 0 <= r && r % ALIGNMENT == 0 && LegalSize(k'.chunks[r].size) && (k'.chunks[r].st.Top? <==> r == k'.top)
    {
      CutOne(k, p, n, st, r);
      assert r != p + n ==> r in k.chunks;
    }
  }

  lemma CutFacts(k: Book, p: int, n: nat, st: Status)
    requires Shaped(k) && Apart(k) && Cuttable(k, p, n, st)
    ensures LegalSize(n) && 0 < n && LegalSize(k.chunks[p].size - n) && (p + n) % ALIGNMENT == 0 && p + n !in k.chunks && k.top in k.chunks
    ensures var k' := Cut(k, p, n, st); k'.top == (if p == k.top then p + n else k.top) && k'.base == k.base && p + n in k'.chunks
  {
    LegalRest(k.chunks[p].size, n);
    CutFresh(k, p, n);
    LegalAddress(p, n);
  }

  /** The chunks after a cut, one by one. */
  lemma CutOne(k: Book, p: int, n: nat, st: Status, r: int)
    requires Cuttable(k, p, n, st) && p + n !in k.chunks && 0 < n
    ensures var k' := Cut(k, p, n, st);
      && (r in k'.chunks <==> r in k.chunks || r == p + n)
      && k'.top == (if p == k.top then p + n else k.top) && k'.base == k.base && k'.bins == k.bins
      && (r in k'.chunks ==>
            && k'.chunks[r].st == (if r == p then st else if r == p + n then k.chunks[p].st else k.chunks[r].st)
            && k'.chunks[r].size == (if r == p then n else if r == p + n then k.chunks[p].size - n else k.chunks[r].size))
  {
  }

  lemma LegalAddress(p: int, n: nat)
    requires p % ALIGNMENT == 0 && LegalSize(n)
    ensures (p + n) % ALIGNMENT == 0
  {
  }

  lemma CutFresh(k: Book, p: int, n: nat)
    requires Apart(k) && p in k.chunks && 0 < n < k.chunks[p].size
    ensures p + n !in k.chunks
  {
  }

  lemma CutSize(k: Book, p: int, n: nat, st: Status, r: int)
    requires Cuttable(k, p, n, st) && p + n !in k.chunks && r in Cut(k, p, n, st).chunks
    ensures r == p + n || r in k.chunks
    ensures Cut(k, p, n, st).chunks[r].size == if r == p then n else if r == p + n then k.chunks[p].size - n else k.chunks[r].size
  {
  }

  lemma CutApart(k: Book, p: int, n: nat, st: Status)
    requires Apart(k) && Cuttable(k, p, n, st)
    ensures Apart(Cut(k, p, n, st))
  {
    CutFresh(k, p, n);
    var k' := Cut(k, p, n, st);
    forall a {:trigger a in k'.chunks} | a in k'.chunks
      ensures k'.base <= a <= k'.top && 16 <= k'.chunks[a].size
    {
      CutSize(k, p, n, st, a);
    }
    forall a, b {:trigger a in k'.chunks, b in k'.chunks} | a in k'.chunks && b in k'.chunks && a < b
      ensures a + k'.chunks[a].size <= b
    {
      CutSize(k, p, n, st, a);
      CutSize(k, p, n, st, b);
      assert p in k.chunks;
    }
  }

  lemma CutNext(k: Book, p: int, n: nat, st: Status, r: int)
    requires Upward(k) && Downward(k) && Growing(k) && Cuttable(k, p, n, st) && p + n !in k.chunks
    requires r in Cut(k, p, n, st).chunks
    ensures r != p + n ==> r in k.chunks
    ensures Next(Cut(k, p, n, st).chunks, r) ==
      if r == p then p + n else if r == p + n then Next(k.chunks, p) else Next(k.chunks, r)
    ensures var k' := Cut(k, p, n, st); r != k'.top ==> Next(k'.chunks, r) in k'.chunks && k'.chunks[Next(k'.chunks, r)].prev == r
  {
    var k' := Cut(k, p, n, st);
    if r != k'.top && r != p && r != p + n {
      assert Next(k.chunks, r) in k.chunks && k.chunks[Next(k.chunks, r)].prev == r;
    }
    if p != k.top {
      assert Next(k.chunks, p) in k.chunks && k.chunks[Next(k.chunks, p)].prev == p;
      assert p < Next(k.chunks, p);
    }
  }

  lemma CutPrev(k: Book, p: int, n: nat, st: Status, r: int)
    requires Upward(k) && Downward(k) && Growing(k) && Cuttable(k, p, n, st) && p + n !in k.chunks
    requires r in Cut(k, p, n, st).chunks && r != k.base
    ensures Cut(k, p, n, st).chunks[r].prev ==
      if r == p + n then p else if k.chunks[r].prev == p then p + n else k.chunks[r].prev
    ensures var k' := Cut(k, p, n, st);
      && k'.chunks[r].prev in k'.chunks && k'.chunks[r].prev != k'.top
      && Next(k'.chunks, k'.chunks[r].prev) == r
  {
    if r == p + n {
      CutNext(k, p, n, st, p);
    } else {
      var o := k.chunks[r].prev;
      assert o in k.chunks && Next(k.chunks, o) == r && o != k.top;
      if p != k.top {
        assert k.chunks[Next(k.chunks, p)].prev == p;
      }
      CutNext(k, p, n, st, o);
      CutNext(k, p, n, st, p + n);
    }
  }

  lemma CutTiled(k: Book, p: int, n: nat, st: Status)
    requires Tiled(k) && Cuttable(k, p, n, st)
    ensures Tiled(Cut(k, p, n, st))
  {
    CutShaped(k, p, n, st);
    CutApart(k, p, n, st);
    CutFresh(k, p, n);
    GrowsUpward(k);
    var k' := Cut(k, p, n, st);
    forall r {:trigger Next(k'.chunks, r)} | r in k'.chunks && r != k'.top
      ensures Next(k'.chunks, r) in k'.chunks && k'.chunks[Next(k'.chunks, r)].prev == r
    {
      CutNext(k, p, n, st, r);
    }
    forall r {:trigger k'.chunks[r].prev} | r in k'.chunks && r != k'.base
      ensures k'.chunks[r].prev in k'.chunks && k'.chunks[r].prev != k'.top && Next(k'.chunks, k'.chunks[r].prev) == r
    {
      CutPrev(k, p, n, st, r);
    }
  }

  lemma CutTagged(m: Memory, k: Book, p: int, n: nat, st: Status)
    requires Upward(k) && Downward(k) && Growing(k) && Cuttable(k, p, n, st) && p + n !in k.chunks
    requires Tagged(m, k, p) && Head(m, p) == n + PBit(k, p)
    ensures Tagged(m, Cut(k, p, n, st), p + n)
  {
    var k' := Cut(k, p, n, st);
    forall r {:trigger Head(m, r)} | r in k'.chunks && r != p + n
      ensures Head(m, r) == k'.chunks[r].size + PBit(k', r)
    {
      hide Upward, Cuttable;
      assert Head(m, r) == (if r == p then n else k.chunks[r].size) + PBit(k, r);
      if r != k.base {
        CutPrev(k, p, n, st, r);
        assert k.chunks[r].prev in k.chunks && Next(k.chunks, k.chunks[r].prev) == r;
      }
    }
    forall r {:trigger Next(k'.chunks, r)} | r in k'.chunks && k'.chunks[r].st.Free?
      ensures PrevSize(m, Next(k'.chunks, r)) == k'.chunks[r].size
    {
      CutNext(k, p, n, st, r);
    }
  }

  lemma CutFiled(k: Book, p: int, n: nat, st: Status)
    requires Filed(k) && Cuttable(k, p, n, st) && p + n !in k.chunks
    ensures Filed(Cut(k, p, n, st))
  {
    FiledFrame(k, Cut(k, p, n, st));
  }

  /** With p's header already rewritten for its first n bytes, the rest is a chunk whose own
      header is the only stale one. */
  lemma CutStep(m: Memory, k: Book, p: int, n: nat, st: Status)
    requires Core(m, k, p) && Cuttable(k, p, n, st) && Head(m, p) == n + PBit(k, p)
    ensures Core(m, Cut(k, p, n, st), p + n)
  {
    GrowsUpward(k);
    CutFresh(k, p, n);
    CutTiled(k, p, n, st);
    CutFiled(k, p, n, st);
    CutTagged(m, k, p, n, st);
  }
}
