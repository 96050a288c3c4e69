/** The arena of dlmalloc.c: one word-addressed memory holding chunk headers, feet, free-list
    links and user data, and the book that says what the words mean. */
module DlBook {
  import opened DlSizes
  import DlBlocks

  /** Words keyed by byte address; a word never written reads as zero. */
  type Memory = map<int, int>

  function Rd(m: Memory, a: int): int {
    if a in m then m[a] else 0
  }

  // Fields of a chunk at address p.
  function PrevSize(m: Memory, p: int): int { Rd(m, p) }
  function Head(m: Memory, p: int): int { Rd(m, p + 4) }
  function Fd(m: Memory, p: int): int { Rd(m, p + 8) }
  function Bk(m: Memory, p: int): int { Rd(m, p + 12) }

  /** The size field without its two use bits, and without the lowest one. */
  function ChunkSize(m: Memory, p: int): int { Head(m, p) - Head(m, p) % 4 }
  function HeadSize(m: Memory, p: int): int { Head(m, p) - Head(m, p) % 2 }
  predicate PrevInuse(m: Memory, p: int) { Head(m, p) % 2 == 1 }

  /** The table `av_` of bin headers lies below the arena. */
  const AV := -2048
  function BinAt(i: int): int { AV + 8 * i }

  datatype Status = Top | Used | Free(bin: nat) | Loose
  /** `prev` is the address of the chunk just below. */
  datatype Chunk = Chunk(size: nat, prev: int, st: Status)
  type Layout = map<int, Chunk>

  /** What the memory stands for: the chunks by address, and the free list of every bin from
      front to back.  A `Loose` chunk is free but on no list; it exists inside a call only. */
  datatype Book = Book(base: int, top: int, chunks: Layout, bins: seq<seq<int>>)

  function Next(c: Layout, p: int): int
    requires p in c
  {
    p + c[p].size
  }

  /** Addresses and sizes keep the alignment; `top` is the one chunk with that status. */
  ghost predicate Shaped(k: Book) {
    && 0 <= k.base
    && (forall p {:trigger p in k.chunks} :: p in k.chunks ==>
          0 <= p && p % ALIGNMENT == 0 && LegalSize(k.chunks[p].size) && (k.chunks[p].st.Top? <==> p == k.top))
  }

  ghost predicate Apart(k: Book) {
    && k.base in k.chunks && k.top in k.chunks && 0 <= k.base
    && (forall p {:trigger p in k.chunks} :: p in k.chunks ==> k.base <= p <= k.top && 16 <= k.chunks[p].size)
    && (forall p, q {:trigger p in k.chunks, q in k.chunks} :: p in k.chunks && q in k.chunks && p < q ==>
          p + k.chunks[p].size <= q)
  }

  ghost predicate Upward(k: Book) {
    forall p {:trigger Next(k.chunks, p)} :: p in k.chunks && p != k.top ==>
      Next(k.chunks, p) in k.chunks && k.chunks[Next(k.chunks, p)].prev == p
  }

  ghost predicate Downward(k: Book) {
    forall p {:trigger k.chunks[p].prev} :: p in k.chunks && p != k.base ==>
      && k.chunks[p].prev in k.chunks && k.chunks[p].prev != k.top
      && Next(k.chunks, k.chunks[p].prev) == p
  }

  /** The chunks cover [base, end of top) without gap or overlap. */
  ghost predicate Tiled(k: Book) {
    Shaped(k) && Apart(k) && Upward(k) && Downward(k)
  }

  /** What the PREV_INUSE bit of p has to say. */
  function PBit(k: Book, p: int): int
  {
    if p in k.chunks && p != k.base && k.chunks[p].prev in k.chunks && !k.chunks[k.chunks[p].prev].st.Used?
    then 0 else 1
  }

  /** Every header holds its chunk's size and the use bit of the chunk below, except the
      header of x, which may be stale; every listed free chunk has its foot. */
  ghost predicate Tagged(m: Memory, k: Book, x: int) {
    && (forall p {:trigger Head(m, p)} :: p in k.chunks && p != x ==>
          Head(m, p) == k.chunks[p].size + PBit(k, p))
    && (forall p {:trigger Next(k.chunks, p)} :: p in k.chunks && k.chunks[p].st.Free? ==>
          PrevSize(m, Next(k.chunks, p)) == k.chunks[p].size)
  }

  /** Position i of the ring that starts and ends at header h. */
  function Node(h: int, s: seq<int>, i: int): int {
    if 1 <= i <= |s| then s[i - 1] else h
  }

  ghost predicate Ring(m: Memory, h: int, s: seq<int>) {
    forall i, j {:trigger Node(h, s, i), Node(h, s, j)} :: 0 <= i <= |s| && j == i + 1 ==>
      Fd(m, Node(h, s, i)) == Node(h, s, j) && Bk(m, Node(h, s, j)) == Node(h, s, i)
  }

  ghost predicate Linked(m: Memory, bins: seq<seq<int>>)
    requires |bins| == NAV
  {
    forall b {:trigger bins[b]} :: 1 <= b < NAV ==> Ring(m, BinAt(b), bins[b])
  }

  /** A free chunk is on the list its status names. */
  ghost predicate Homed(k: Book) {
    && |k.bins| == NAV && k.bins[0] == []
    && (forall p {:trigger k.chunks[p]} :: p in k.chunks && k.chunks[p].st.Free? ==>
          1 <= k.chunks[p].st.bin < NAV && p in k.bins[k.chunks[p].st.bin])
  }

  /** A list holds chunks that name it; from bin 2 on, chunks of the bin's own sizes. */
  ghost predicate Listed(k: Book) {
    && |k.bins| == NAV
    && (forall b, i {:trigger k.bins[b][i]} :: 0 <= b < NAV && 0 <= i < |k.bins[b]| ==>
          && k.bins[b][i] in k.chunks && k.chunks[k.bins[b][i]].st == Free(b)
          && (2 <= b ==> BinIndex(k.chunks[k.bins[b][i]].size) == b))
  }

  /** No list names a chunk twice; bin 1, the last remainder, names at most one. */
  ghost predicate Distinct(bins: seq<seq<int>>) {
    && |bins| == NAV && |bins[1]| <= 1
    && (forall b, i, j {:trigger bins[b][i], bins[b][j]} :: 0 <= b < NAV && 0 <= i < j < |bins[b]| ==>
          bins[b][i] != bins[b][j])
  }

  /** From bin 2 on, lists are in order of decreasing size. */
  ghost predicate Sorted(k: Book)
    requires Listed(k)
  {
    forall b, i, j {:trigger k.bins[b][i], k.bins[b][j]} :: 2 <= b < NAV && 0 <= i < j < |k.bins[b]| ==>
      k.chunks[k.bins[b][i]].size >= k.chunks[k.bins[b][j]].size
  }

  /** Each free chunk is on exactly one list, in its place. */
  ghost predicate Filed(k: Book) {
    Homed(k) && Listed(k) && Distinct(k.bins) && Sorted(k)
  }

  /** Every nonempty bin lies in a marked block. */
  ghost predicate Marked(word: nat, bins: seq<seq<int>>)
  {
    && word < DlBlocks.Pow2(32)
    && (forall b {:trigger bins[b]} :: 2 <= b < |bins| && bins[b] != [] ==> DlBlocks.Bit(word, b / 4))
  }

  /** No free chunk borders another one, and the chunk below `top` is in use. */
  ghost predicate Consolidated(k: Book) {
    forall p {:trigger k.chunks[p].prev} :: p in k.chunks && p != k.base && k.chunks[p].prev in k.chunks ==>
      k.chunks[p].st.Used? || k.chunks[k.chunks[p].prev].st.Used?
  }

  ghost predicate NoLoose(k: Book) {
    forall p {:trigger k.chunks[p]} :: p in k.chunks ==> !k.chunks[p].st.Loose?
  }

  const NONE := -1

  ghost predicate Core(m: Memory, k: Book, x: int) {
    Tiled(k) && Filed(k) && Tagged(m, k, x) && Linked(m, k.bins)
  }

  /** Word a belongs to the user of chunk p: from the `fd` field to the next chunk's
      `prev_size`, which is the user's as long as p is in use. */
  ghost predicate UserWord(k: Book, p: int, a: int) {
    p in k.chunks && k.chunks[p].st.Used? && p + 8 <= a < p + k.chunks[p].size + 4
  }

  /** No word of a block in use has changed. */
  ghost predicate Keeps(m: Memory, m': Memory, k: Book) {
    forall p, a {:trigger UserWord(k, p, a)} :: UserWord(k, p, a) ==> Rd(m', a) == Rd(m, a)
  }

  /** The blocks in use in k are in use in k', with the same sizes. */
  ghost predicate UsedIn(k: Book, k': Book) {
    forall p {:trigger k.chunks[p]} :: p in k.chunks && k.chunks[p].st.Used? ==>
      p in k'.chunks && k'.chunks[p].st.Used? && k'.chunks[p].size == k.chunks[p].size
  }

  lemma KeepsTrans(m0: Memory, m1: Memory, m2: Memory, k0: Book, k1: Book)
    requires Keeps(m0, m1, k0) && UsedIn(k0, k1) && Keeps(m1, m2, k1)
    ensures Keeps(m0, m2, k0)
  {
    forall p, a | UserWord(k0, p, a)
      ensures Rd(m2, a) == Rd(m0, a)
    {
      assert UserWord(k1, p, a);
    }
  }

  // ---- lists ----

  /** Every ring position is its header or a chunk filed in that bin; positions differ. */
  lemma NodeIsSite(k: Book, b: nat, i: int)
    requires Filed(k) && 1 <= b < NAV
    ensures Node(BinAt(b), k.bins[b], i) == BinAt(b) || 
            (1 <= i <= |k.bins[b]| && Node(BinAt(b), k.bins[b], i) in k.chunks && 
             k.chunks[Node(BinAt(b), k.bins[b], i)].st == Free(b))
  {
    if 1 <= i <= |k.bins[b]| {
      assert k.bins[b][i - 1] in k.chunks;
    }
  }

  lemma RingFrame(m: Memory, m': Memory, h: int, s: seq<int>)
    requires Ring(m, h, s)
    requires forall i {:trigger Node(h, s, i)} :: 0 <= i <= |s| + 1 ==>
      Fd(m', Node(h, s, i)) == Fd(m, Node(h, s, i)) && Bk(m', Node(h, s, i)) == Bk(m, Node(h, s, i))
    ensures Ring(m', h, s)
  {
  }

  /** Word a is neither a header (but that of x), nor a foot, nor a list link. */
  ghost predicate Spare(k: Book, x: int, a: int) {
    && 0 <= a
    && forall p {:trigger p in k.chunks} :: p in k.chunks ==>
         && (a == p + 4 ==> p == x)
         && (k.chunks[p].st.Free? ==> a != p + 8 && a != p + 12 && a != p + k.chunks[p].size)
  }

  lemma SpareWriteRing(m: Memory, k: Book, x: int, a: int, v: int, b: nat)
    requires Tiled(k) && Filed(k) && Linked(m, k.bins) && Spare(k, x, a) && 1 <= b < NAV
    ensures Ring(m[a := v], BinAt(b), k.bins[b])
  {
    var m' := m[a := v];
    var h, s := BinAt(b), k.bins[b];
    assert Ring(m, h, s);
    forall i {:trigger Node(h, s, i)} | 0 <= i <= |s| + 1
      ensures Fd(m', Node(h, s, i)) == Fd(m, Node(h, s, i))
      ensures Bk(m', Node(h, s, i)) == Bk(m, Node(h, s, i))
    {
      NodeIsSite(k, b, i);
    }
    RingFrame(m, m', h, s);
  }

  lemma SpareWriteTags(m: Memory, k: Book, x: int, a: int, v: int)
    requires Tiled(k) && Tagged(m, k, x) && Spare(k, x, a)
    ensures Tagged(m[a := v], k, x)
  {
    forall p {:trigger Head(m[a := v], p)} | p in k.chunks && p != x
      ensures Head(m[a := v], p) == k.chunks[p].size + PBit(k, p)
    {
      assert Head(m, p) == k.chunks[p].size + PBit(k, p);
    }
  }

  lemma SpareWrite(m: Memory, k: Book, x: int, a: int, v: int)
    requires Core(m, k, x) && Spare(k, x, a)
    ensures Core(m[a := v], k, x)
  {
    SpareWriteTags(m, k, x, a, v);
    forall b | 1 <= b < NAV
      ensures Ring(m[a := v], BinAt(b), k.bins[b])
    {
      SpareWriteRing(m, k, x, a, v, b);
    }
  }
}
