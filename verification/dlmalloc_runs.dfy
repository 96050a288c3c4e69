/** Whole runs of the allocator: any sequence of malloc, free, realloc and user writes behaves
    like a collection of separate blocks. */
module DlRuns {
  import opened DlSizes
  import opened DlBook
  import opened DlChunks
  import opened DlMoves
  import opened DlFrees
  import opened DlReallocs
  import opened DlChecks
  import Dlmalloc

  /** What a program knows of the heap: its blocks by address, and their words. */
  type Blocks = map<int, seq<int>>

  datatype Op =
    | DoMalloc(bytes: nat)
    | DoFree(m: int)
    | DoRealloc(m: int, bytes: nat)
    | DoWrite(m: int, i: nat, v: int)

  /** Requests are words of type size_t, and a program names only blocks it has. */
  predicate Enabled(op: Op, b: Blocks) {
    match op
    case DoMalloc(bytes) => bytes < SIZE_T_RANGE
    case DoFree(m) => m in b
    case DoRealloc(m, bytes) => bytes < SIZE_T_RANGE && m in b
    case DoWrite(m, i, v) => m in b && i < |b[m]|
  }

  ghost predicate SamePrefix(s: seq<int>, t: seq<int>) {
    forall i {:trigger s[i]} {:trigger t[i]} :: 0 <= i < |s| && i < |t| ==> s[i] == t[i]
  }

  ghost predicate LargeEnough(s: seq<int>, bytes: nat) {
    Paddable(bytes) ==> bytes <= 4 * |s|
  }

  /** What each operation does to the blocks when it is served. */
  ghost predicate Served(op: Op, b: Blocks, b': Blocks) {
    match op
    case DoMalloc(bytes) => exists r, s :: r !in b && r % ALIGNMENT == 0 && LargeEnough(s, bytes) && b' == b[r := s]
    case DoFree(m) => b' == b - {m}
    case DoRealloc(m, bytes) =>
      m in b && exists r, s :: (r == m || r !in b) && r % ALIGNMENT == 0 && LargeEnough(s, bytes)
                          && SamePrefix(b[m], s) && b' == (b - {m})[r := s]
    case DoWrite(m, i, v) => m in b && i < |b[m]| && b' == b[m := b[m][i := v]]
  }

  /** A request fails, and then nothing changes, only when the system refuses more memory and no free
      chunk of the book k, nor its top, can serve it; a realloc, moreover, only when the block itself
      is too small. */
  ghost predicate Failed(op: Op, b: Blocks, b': Blocks, k: Book, refused: bool)
    requires Enabled(op, b)
  {
    && refused && b' == b
    && match op
       case DoMalloc(bytes) => Dlmalloc.Exhausted(k, Request2Size(bytes))
       case DoRealloc(m, bytes) => 4 * |b[m]| + SIZE_SZ < Request2Size(bytes) && Dlmalloc.Exhausted(k, Request2Size(bytes))
       case _ => false
  }

  ghost predicate Step(op: Op, b: Blocks, b': Blocks, k: Book, refused: bool)
    requires Enabled(op, b)
  {
    Served(op, b, b') || Failed(op, b, b', k, refused)
  }

  /** The user part of chunk p. */
  ghost function Words(m: Memory, k: Book, p: int): seq<int>
    requires p in k.chunks && 4 <= k.chunks[p].size
  {
    seq((k.chunks[p].size - SIZE_SZ) / 4, i requires 0 <= i => UserAt(m, p, 8 + 4 * i))
  }

  /** The blocks in use are those the program has, with the words it knows. */
  ghost predicate Holds(m: Memory, k: Book, b: Blocks) {
    && (forall r {:trigger b[r]} :: r in b ==>
          && r - 8 in k.chunks && k.chunks[r - 8].st.Used? && LegalSize(k.chunks[r - 8].size)
          && b[r] == Words(m, k, r - 8))
    && (forall p {:trigger k.chunks[p]} :: p in k.chunks && k.chunks[p].st.Used? ==> p + 8 in b)
  }

  /** The same, read off the memory alone. */
  function ReadWords(m: Memory, p: int): seq<int> {
    var size := ChunkSize(m, p);
    seq(if size < 4 then 0 else (size - SIZE_SZ) / 4, i => Rd(m, p + (8 + 4 * i)))
  }

  lemma ReadsWords(m: Memory, k: Book, p: int)
    requires Shaped(k) && Tagged(m, k, NONE) && p in k.chunks && LegalSize(k.chunks[p].size)
    ensures ReadWords(m, p) == Words(m, k, p)
  {
    HeadReads(m, k, NONE, p);
    forall i | 0 <= i < (k.chunks[p].size - SIZE_SZ) / 4
      ensures Rd(m, p + (8 + 4 * i)) == UserAt(m, p, 8 + 4 * i)
    {
    }
  }

  lemma WordsKept(m: Memory, p: int, m': Memory, k: Book, k': Book)
    requires p in k.chunks && p in k'.chunks && LegalSize(k.chunks[p].size) && k'.chunks[p].size == k.chunks[p].size
    requires SameUser(m, p, m', p, k.chunks[p].size)
    ensures Words(m', k', p) == Words(m, k, p)
  {
    forall i | 0 <= i < (k.chunks[p].size - SIZE_SZ) / 4
      ensures UserAt(m', p, 8 + 4 * i) == UserAt(m, p, 8 + 4 * i)
    {
      assert (8 + 4 * i) % 4 == 0;
    }
  }

  lemma WordsPrefix(m: Memory, p: int, m': Memory, p': int, k: Book, k': Book, n: int)
    requires p in k.chunks && p' in k'.chunks && LegalSize(k.chunks[p].size) && LegalSize(k'.chunks[p'].size)
    requires n == if k.chunks[p].size < k'.chunks[p'].size then k.chunks[p].size else k'.chunks[p'].size
    requires SameUser(m, p, m', p', n)
    ensures SamePrefix(Words(m, k, p), Words(m', k', p'))
  {
    var s, t := Words(m, k, p), Words(m', k', p');
    forall i {:trigger s[i]} {:trigger t[i]} | 0 <= i < |s| && i < |t|
      ensures s[i] == t[i]
    {
      assert 8 + 4 * i < n + 4 && (8 + 4 * i) % 4 == 0;
      assert UserAt(m', p', 8 + 4 * i) == UserAt(m, p, 8 + 4 * i);
    }
  }

  lemma OneKept(m: Memory, m': Memory, k: Book, k': Book, p: int)
    requires Keeps(m, m', k) && p in k.chunks && k.chunks[p].st.Used? && LegalSize(k.chunks[p].size)
    requires p in k'.chunks && k'.chunks[p].size == k.chunks[p].size
    ensures Words(m', k', p) == Words(m, k, p)
  {
    KeepsIsSameUser(m, m', k, p);
    WordsKept(m, p, m', k, k');
  }

  lemma HoldsSame(m: Memory, m': Memory, k: Book, k': Book, b: Blocks)
    requires Holds(m, k, b) && Keeps(m, m', k) && UsedIn(k, k') && UsedIn(k', k)
    ensures Holds(m', k', b)
  {
    hide Keeps, Words;
    forall r {:trigger b[r]} | r in b
      ensures r - 8 in k'.chunks && k'.chunks[r - 8].st.Used? && LegalSize(k'.chunks[r - 8].size) && b[r] == Words(m', k', r - 8)
    {
      OneKept(m, m', k, k', r - 8);
    }
  }

  lemma HoldsAfterGrant(m: Memory, m': Memory, k: Book, k': Book, b: Blocks, p: int, n: nat)
    requires Holds(m, k, b) && Keeps(m, m', k) && Grants(k, k', p, n) && Shaped(k')
    ensures p + 8 !in b && p in k'.chunks && LegalSize(k'.chunks[p].size)
    ensures Holds(m', k', b[p + 8 := Words(m', k', p)])
  {
    hide Keeps, Words;
    var b' := b[p + 8 := Words(m', k', p)];
    BlockInUse(m, k, b, p + 8);
    forall r {:trigger b'[r]} | r in b'
      ensures r - 8 in k'.chunks && k'.chunks[r - 8].st.Used? && LegalSize(k'.chunks[r - 8].size) && b'[r] == Words(m', k', r - 8)
    {
      if r != p + 8 {
        assert b'[r] == b[r];
        OneKept(m, m', k, k', r - 8);
      }
    }
  }

  lemma HoldsAfterFree(m: Memory, m': Memory, k: Book, k': Book, b: Blocks, p: int)
    requires Holds(m, k, b) && Keeps(m, m', k') && Frees(k, k', p)
    ensures Holds(m', k', b - {p + 8})
  {
    hide Keeps, Words;
    var b' := b - {p + 8};
    forall r {:trigger b'[r]} | r in b'
      ensures r - 8 in k'.chunks && k'.chunks[r - 8].st.Used? && LegalSize(k'.chunks[r - 8].size) && b'[r] == Words(m', k', r - 8)
    {
      assert b'[r] == b[r];
      OneKept(m, m', k', k', r - 8);
      WordsOf(m, k, k', r - 8);
    }
  }

  lemma WordsOf(m: Memory, k: Book, k': Book, p: int)
    requires p in k.chunks && p in k'.chunks && 4 <= k.chunks[p].size && k'.chunks[p].size == k.chunks[p].size
    ensures Words(m, k', p) == Words(m, k, p)
  {
  }

  lemma BlockInUse(m: Memory, k: Book, b: Blocks, r: int)
    requires Holds(m, k, b)
    ensures r in b ==> r - 8 in k.chunks && k.chunks[r - 8].st.Used? && LegalSize(k.chunks[r - 8].size) && b[r] == Words(m, k, r - 8)
  {
  }

  lemma OneMoved(m: Memory, m': Memory, k: Book, k': Book, p: int, p': int, q: int)
    requires Others(k, p, k', p') && Keeps(m, m', Without(k, p)) && p in k.chunks && q != p
    requires q in k.chunks && k.chunks[q].st.Used? && LegalSize(k.chunks[q].size)
    ensures q != p' && q in k'.chunks && k'.chunks[q].st.Used? && LegalSize(k'.chunks[q].size)
    ensures Words(m', k', q) == Words(m, k, q)
  {
    hide Keeps, Words;
    OneKept(m, m', Without(k, p), k', q);
    WordsOf(m, k, Without(k, p), q);
  }

  lemma MovedChunk(k: Book, k': Book, p: int, p': int)
    requires Others(k, p, k', p') && Shaped(k') && p in k.chunks && k.chunks[p].st.Used? && p' in k'.chunks && k'.chunks[p'].st.Used?
    ensures LegalSize(k'.chunks[p'].size) && 4 <= k'.chunks[p'].size && (p' != p ==> p' !in k.chunks || !k.chunks[p'].st.Used?)
  {
  }

  lemma LegalIsRoomy(size: int)
    requires LegalSize(size)
    ensures 4 <= size
  {
  }

  lemma ChunksHeld(m: Memory, k: Book, b: Blocks)
    requires Holds(m, k, b)
    ensures forall p {:trigger k.chunks[p]} :: p in k.chunks && k.chunks[p].st.Used? ==> p + 8 in b
  {
  }

  lemma OthersBack(k: Book, k': Book, p: int, p': int)
    requires Others(k, p, k', p')
    ensures forall q {:trigger k'.chunks[q]} :: q in k'.chunks && k'.chunks[q].st.Used? && q != p' ==> q != p && q in k.chunks && k.chunks[q].st.Used?
  {
  }

  lemma HoldsFrom(m: Memory, k: Book, b: Blocks)
    requires forall r {:trigger b[r]} :: r in b ==>
      r - 8 in k.chunks && k.chunks[r - 8].st.Used? && LegalSize(k.chunks[r - 8].size) && b[r] == Words(m, k, r - 8)
    requires forall p {:trigger k.chunks[p]} :: p in k.chunks && k.chunks[p].st.Used? ==> p + 8 in b
    ensures Holds(m, k, b)
  {
    hide Words, LegalSize;
  }

  lemma HoldsAfterMove(m: Memory, m': Memory, k: Book, k': Book, b: Blocks, p: int, p': int)
    requires Holds(m, k, b) && Others(k, p, k', p') && Keeps(m, m', Without(k, p)) && Shaped(k')
    requires p in k.chunks && k.chunks[p].st.Used? && p' in k'.chunks && k'.chunks[p'].st.Used?
    ensures p' == p || p' + 8 !in b
    ensures LegalSize(k'.chunks[p'].size) && Holds(m', k', (b - {p + 8})[p' + 8 := Words(m', k', p')])
  {
    hide *;
    MovedChunk(k, k', p, p');
    var b' := (b - {p + 8})[p' + 8 := Words(m', k', p')];
    BlockInUse(m, k, b, p' + 8);
    ChunksHeld(m, k, b);
    forall r {:trigger b'[r]} | r in b'
      ensures r - 8 in k'.chunks && k'.chunks[r - 8].st.Used? && LegalSize(k'.chunks[r - 8].size) && 4 <= k'.chunks[r - 8].size
      ensures b'[r] == Words(m', k', r - 8)
    {
      if r != p' + 8 {
        BlockInUse(m, k, b, r);
        OneMoved(m, m', k, k', p, p', r - 8);
        LegalIsRoomy(k'.chunks[r - 8].size);
      }
    }
    OthersBack(k, k', p, p');
    HoldsFrom(m', k', b');
  }

  lemma HoldsAfterWrite(m: Memory, k: Book, b: Blocks, r: int, i: nat, v: int)
    requires Settled(m, k) && Holds(m, k, b) && r in b && i < |b[r]|
    ensures UserWord(k, r - 8, r + 4 * i)
    ensures Holds(m[r + 4 * i := v], k, b[r := b[r][i := v]])
  {
    hide *;
    var p, a := r - 8, r + 4 * i;
    var m', b' := m[a := v], b[r := b[r][i := v]];
    BlockInUse(m, k, b, r);
    OwnWords(m, k, p, i, v);
    UserWritesAreHarmless(m, k, p, a, v);
    ChunksHeld(m, k, b);
    forall q {:trigger b'[q]} | q in b'
      ensures q - 8 in k.chunks && k.chunks[q - 8].st.Used? && LegalSize(k.chunks[q - 8].size) && 4 <= k.chunks[q - 8].size
      ensures b'[q] == Words(m', k, q - 8)
    {
      BlockInUse(m, k, b, q);
      LegalIsRoomy(k.chunks[q - 8].size);
      if q != r {
        OtherWords(m, m', k, p, q - 8);
      }
    }
    HoldsFrom(m', k, b');
  }

  lemma OwnWords(m: Memory, k: Book, p: int, i: nat, v: int)
    requires p in k.chunks && k.chunks[p].st.Used? && LegalSize(k.chunks[p].size) && i < |Words(m, k, p)|
    ensures UserWord(k, p, p + 8 + 4 * i)
    ensures Words(m[p + 8 + 4 * i := v], k, p) == Words(m, k, p)[i := v]
  {
  }

  lemma OtherWords(m: Memory, m': Memory, k: Book, p: int, q: int)
    requires q in k.chunks && k.chunks[q].st.Used? && LegalSize(k.chunks[q].size) && q != p
    requires forall o, b {:trigger UserWord(k, o, b)} :: UserWord(k, o, b) && o != p ==> Rd(m', b) == Rd(m, b)
    ensures Words(m', k, q) == Words(m, k, q)
  {
    forall i | 0 <= i < (k.chunks[q].size - SIZE_SZ) / 4
      ensures UserAt(m', q, 8 + 4 * i) == UserAt(m, q, 8 + 4 * i)
    {
      assert UserWord(k, q, q + (8 + 4 * i));
    }
  }

  method OneMalloc(a: Dlmalloc.Arena, bytes: nat, b: Blocks) returns (b': Blocks)
    requires a.Valid() && Holds(a.mem, a.k, b) && Enabled(DoMalloc(bytes), b)
    modifies a
    ensures a.Valid() && Holds(a.mem, a.k, b') && Step(DoMalloc(bytes), b, b', old(a.k), a.refusals > old(a.refusals)) && a.refusals >= old(a.refusals)
  {
    hide Keeps, UsedIn, Grants, Holds, Words, Filed, NoLoose, Consolidated, Tiled, Linked, Tagged, Shaped, Dlmalloc.Exhausted;
    ghost var m0, k0 := a.mem, a.k;
    var r := a.Malloc(bytes);
    if r == 0 {
      HoldsSame(m0, a.mem, k0, a.k, b);
      b' := b;
    } else {
      HoldsAfterGrant(m0, a.mem, k0, a.k, b, r - 8, Request2Size(bytes));
      b' := b[r := ReadWords(a.mem, r - 8)];
      ReadsWords(a.mem, a.k, r - 8);
      WordCount(a.mem, a.k, r - 8);
      assert LargeEnough(Words(a.mem, a.k, r - 8), bytes);
    }
  }

  /** All of the usable bytes are words. */
  lemma WordCount(m: Memory, k: Book, p: int)
    requires p in k.chunks && LegalSize(k.chunks[p].size)
    ensures 4 * |Words(m, k, p)| == Dlmalloc.Usable(k, p)
  {
  }

  method OneFree(a: Dlmalloc.Arena, m: int, b: Blocks) returns (b': Blocks)
    requires a.Valid() && Holds(a.mem, a.k, b) && Enabled(DoFree(m), b)
    modifies a
    ensures a.Valid() && Holds(a.mem, a.k, b') && Step(DoFree(m), b, b', old(a.k), a.refusals > old(a.refusals)) && a.refusals >= old(a.refusals)
  {
    hide Keeps, UsedIn, Frees, Holds, Words, Filed, NoLoose, Consolidated, Tiled, Linked, Tagged, Shaped;
    ghost var m0, k0 := a.mem, a.k;
    BlockIsChunk(m0, k0, b, m);
    a.Free(m);
    b' := b - {m};
    if m != 0 {
      HoldsAfterFree(m0, a.mem, k0, a.k, b, m - 8);
    }
  }

  lemma BlockIsChunk(m: Memory, k: Book, b: Blocks, r: int)
    requires Holds(m, k, b) && r in b && Shaped(k)
    ensures r - 8 in k.chunks && k.chunks[r - 8].st.Used? && r != 0 && b[r] == Words(m, k, r - 8) && LegalSize(k.chunks[r - 8].size)
  {
    assert b[r] == Words(m, k, r - 8);
    assert r - 8 in k.chunks;
  }

  method OneRealloc(a: Dlmalloc.Arena, m: int, bytes: nat, b: Blocks) returns (b': Blocks)
    requires a.Valid() && Holds(a.mem, a.k, b) && Enabled(DoRealloc(m, bytes), b)
    modifies a
    ensures a.Valid() && Holds(a.mem, a.k, b') && Step(DoRealloc(m, bytes), b, b', old(a.k), a.refusals > old(a.refusals)) && a.refusals >= old(a.refusals)
  {
    hide Keeps, UsedIn, Others, Holds, Words, Filed, NoLoose, Consolidated, Tiled, Linked, Tagged, Shaped, SameUser, SamePrefix, Grants, Dlmalloc.Exhausted;
    ghost var m0, k0 := a.mem, a.k;
    BlockIsChunk(m0, k0, b, m);
    var r := a.Realloc(m, bytes);
    if r == 0 {
      HoldsSame(m0, a.mem, k0, a.k, b);
      b' := b;
      WordCount(m0, k0, m - 8);
    } else {
      HoldsAfterMove(m0, a.mem, k0, a.k, b, m - 8, r - 8);
      ghost var s := Words(a.mem, a.k, r - 8);
      b' := (b - {m})[r := ReadWords(a.mem, r - 8)];
      ReadsWords(a.mem, a.k, r - 8);
      WordCount(a.mem, a.k, r - 8);
      WordsPrefix(m0, m - 8, a.mem, r - 8, k0, a.k,
        if k0.chunks[m - 8].size < a.k.chunks[r - 8].size then k0.chunks[m - 8].size else a.k.chunks[r - 8].size);
      assert LargeEnough(s, bytes);
      assert SamePrefix(b[m], s);
      assert (r == m || r !in b) && r % ALIGNMENT == 0;
    }
  }

  method OneWrite(a: Dlmalloc.Arena, m: int, i: nat, v: int, b: Blocks) returns (b': Blocks)
    requires a.Valid() && Holds(a.mem, a.k, b) && Enabled(DoWrite(m, i, v), b)
    modifies a
    ensures a.Valid() && Holds(a.mem, a.k, b') && Step(DoWrite(m, i, v), b, b', old(a.k), a.refusals > old(a.refusals)) && a.refusals >= old(a.refusals)
  {
    hide Words, Filed, NoLoose, Consolidated, Linked, Tagged, Shaped, Marked, Upward, Downward, Apart;
    BlockIsChunk(a.mem, a.k, b, m);
    UsedIsTiled(a.k, m - 8);
    HoldsAfterWrite(a.mem, a.k, b, m, i, v);
    UserWritesAreHarmless(a.mem, a.k, m - 8, m + 4 * i, v);
    a.mem := a.mem[m + 4 * i := v];
    b' := b[m := b[m][i := v]];
  }

  lemma UsedIsTiled(k: Book, p: int)
    requires p in k.chunks
    ensures k.chunks != map[]
  {
  }

  method OneStep(a: Dlmalloc.Arena, op: Op, b: Blocks) returns (b': Blocks)
    requires a.Valid() && Holds(a.mem, a.k, b) && Enabled(op, b)
    modifies a
    ensures a.Valid() && Holds(a.mem, a.k, b') && Step(op, b, b', old(a.k), a.refusals > old(a.refusals)) && a.refusals >= old(a.refusals)
  {
    hide Holds, Step, Served, Failed, Filed, NoLoose, Consolidated, Linked, Tagged, Shaped, Marked, Tiled;
    match op
    case DoMalloc(bytes) => b' := OneMalloc(a, bytes, b);
    case DoFree(m) => b' := OneFree(a, m, b);
    case DoRealloc(m, bytes) => b' := OneRealloc(a, m, bytes, b);
    case DoWrite(m, i, v) => b' := OneWrite(a, m, i, v, b);
  }

  /** Over any run, the arena stays sound and every step does to the program's blocks what it
      should: no operation touches another block, and realloc keeps the common part.  If the system
      refuses no memory during the run, no request fails. */
  method Run(a: Dlmalloc.Arena, ops: seq<Op>, b0: Blocks) returns (trace: seq<Blocks>, ghost books: seq<Book>, ghost refused: seq<bool>)
    requires a.Valid() && Holds(a.mem, a.k, b0)
    modifies a
    ensures a.Valid() && |trace| == |ops| + 1 && trace[0] == b0 && Holds(a.mem, a.k, trace[|ops|])
    ensures |books| == |ops| + 1 && books[0] == old(a.k) && books[|ops|] == a.k && |refused| == |ops|
    ensures forall i {:trigger ops[i]} :: 0 <= i < |ops| ==>
      if Enabled(ops[i], trace[i]) then Step(ops[i], trace[i], trace[i + 1], books[i], refused[i]) else trace[i + 1] == trace[i]
    ensures a.refusals == old(a.refusals) ==> forall i {:trigger ops[i]} :: 0 <= i < |ops| && Enabled(ops[i], trace[i]) ==>
      Served(ops[i], trace[i], trace[i + 1])
  {
    hide Holds, Step, Failed, Served, Filed, NoLoose, Consolidated, Linked, Tagged, Shaped, Marked, Tiled;
    trace, books, refused := [b0], [a.k], [];
    var b := b0;
    for n := 0 to |ops|
      invariant |trace| == n + 1 && trace[0] == b0 && trace[n] == b
      invariant |books| == n + 1 && books[0] == old(a.k) && books[n] == a.k && |refused| == n
      invariant a.Valid() && Holds(a.mem, a.k, b) && a.refusals >= old(a.refusals)
      invariant forall i {:trigger ops[i]} :: 0 <= i < n ==>
        if Enabled(ops[i], trace[i]) then Step(ops[i], trace[i], trace[i + 1], books[i], refused[i]) else trace[i + 1] == trace[i]
      invariant a.refusals == old(a.refusals) ==> forall i {:trigger ops[i]} :: 0 <= i < n && Enabled(ops[i], trace[i]) ==>
        Served(ops[i], trace[i], trace[i + 1])
    {
      ghost var before := a.refusals;
      if Enabled(ops[n], b) {
        ghost var b', k' := b, a.k;
        b := OneStep(a, ops[n], b);
        NotRefused(ops[n], b', b, k', a.refusals > before);
      }
      trace, books, refused := trace + [b], books + [a.k], refused + [a.refusals > before];
    }
  }

  lemma NotRefused(op: Op, b: Blocks, b': Blocks, k: Book, refused: bool)
    requires Enabled(op, b) && Step(op, b, b', k, refused)
    ensures !refused ==> Served(op, b, b')
  {
    hide Served;
  }
}
