/** The allocator of dlmalloc.c over one contiguous arena: malloc, free, realloc, the extension
    and the trimming of `top`. */
module Dlmalloc {
  import opened Wrappers
  import opened DlSizes
  import opened DlBlocks
  import opened DlBook
  import opened DlLists
  import opened DlChunks
  import opened DlMoves
  import opened DlFits
  import opened DlFrees
  import opened DlReallocs

  const PAGESZ := 4096
  const INITIAL_TOP := BinAt(0)

  class Arena {
    var mem: Memory
    var top: int
    var binblocks: nat
    // The first break sbrk returned, or -1.
    var sbrkBase: int
    // The current break of the process.
    var brk: int
    const trimThreshold: nat
    const topPad: nat

    ghost var k: Book
    /** How often the system has refused to move the break. */
    ghost var refusals: nat

    /** Before the first successful extension there are no chunks at all. */
    ghost predicate Valid()
      reads this
    {
      && k.top == top && NoLoose(k) && Consolidated(k) && Marked(binblocks, k.bins)
      && Shaped(k) && Filed(k) && Tagged(mem, k, NONE) && Linked(mem, k.bins)
      && 0 <= brk <= LONG_RANGE
      && if top == INITIAL_TOP then k.chunks == map[] && binblocks == 0 && -1 <= sbrkBase <= brk
         else Tiled(k) && 0 <= sbrkBase <= k.base && k.top in k.chunks && Next(k.chunks, k.top) == brk
    }

    /** No memory obtained yet; every bin header points to itself. */
    constructor (start: nat, trimThreshold: nat, topPad: nat)
      requires start <= LONG_RANGE
      ensures Valid() && k.chunks == map[] && this.trimThreshold == trimThreshold && this.topPad == topPad
    {
      mem := InitialTable();
      top := INITIAL_TOP;
      binblocks := 0;
      sbrkBase := -1;
      brk := start;
      this.trimThreshold := trimThreshold;
      this.topPad := topPad;
      k := InitialBook();
      new;
      InitialBookHolds();
    }

    /** Following `bk` from the header walks a list from its small end. */
    method LastFit(b: nat, nb: nat) returns (victim: int, ghost i: nat)
      requires Valid() && 1 <= b < NAV
      ensures victim == BinAt(b) <==> NoFitIn(k, b, nb)
      ensures victim != BinAt(b) ==>
        && IsFiled(k, victim, b, i) && nb <= k.chunks[victim].size == ChunkSize(mem, victim)
        && (2 <= b ==> LastFitAt(k, b, i, nb))
    {
      hide Shaped, Homed, Distinct, Sorted, Tagged, Linked, NoLoose, Consolidated, Marked, Tiled;
      ghost var h, s := BinAt(b), k.bins[b];
      ghost var j: int := |s|;
      RingStep(mem, k, b, |s| + 1);
      victim := Bk(mem, BinAt(b));
      while victim != BinAt(b) && ChunkSize(mem, victim) - nb < 0
        invariant 0 <= j <= |s| && victim == Node(h, s, j)
        invariant forall u {:trigger s[u]} :: j <= u < |s| ==> s[u] in k.chunks && k.chunks[s[u]].size < nb
        decreases j
      {
        ListedReads(mem, k, b, j);
        RingStep(mem, k, b, j);
        victim := Bk(mem, victim);
        j := j - 1;
      }
      ListedReads(mem, k, b, j);
      i := if j == 0 then 0 else j - 1;
    }

    /** `unlink`, then the use bit: chunk victim is handed out whole. */
    method Take(victim: int, ghost b: nat, ghost i: nat, ghost nb: nat)
      requires Valid() && IsFiled(k, victim, b, i) && nb <= k.chunks[victim].size < nb + MINSIZE
      modifies this`mem, this`k
      ensures Valid() && k == Taken(old(k), victim, b, i) && victim != NONE
      ensures Grants(old(k), k, victim, nb) && Keeps(old(mem), mem, old(k))
    {
      hide Shaped, Upward, Downward, Tagged, Linked, Homed, Listed, Distinct, Sorted, NoLoose, Consolidated, Marked, Keeps, UsedIn;
      ListedIsChunk(mem, k, victim, b, i);
      var victimSize := ChunkSize(mem, victim);
      mem := Unlink(mem, victim);
      mem := SetInuse(mem, victim + victimSize);
      TakeStep(old(mem), mem, k, victim, b, i, nb);
      MarkedAfterDetach(binblocks, k, victim, b, i);
      k := Taken(k, victim, b, i);
    }

    /** A listed size-bin chunk gives its first nb bytes; the rest is the new last remainder. */
    method SplitBinned(victim: int, nb: nat, ghost b: nat, ghost i: nat)
      requires Valid() && 2 <= b && Splittable(k, victim, b, i, nb)
      modifies this`mem, this`k
      ensures Valid() && Grants(old(k), k, victim, nb) && Keeps(old(mem), mem, old(k))
    {
      hide Shaped, Upward, Downward, Tagged, Linked, Homed, Listed, Distinct, Sorted, NoLoose, Consolidated, Marked, Keeps, UsedIn, Grants;
      hide Spliced, Unlink, Belongs, SplitTags, LinkLast, Filed;
      ListedIsChunk(mem, k, victim, b, i);
      var remainderSize := ChunkSize(mem, victim) - nb;
      var remainder := victim + nb;
      SplitWords(mem, k, victim, b, i, nb);
      mem := mem[victim + 4 := nb + 1];
      mem := Unlink(mem, victim);
      mem := LinkLast(mem, remainder);
      mem := mem[remainder + 4 := remainderSize + 1];
      mem := mem[remainder + remainderSize := remainderSize];
      SplitStep(old(mem), mem, k, victim, b, i, nb);
      MarkedAfterSplit(binblocks, k, victim, b, i, nb);
      k := SplitBook(k, victim, b, i, nb);
    }

    /** `last_remainder` gives its first nb bytes; its own list entry is simply overwritten. */
    method Resplit(victim: int, nb: nat)
      requires Valid() && Splittable(k, victim, 1, 0, nb)
      modifies this`mem, this`k
      ensures Valid() && Grants(old(k), k, victim, nb) && Keeps(old(mem), mem, old(k))
    {
      hide Shaped, Upward, Downward, Tagged, Linked, Homed, Listed, Distinct, Sorted, NoLoose, Consolidated, Marked, Keeps, UsedIn, Grants;
      hide Spliced, Unlink, Belongs, SplitTags, LinkLast, Filed;
      ListedIsChunk(mem, k, victim, 1, 0);
      var remainderSize := ChunkSize(mem, victim) - nb;
      var remainder := victim + nb;
      ResplitWords(mem, k, victim, nb);
      mem := mem[victim + 4 := nb + 1];
      mem := LinkLast(mem, remainder);
      mem := mem[remainder + 4 := remainderSize + 1];
      mem := mem[remainder + remainderSize := remainderSize];
      SplitStep(old(mem), mem, k, victim, 1, 0, nb);
      MarkedAfterSplit(binblocks, k, victim, 1, 0, nb);
      k := SplitBook(k, victim, 1, 0, nb);
    }

    /** The place in the order of sizes, in a bin that is not empty. */
    method LargePlace(p: int, s: nat, head: int, first: int) returns (bck: int, fwd: int, ghost i: nat)
      requires Core(mem, k, NONE) && p in k.chunks && k.chunks[p].st.Loose? && k.chunks[p].size == s
      requires 1 <= BinIndex(s) < NAV && head == BinAt(BinIndex(s)) && first == Fd(mem, head) && first != head
      ensures Place(k, p, BinIndex(s), i)
      ensures bck == Node(BinAt(BinIndex(s)), k.bins[BinIndex(s)], i)
      ensures fwd == Node(BinAt(BinIndex(s)), k.bins[BinIndex(s)], i + 1)
    {
      hide Upward, Downward, Tagged, Linked, Homed, Distinct, Sorted, Apart;
      ghost var b := BinIndex(s);
      bck, fwd, i := head, first, 0;
      RingStep(mem, k, b, 1);
      ListedReadsAll(mem, k, b);
      while fwd != bck && s < ChunkSize(mem, fwd)
        invariant i <= |k.bins[b]| && fwd == Node(BinAt(b), k.bins[b], i + 1)
        invariant forall j {:trigger k.bins[b][j]} :: 0 <= j < i ==> k.chunks[k.bins[b][j]].size > s
        decreases |k.bins[b]| - i
      {
        assert k.bins[b][i] == fwd;
        RingStep(mem, k, b, i + 2);
        fwd := Fd(mem, fwd);
        i := i + 1;
      }
      RingStep(mem, k, b, i + 1);
      bck := Bk(mem, fwd);
    }

    /** The search of `frontlink`: a small bin takes the chunk at its front, a large one in
        order of size; the bin's block is marked unless the bin shows that it is. */
    method FindPlace(p: int, s: nat) returns (bck: int, fwd: int, ghost i: nat)
      requires Core(mem, k, NONE) && Marked(binblocks, k.bins)
      requires p in k.chunks && k.chunks[p].st.Loose? && k.chunks[p].size == s
      modifies this`binblocks
      ensures Belongs(k, p, BinIndex(s), i)
      ensures bck == Node(BinAt(BinIndex(s)), k.bins[BinIndex(s)], i)
      ensures fwd == Node(BinAt(BinIndex(s)), k.bins[BinIndex(s)], i + 1)
      ensures Marked(binblocks, k.bins) && Bit(binblocks, BinIndex(s) / 4)
    {
      hide Upward, Downward, Tagged, Linked, Homed, Distinct, Sorted, Marked, Apart;
      var idx: nat;
      ghost var b := BinIndex(s);
      BinIndexMonotone(s, s);
      assert LegalSize(s);
      i := 0;
      if s < MAX_SMALLBIN_SIZE {
        SmallBinPlace(k, p);
        idx := SmallBinIndex(s);
        MarkBlock(binblocks, k.bins, idx);
        binblocks := SetBit(binblocks, idx / 4);
        bck := BinAt(idx);
        RingStep(mem, k, b, 1);
        fwd := Fd(mem, bck);
      } else {
        idx := BinIndex(s);
        bck := BinAt(idx);
        RingStep(mem, k, b, 1);
        fwd := Fd(mem, bck);
        ListedReadsAll(mem, k, b);
        if fwd == bck {
          MarkBlock(binblocks, k.bins, idx);
          binblocks := SetBit(binblocks, idx / 4);
        } else {
          UnmarkedIsEmpty(binblocks, k.bins, b);
          bck, fwd, i := LargePlace(p, s, bck, fwd);
        }
      }
      PlaceBelongs(k, p, i);
    }

    /** `frontlink` */
    method Frontlink(p: int, s: nat) returns (ghost i: nat)
      requires Core(mem, k, NONE) && Marked(binblocks, k.bins)
      requires p in k.chunks && k.chunks[p].st.Loose? && k.chunks[p].size == s && PrevSize(mem, p + s) == s
      modifies this`mem, this`k, this`binblocks
      ensures Belongs(old(k), p, BinIndex(s), i) && k == Attach(old(k), p, BinIndex(s), i)
      ensures Core(mem, k, NONE) && Marked(binblocks, k.bins) && Keeps(old(mem), mem, old(k))
    {
      hide Shaped, Upward, Downward, Tagged, Linked, Homed, Distinct, Sorted, Marked, Keeps, Apart, Spliced;
      var bck, fwd: int;
      bck, fwd, i := FindPlace(p, s);
      SpliceWords(mem, k, p, BinIndex(s), i);
      mem := mem[p + 12 := bck];
      mem := mem[p + 8 := fwd];
      mem := mem[bck + 8 := p];
      mem := mem[fwd + 12 := p];
      LinkStep(old(mem), mem, k, NONE, p, BinIndex(s), i);
      MarkedAfterAttach(binblocks, k, p, BinIndex(s), i);
      k := Attach(k, p, BinIndex(s), i);
    }

    /** First step of malloc: a chunk of the request's own bin (for a small request, of that
        bin or the next) that fits without leaving a chunk over.  Otherwise, the bin from
        which the later scan has to start. */
    method TakeExact(nb: nat) returns (victim: int, idx: nat)
      requires Valid() && LegalSize(nb)
      modifies this`mem, this`k
      ensures Valid() && Listed(old(k))
      ensures victim != NONE ==>
        BestFit(old(k), nb, victim) && Grants(old(k), k, victim, nb) && Keeps(old(mem), mem, old(k))
      ensures victim == NONE ==> mem == old(mem) && k == old(k) && ScanFrom(k, nb, idx)
    {
      hide Shaped, Upward, Downward, Tagged, Linked, Homed, Distinct, Sorted, NoLoose, Consolidated, Marked, Keeps, UsedIn, Grants, Apart;
      LowerBinsAreSmaller(k, nb);
      BinIndexMonotone(nb, nb);
      victim := NONE;
      ghost var i: nat;
      if IsSmallRequest(nb) {
        idx := SmallBinIndex(nb);
        var q := idx;
        victim := Bk(mem, BinAt(q));
        i := LastOf(mem, k, q);
        if victim == BinAt(q) {
          ScanOne(k, nb, q);
          q := q + 1;
          victim := Bk(mem, BinAt(q));
          i := LastOf(mem, k, q);
        }
        if victim != BinAt(q) {
          SmallBinSizes(k, nb, q, i);
          FirstIsBest(k, nb, q, i);
          Take(victim, q, i, nb);
          return;
        }
        ScanOne(k, nb, q);
        victim := NONE;
        idx := idx + 2;
      } else {
        idx := BinIndex(nb);
        victim, i := LastFit(idx, nb);
        if victim != BinAt(idx) {
          if ChunkSize(mem, victim) - nb >= MINSIZE {
            victim := NONE;
            return;
          }
          FirstIsBest(k, nb, idx, i);
          Take(victim, idx, i, nb);
          return;
        }
        victim := NONE;
        ScanOne(k, nb, idx);
        idx := idx + 1;
      }
    }

    /** Second step of malloc: the last remainder is cut or handed out whole; if it is too
        small, it goes to the bin of its size. */
    method TakeRemainder(nb: nat) returns (victim: int)
      requires Valid() && LegalSize(nb)
      modifies this`mem, this`k, this`binblocks
      ensures Valid() && Keeps(old(mem), mem, old(k))
      ensures victim != NONE ==>
        && old(k).bins[1] == [victim] && victim in old(k).chunks
        && nb <= old(k).chunks[victim].size && Grants(old(k), k, victim, nb)
      ensures victim == NONE ==>
        && k.bins[1] == []
        && (k == old(k) || (|old(k).bins[1]| == 1 && Refiled(old(k), k, old(k).bins[1][0], nb)))
    {
      hide Shaped, Upward, Downward, Tagged, Linked, Homed, Listed, Distinct, Sorted, NoLoose, Consolidated, Marked, Keeps, UsedIn, Grants, Apart;
      victim := Fd(mem, BinAt(1));
      OnlyRemainder(mem, k);
      if victim == BinAt(1) {
        victim := NONE;
        KeepsSelf(mem, k);
        return;
      }
      ListedIsChunk(mem, k, victim, 1, 0);
      var victimSize := ChunkSize(mem, victim);
      var remainderSize := victimSize - nb;
      if remainderSize >= MINSIZE {
        SplittableRemainder(k, victim, nb);
        Resplit(victim, nb);
        return;
      }
      LinksOf(mem, k, victim, 1, 0);
      assert ClearLast(mem) == Unlink(mem, victim);
      if remainderSize >= 0 {
        mem := ClearLast(mem);
        mem := SetInuse(mem, victim + victimSize);
        TakeStep(old(mem), mem, k, victim, 1, 0, nb);
        MarkedAfterDetach(binblocks, k, victim, 1, 0);
        k := Taken(k, victim, 1, 0);
        return;
      }
      UnlinkStep(mem, k, NONE, victim, 1, 0);
      FootSurvives(mem, k, victim, 1, 0);
      MarkedAfterDetach(binblocks, k, victim, 1, 0);
      mem := ClearLast(mem);
      k := Detach(k, victim, 1, 0);
      ghost var i := Frontlink(victim, victimSize);
      KeepsTrans(old(mem), ClearLast(old(mem)), mem, old(k), Detach(old(k), victim, 1, 0));
      RefileSettled(old(k), victim, BinIndex(victimSize), i);
      victim := NONE;
    }

    /** Goes on to the next marked block. */
    method SkipBlocks(nb: nat, from: nat) returns (idx: nat)
      requires Valid() && NoFitBelow(k, nb, from) && 4 <= from && from % 4 == 0 && AnyBitFrom(binblocks, from / 4)
      ensures NoFitBelow(k, nb, idx) && idx % 4 == 0 && from <= idx < NAV && Bit(binblocks, idx / 4)
    {
      hide Shaped, Upward, Downward, Tagged, Linked, Homed, Distinct, Sorted, NoLoose, Consolidated, Apart;
      hide Listed, NoFitBelow, Bit, Pow2;
      idx := from;
      var blk := idx / 4;
      AnyBitInRange(binblocks, blk);
      while !Bit(binblocks, blk)
        invariant from <= idx && idx == 4 * blk && AnyBitFrom(binblocks, blk) && blk < 32
        invariant NoFitBelow(k, nb, idx)
        decreases 32 - blk
      {
        EmptyBlock(binblocks, k, nb, idx);
        idx := idx + 4;
        blk := blk + 1;
        NextBit(binblocks, blk);
        AnyBitInRange(binblocks, blk);
      }
    }

    /** Looks through the bins of one block, from startidx on; the first chunk that fits is cut,
        or handed out whole. */
    method ScanBlock(nb: nat, startidx: nat) returns (victim: int)
      requires Valid() && LegalSize(nb) && k.bins[1] == [] && NoFitBelow(k, nb, startidx) && 4 <= startidx < NAV
      modifies this`mem, this`k
      ensures Valid() && Listed(old(k))
      ensures victim != NONE ==>
        BestFit(old(k), nb, victim) && Grants(old(k), k, victim, nb) && Keeps(old(mem), mem, old(k))
      ensures victim == NONE ==> mem == old(mem) && k == old(k) && NoFitBelow(k, nb, startidx / 4 * 4 + 4)
    {
      hide Shaped, Upward, Downward, Tagged, Linked, Homed, Listed, Distinct, Sorted, NoLoose, Consolidated, Marked, Keeps, UsedIn, Grants, Apart;
      hide NoFitBelow, NoFitIn, BestFit, LastFitAt;
      var idx := startidx;
      ghost var i: nat;
      while true
        invariant startidx <= idx < startidx / 4 * 4 + 4
        invariant Valid() && mem == old(mem) && k == old(k) && NoFitBelow(k, nb, idx)
        decreases startidx + 4 - idx
      {
        victim, i := LastFit(idx, nb);
        if victim != BinAt(idx) {
          FirstIsBest(k, nb, idx, i);
          ListedIsChunk(mem, k, victim, idx, i);
          var remainderSize := ChunkSize(mem, victim) - nb;
          if remainderSize >= MINSIZE {
            assert Apart(k) by { ReadyHasChunks(k); }
            SplitBinned(victim, nb, idx, i);
          } else {
            Take(victim, idx, i, nb);
          }
          return;
        }
        ScanOne(k, nb, idx);
        idx := idx + 1;
        if idx % 4 == 0 {
          break;
        }
      }
      victim := NONE;
    }

    /** Clears the bit of a block found empty, looking back over the bins the scan left out. */
    method ClearBlock(startidx: nat)
      requires Valid() && 4 <= startidx < NAV
      requires forall b {:trigger k.bins[b]} :: startidx <= b < startidx / 4 * 4 + 4 ==> k.bins[b] == []
      modifies this`binblocks
      ensures Valid() && binblocks <= old(binblocks) && (binblocks == 0 || old(binblocks) != 0)
    {
      hide Shaped, Upward, Downward, Tagged, Homed, Listed, Sorted, NoLoose, Consolidated, Marked, Apart, Linked;
      var blk := startidx / 4;
      var q := startidx;
      while true
        invariant binblocks == old(binblocks) && Valid()
        invariant 4 * blk <= q <= startidx
        invariant forall b {:trigger k.bins[b]} :: q <= b < 4 * blk + 4 ==> k.bins[b] == []
        decreases q
      {
        if q % 4 == 0 {
          ClearKeepsMarks(binblocks, k.bins, blk);
          binblocks := ClearBit(binblocks, blk);
          break;
        }
        q := q - 1;
        RingStep(mem, k, q, 1);
        ListedReads(mem, k, q, |k.bins[q]|);
        FirstOf(mem, k, q);
        if Fd(mem, BinAt(q)) != BinAt(q) {
          break;
        }
      }
    }

    /** Third step of malloc: the best fit among the bins, by blocks. */
    method SearchBins(nb: nat, start: nat) returns (victim: int)
      requires Valid() && LegalSize(nb) && k.bins[1] == [] && ScanFrom(k, nb, start)
      modifies this`mem, this`k, this`binblocks
      ensures Valid() && Listed(old(k))
      ensures victim != NONE ==>
        BestFit(old(k), nb, victim) && Grants(old(k), k, victim, nb) && Keeps(old(mem), mem, old(k))
      ensures victim == NONE ==> mem == old(mem) && k == old(k) && NoFitBelow(k, nb, NAV)
      ensures old(top == INITIAL_TOP) ==> binblocks == 0
    {
      hide Shaped, Upward, Downward, Tagged, Linked, Homed, Distinct, Listed, Sorted, NoLoose, Consolidated, Marked, Keeps, UsedIn, Grants, Apart;
      hide NoFitBelow, NoFitIn, BestFit, LastFitAt, Bit, Pow2, Tiled;
      victim := NONE;
      var idx := start;
      var blk := idx / 4;
      CompareFindsBit(binblocks, blk);
      if Pow2(blk) <= binblocks {
        if !Bit(binblocks, blk) {
          EmptyBlock(binblocks, k, nb, idx);
          idx := idx - idx % 4 + 4;
          blk := blk + 1;
          NextBit(binblocks, blk);
          idx := SkipBlocks(nb, idx);
          blk := idx / 4;
        }
        while true
          invariant start <= idx < NAV && blk == idx / 4
          invariant Valid() && mem == old(mem) && k == old(k) && NoFitBelow(k, nb, idx)
          invariant old(top == INITIAL_TOP) ==> binblocks == 0
          decreases NAV - idx
        {
          var startidx := idx;
          victim := ScanBlock(nb, startidx);
          if victim != NONE {
            return;
          }
          idx := startidx / 4 * 4 + 4;
          ScannedBlock(k, nb, start, startidx);
          ClearBlock(startidx);
          blk := blk + 1;
          CompareFindsBit(binblocks, blk);
          if Pow2(blk) <= binblocks {
            idx := SkipBlocks(nb, idx);
            blk := idx / 4;
          } else {
            break;
          }
        }
      }
      NoMarkNoFit(binblocks, k, nb, idx);
    }

    /** Asks the system for n more bytes (fewer, for a negative n); the old break comes back.
        The system may refuse, and does where addresses would leave the range of `long`. */
    method MoreCore(n: int) returns (old_brk: Option<int>)
      modifies this`brk, this`refusals
      ensures old_brk.None? ==> brk == old(brk) && refusals == old(refusals) + 1
      ensures old_brk.Some? ==> refusals == old(refusals) && old_brk.value == old(brk) && brk == old(brk) + n && 0 <= brk <= LONG_RANGE
    {
      var granted: bool := *;
      if granted && 0 <= brk + n <= LONG_RANGE {
        old_brk := Some(brk);
        brk := brk + n;
      } else {
        old_brk := None;
        refusals := refusals + 1;
      }
    }

    /** `chunksize(top)`: before the first extension `top` is its own bin, and the word read is
        `binblocks`. */
    function TopSize(): (s: int)
      reads this
    {
      if top == INITIAL_TOP then binblocks - binblocks % 4 else ChunkSize(mem, top)
    }

    /** The first memory obtained: its front is aligned, and its end is moved to the end of a page. */
    method NewTop(nb: nat, newBrk: nat, sbrkSize: nat)
      requires top == INITIAL_TOP && k.top == top && k.chunks == map[] && binblocks == 0 && -1 <= sbrkBase <= newBrk
      requires NoLoose(k) && Consolidated(k) && Marked(binblocks, k.bins) && Shaped(k) && Filed(k) && Tagged(mem, k, NONE) && Linked(mem, k.bins)
      requires brk == newBrk + sbrkSize && brk <= LONG_RANGE && LegalSize(nb) && nb + MINSIZE <= sbrkSize
      modifies this`mem, this`top, this`sbrkBase, this`brk, this`k, this`refusals
      ensures Valid() && UsedIn(old(k), k) && UsedIn(k, old(k)) && k.bins == old(k.bins) && Keeps(old(mem), mem, old(k))
      ensures refusals >= old(refusals) && (refusals == old(refusals) ==> TopSize() >= nb + MINSIZE)
    {
      hide Shaped, Upward, Downward, Tagged, Linked, Homed, Listed, Distinct, Sorted, NoLoose, Consolidated, Marked, Keeps, UsedIn, Apart;
      KeepsSelf(mem, k);
      if sbrkBase == -1 {
        sbrkBase := newBrk;
      }
      var base := newBrk;
      var correction := 0;
      var frontMisalign := (base + 2 * SIZE_SZ) % ALIGNMENT;
      if frontMisalign > 0 {
        correction := ALIGNMENT - frontMisalign;
        base := base + correction;
      }
      correction := correction + (PAGESZ - (base + sbrkSize) % PAGESZ);
      var secondBrk := MoreCore(correction);
      if secondBrk.None? {
        return;
      }
      var topSize := secondBrk.value - base + correction;
      PageEnd(newBrk, sbrkSize);
      FirstTop(mem, k, base, topSize);
      top := base;
      mem := mem[top + 4 := topSize + 1];
      k := Book(base, base, map[base := Chunk(topSize, 0, Top)], k.bins);
      ReadyTop(mem, k);
    }

    /** `malloc_extend_top`, when nobody else moves the break. */
    method MallocExtendTop(nb: nat)
      requires Valid() && LegalSize(nb)
      modifies this`mem, this`top, this`sbrkBase, this`brk, this`k, this`refusals
      ensures Valid() && UsedIn(old(k), k) && UsedIn(k, old(k)) && k.bins == old(k.bins)
      ensures Keeps(old(mem), mem, old(k))
      ensures old(top != INITIAL_TOP) ==> top == old(top)
      ensures refusals >= old(refusals) && (refusals == old(refusals) ==> TopSize() >= nb + MINSIZE)
    {
      hide Shaped, Upward, Downward, Tagged, Linked, Homed, Listed, Distinct, Sorted, NoLoose, Consolidated, Marked, Keeps, UsedIn, Apart;
      KeepsSelf(mem, k);
      var oldTop := top;
      var oldTopSize := TopSize();
      var oldEnd := oldTop + oldTopSize;
      var sbrkSize := nb + topPad + MINSIZE;
      if sbrkBase != -1 {
        sbrkSize := RoundUp(sbrkSize);
      }
      var newBrk := MoreCore(sbrkSize);
      if newBrk.None? || (newBrk.value < oldEnd && oldTop != INITIAL_TOP) {
        ReadyTop(mem, k);
        return;
      }
      if newBrk.value == oldEnd {
        ReadyTop(mem, k);
        var topSize := sbrkSize + oldTopSize;
        RoundUpIsLegal(nb + topPad + MINSIZE);
        LegalSum(sbrkSize, oldTopSize);
        ResizeTop(mem, k, topSize);
        mem := mem[top + 4 := topSize + 1];
        k := Resized(k, topSize);
      } else {
        ReadyTop(mem, k);
        NewTop(nb, newBrk.value, sbrkSize);
      }
    }

    /** Last step of malloc: the front of `top`, extended first if it would not leave a chunk. */
    method TakeTop(nb: nat) returns (victim: int)
      requires Valid() && LegalSize(nb)
      modifies this`mem, this`top, this`sbrkBase, this`brk, this`k, this`refusals
      ensures Valid() && Keeps(old(mem), mem, old(k))
      ensures victim != NONE ==> Grants(old(k), k, victim, nb) && k.chunks[victim].size == nb
      ensures victim == NONE ==> UsedIn(old(k), k) && UsedIn(k, old(k)) && refusals > old(refusals) && SmallTop(old(k), nb)
      ensures refusals >= old(refusals)
      ensures victim != NONE ==> victim !in old(k).chunks || victim == old(k).top
      ensures old(TopSize()) >= nb + MINSIZE ==> victim == old(top) && top == victim + nb && brk == old(brk)
    {
      hide Shaped, Upward, Downward, Tagged, Linked, Homed, Listed, Distinct, Sorted, NoLoose, Consolidated, Marked, Keeps, UsedIn, Grants, Apart;
      KeepsSelf(mem, k);
      ReadyTop(mem, k);
      var remainderSize := TopSize() - nb;
      if remainderSize < MINSIZE {
        TopIsSmall(k, TopSize(), nb);
        MallocExtendTop(nb);
        ReadyTop(mem, k);
        remainderSize := TopSize() - nb;
        if remainderSize < MINSIZE {
          return NONE;
        }
      }
      ghost var m1, k1 := mem, k;
      TopStep(mem, k, nb);
      victim := top;
      mem := mem[victim + 4 := nb + 1];
      top := victim + nb;
      mem := mem[top + 4 := remainderSize + 1];
      k := Cut(k, victim, nb, Used);
      KeepsTrans(old(mem), m1, mem, old(k), k1);
      GrantsOver(old(k), k1, k, victim, nb);
    }

    /** `mALLOc`: the address of the user part of a chunk, or 0. */
    method Malloc(bytes: nat) returns (r: int)
      requires Valid() && bytes < SIZE_T_RANGE
      modifies this
      ensures refusals >= old(refusals)
      ensures Valid() && Listed(old(k)) && Keeps(old(mem), mem, old(k))
      ensures r == 0 ==>
        UsedIn(old(k), k) && UsedIn(k, old(k)) && refusals > old(refusals) && Exhausted(old(k), Request2Size(bytes))
      ensures r != 0 ==> r % ALIGNMENT == 0 && Grants(old(k), k, r - 8, Request2Size(bytes))
      ensures r != 0 && Paddable(bytes) ==> bytes <= Usable(k, r - 8)
      ensures r != 0 ==> Serves(old(k), Request2Size(bytes), r - 8)
    {
      hide Shaped, Upward, Downward, Tagged, Linked, Homed, Listed, Distinct, Sorted, NoLoose, Consolidated, Marked, Keeps, UsedIn, Grants, Apart;
      hide NoFitBelow, BestFit, Tiled, ScanFrom, Refiled, Request2Size, LegalSize, Serves, Exhausted, SmallTop;
      var nb := Request2Size(bytes);
      PaddingHoldsTheRequest(bytes);
      RequestIsLegal(bytes);
      var victim, idx := TakeExact(nb);
      if victim != NONE {
        BestServes(old(k), nb, victim);
        r := UserPart(victim, nb, old(k));
        return;
      }
      ghost var k0 := k;
      victim := TakeRemainder(nb);
      if victim != NONE {
        RemainderServes(old(k), nb, victim);
        r := UserPart(victim, nb, old(k));
        return;
      }
      AfterRemainder(k0, k, nb, idx);
      ghost var m1, k1 := mem, k;
      victim := SearchBins(nb, idx);
      if victim != NONE {
        BestBefore(k0, k1, nb, victim);
        GrantsOver(k0, k1, k, victim, nb);
        KeepsTrans(old(mem), m1, mem, k0, k1);
        BestServes(k0, nb, victim);
        r := UserPart(victim, nb, old(k));
        return;
      }
      NoFitBefore(k0, k1, nb);
      victim := TakeTop(nb);
      KeepsTrans(old(mem), m1, mem, k0, k1);
      if victim == NONE {
        UsedTrans(k0, k1, k);
        NothingLeft(k0, k1, nb);
        return 0;
      }
      GrantsOver(k0, k1, k, victim, nb);
      TopServes(k0, k1, nb, victim);
      r := UserPart(victim, nb, old(k));
    }

    /** `chunk2mem` */
    method UserPart(victim: int, ghost nb: nat, ghost k0: Book) returns (r: int)
      requires Valid() && Grants(k0, k, victim, nb)
      ensures r == victim + 8 && r != 0 && r % ALIGNMENT == 0 && nb - SIZE_SZ <= Usable(k, victim)
    {
      hide Tagged, Linked, Filed, NoLoose, Consolidated, Marked, UsedIn, Tiled;
      assert victim in k.chunks;
      r := victim + 2 * SIZE_SZ;
    }

    /** Inside `fREe`: chunk p is loose and no other is; v is the memory, or what it would be
        with the last-remainder list empty. */
    ghost predicate Loosened(v: Memory, p: int, x: int)
      reads this
    {
      && Core(v, k, x) && (x == NONE || x == p) && Near(k, p)
      && p in k.chunks && k.chunks[p].st.Loose? && p != k.top
      && Marked(binblocks, k.bins)
      && k.top == top && top != INITIAL_TOP && 0 <= sbrkBase <= k.base
      && k.top in k.chunks && Next(k.chunks, k.top) == brk && 0 <= brk <= LONG_RANGE
    }

    ghost predicate Shadows(v: Memory, p: int, islr: bool)
      reads this
    {
      if islr then |k.bins| == NAV && k.bins[1] == [] && Spliced(v, mem, p, BinAt(1), BinAt(1)) else v == mem
    }

    /** Consolidates backward: p0 joins the free chunk below it. */
    method FreeBackward(p0: int, sz0: nat) returns (p: int, sz: nat, islr: bool, ghost v: Memory)
      requires Loosened(mem, p0, NONE) && k.chunks[p0].size == sz0 && PBit(k, p0) == 0
      modifies this`mem, this`k
      ensures Loosened(v, p, p) && Shadows(v, p, islr) && k.chunks[p].size == sz && PBit(k, p) == 1
      ensures p + sz == p0 + sz0
      ensures UsedIn(old(k), k) && UsedIn(k, old(k)) && Keeps(old(mem), mem, old(k))
      ensures SameAbove(old(k), k, p0)
    {
      hide Shaped, Upward, Downward, Tagged, Linked, Homed, Listed, Distinct, Sorted, NoLoose, Consolidated, Marked, Keeps, UsedIn, Apart, Near, Frees;
      ghost var q, b, i := FreeBelow(mem, k, NONE, p0);
      var prevsz := PrevSize(mem, p0);
      p := p0 - prevsz;
      sz := sz0 + prevsz;
      TakeBelowStep(mem, k, NONE, p, p0, b, i);
      TakeBelowChunks(k, p, p0, b, i, k.top);
      AboveTaken(k, TakeBelow(k, p, p0, b, i), p, p0, b, i);
      MarkedAfterDetach(binblocks, k, p, b, i);
      FdTellsLast(mem, k, p, b, i);
      v := Unlink(mem, p);
      if Fd(mem, p) == BinAt(1) {
        islr := true;
        StillLast(mem, k, NONE, p);
        KeepsSelf(mem, k);
      } else {
        islr := false;
        mem := Unlink(mem, p);
      }
      k := TakeBelow(k, p, p0, b, i);
    }

    /** Consolidates forward: p takes in the free chunk above it. */
    method FreeForward(p: int, sz0: nat, next: int, nextsz: nat, islr0: bool, ghost v0: Memory, ghost x: int)
      returns (sz: nat, islr: bool, ghost v: Memory)
      requires Loosened(v0, p, x) && Shadows(v0, p, islr0) && k.chunks[p].size == sz0
      requires next == p + sz0 && next in k.chunks && k.chunks[next].st.Free? && k.chunks[next].size == nextsz
      modifies this`mem, this`k
      ensures Loosened(v, p, p) && Shadows(v, p, islr) && k.chunks[p].size == sz && PBit(k, p) == old(PBit(k, p))
      ensures Next(k.chunks, p) in k.chunks && k.chunks[Next(k.chunks, p)].st.Used?
      ensures UsedIn(old(k), k) && UsedIn(k, old(k)) && Keeps(old(mem), mem, old(k))
    {
      hide Shaped, Upward, Downward, Tagged, Linked, Homed, Listed, Distinct, Sorted, NoLoose, Consolidated, Marked, Keeps, UsedIn, Apart, Near, Frees;
      ghost var b, i := FreeAbove(v0, k, x, p, next);
      TakeAboveStep(v0, k, x, next, p, b, i);
      TakeAboveChunks(k, next, p, b, i, k.top);
      MarkedAfterDetach(binblocks, k, next, b, i);
      FdTellsLast(v0, k, next, b, i);
      sz := sz0 + nextsz;
      v := Unlink(v0, next);
      islr := islr0;
      if !islr && Fd(mem, next) == BinAt(1) {
        islr := true;
        RelinkLast(mem, k, x, p, next);
        LinkLastKeeps(mem, k, p);
        mem := LinkLast(mem, p);
      } else {
        if islr {
          ShadowUnlink(v0, mem, k, x, p, next, b, i);
          ShadowUnlinkKeeps(v0, mem, k, x, p, next, b, i);
        }
        mem := Unlink(mem, next);
      }
      k := TakeAbove(k, next, p, b, i);
    }

    /** Writes the header and foot of the loose chunk and lists it. */
    method FileLoose(p: int, sz: nat, islr: bool, ghost v: Memory, ghost x: int)
      requires Loosened(v, p, x) && Shadows(v, p, islr) && k.chunks[p].size == sz && PBit(k, p) == 1
      requires Next(k.chunks, p) in k.chunks && k.chunks[Next(k.chunks, p)].st.Used?
      modifies this`mem, this`k, this`binblocks
      ensures Valid() && UsedIn(old(k), k) && UsedIn(k, old(k)) && Keeps(old(mem), mem, old(k))
    {
      hide Shaped, Upward, Downward, Tagged, Linked, Homed, Listed, Distinct, Sorted, NoLoose, Consolidated, Marked, Keeps, UsedIn, Apart, Near, Frees;
      hide Spliced;
      CloseChunk(v, k, x, p, sz);
      CloseKeeps(mem, k, p, sz);
      ghost var v' := v[p + 4 := sz + 1][p + sz := sz];
      LoosePositive(k, p);
      if islr {
        ShadowWrite(v, mem, p, p + 4, sz + 1);
        ShadowWrite(v[p + 4 := sz + 1], mem[p + 4 := sz + 1], p, p + sz, sz);
      }
      mem := mem[p + 4 := sz + 1];
      mem := mem[p + sz := sz];
      ghost var m1 := mem;
      if islr {
        LastBelongs(k, p);
        LinkStep(v', mem, k, NONE, p, 1, 0);
        SettleFree(k, p, 1, 0);
        MarkedAfterAttach(binblocks, k, p, 1, 0);
        LinkedUsed(k, p, 1, 0);
        k := Attach(k, p, 1, 0);
      } else {
        ghost var i := Frontlink(p, sz);
        SettleFree(old(k), p, BinIndex(sz), i);
        LinkedUsed(old(k), p, BinIndex(sz), i);
        KeepsTrans(old(mem), m1, mem, old(k), old(k));
      }
    }

    /** The second half of `fREe`: the chunk goes to a bin, or becomes the last remainder. */
    method FreeToBin(p: int, hd: int, sz: nat, next: int, nextsz: nat)
      requires Valid() && p in k.chunks && k.chunks[p].st.Used? && hd == Head(mem, p) && sz == k.chunks[p].size
      requires next == p + sz && next != top && next in k.chunks && nextsz == k.chunks[next].size
      modifies this`mem, this`k, this`binblocks
      ensures Valid() && Frees(old(k), k, p) && Keeps(old(mem), mem, k)
    {
      hide Shaped, Upward, Downward, Tagged, Linked, Homed, Listed, Distinct, Sorted, NoLoose, Consolidated, Marked, Keeps, UsedIn, Apart, Near, Frees;
      hide Spliced;
      UsedIsReady(k, p);
      HeadReads(mem, k, NONE, p);
      HeadReads(mem, k, NONE, next);
      ReleaseNear(k, p);
      UseBitStep(mem, k, p, Loose);
      ReleasedChunks(k, p);
      mem := mem[next + 4 := nextsz];
      k := Restatus(k, p, Loose);
      ghost var m1, k1 := mem, k;
      KeepsSelf(mem, k);
      var q, s, islr := p, sz, false;
      ghost var v, x := mem, NONE;
      if hd % 2 == 0 {
        q, s, islr, v := FreeBackward(p, sz);
        x := q;
        NextSurvives(k1, k, p, next);
      }
      LoosePositive(k, q);
      NextStatus(v, k, x, q, next);
      if islr {
        ShadowHead(v, mem, k, q, next + nextsz);
      }
      ghost var m2, k2 := mem, k;
      if !PrevInuse(mem, next + nextsz) {
        s, islr, v := FreeForward(q, s, next, nextsz, islr, v, x);
        x := q;
      } else {
        KeepsSelf(mem, k);
      }
      ghost var m3, k3 := mem, k;
      FileLoose(q, s, islr, v, x);
      KeepsTrans(m1, m2, m3, k1, k2);
      UsedTrans(k1, k2, k3);
      KeepsTrans(m1, m3, mem, k1, k3);
      UsedTrans(k1, k3, k);
      FreesKeeps(old(mem), m1, mem, old(k), k1, k, p);
    }

    /** The first half of `fREe`: the chunk borders `top` and joins it. */
    method FreeIntoTop(p0: int, hd: int, sz0: nat, nextsz: nat)
      requires Valid() && p0 in k.chunks && k.chunks[p0].st.Used? && hd == Head(mem, p0) && sz0 == k.chunks[p0].size
      requires p0 + sz0 == top && nextsz == k.chunks[top].size
      modifies this`mem, this`k, this`top
      ensures Valid() && Frees(old(k), k, p0) && Keeps(old(mem), mem, k) && top != INITIAL_TOP
    {
      hide Shaped, Upward, Downward, Tagged, Linked, Homed, Listed, Distinct, Sorted, NoLoose, Consolidated, Marked, Keeps, UsedIn, Apart, Near, Frees;
      var p := p0;
      var sz := sz0 + nextsz;
      UsedIsReady(k, p0);
      HeadReads(mem, k, NONE, p0);
      SettledNear(k, p0);
      IntoTopStep(mem, k, NONE, p0);
      IntoTopChunks(k, p0, p0);
      ghost var k1 := IntoTop(k, p0);
      ghost var k2 := k1;
      KeepsSelf(mem, k1);
      if hd % 2 == 0 {
        ghost var q, b, i := FreeBelow(mem, k1, p0, p0);
        var prevsz := PrevSize(mem, p0);
        p := p0 - prevsz;
        sz := sz + prevsz;
        TakeBelowStep(mem, k1, p0, p, p0, b, i);
        TakeBelowChunks(k1, p, p0, b, i, p);
        MarkedAfterDetach(binblocks, k1, p, b, i);
        TakeBelowBins(k1, p, p0, b, i);
        mem := Unlink(mem, p);
        k2 := TakeBelow(k1, p, p0, b, i);
      }
      HeadStep(mem, k2, p, p, sz + 1);
      HeadWriteKeeps(mem, k2, p, sz + 1);
      SettleTop(k2);
      LoosePositive(k2, p);
      ghost var m2 := mem;
      mem := mem[p + 4 := sz + 1];
      top := p;
      KeepsTrans(old(mem), m2, mem, k1, k2);
      KeepsFewer(old(mem), mem, k1, k2);
      FreesOver(k, k1, k2, p0);
      k := k2;
    }

    /** `malloc_trim`: gives whole pages above `pad` bytes back to the system. */
    method MallocTrim(pad: nat) returns (r: bool)
      requires Valid()
      modifies this`mem, this`k, this`brk, this`refusals
      ensures refusals >= old(refusals)
      ensures Valid() && UsedIn(old(k), k) && UsedIn(k, old(k)) && Keeps(old(mem), mem, k) && k.top == old(k.top)
      ensures r ==>
        && brk <= old(brk) - PAGESZ && (old(brk) - brk) % PAGESZ == 0
        && k.top in k.chunks && pad + MINSIZE < k.chunks[k.top].size
      ensures !r ==> mem == old(mem) && k == old(k) && brk == old(brk)
    {
      hide Shaped, Upward, Downward, Tagged, Linked, Homed, Listed, Distinct, Sorted, NoLoose, Consolidated, Marked, Keeps, UsedIn, Apart, Near, Frees;
      KeepsSelf(mem, k);
      ReadyTop(mem, k);
      var topSize := TopSize();
      var extra := ((topSize - pad - MINSIZE + (PAGESZ - 1)) / PAGESZ - 1) * PAGESZ;
      if extra < PAGESZ {
        return false;
      }
      TrimLeaves(topSize, pad);
      if brk != top + topSize {
        return false;
      }
      var newBrk := MoreCore(-extra);
      if newBrk.None? {
        var left := brk - top;
        if left >= MINSIZE {
          SameHead(mem, k);
          mem := mem[top + 4 := left + 1];
        }
        return false;
      }
      ResizeTop(mem, k, topSize - extra);
      mem := mem[top + 4 := topSize - extra + 1];
      k := Resized(k, topSize - extra);
      KeepsFewer(old(mem), mem, old(k), k);
      return true;
    }

    /** `fREe`, of 0 or of a block in use. */
    method Free(m: int)
      requires Valid() && (m == 0 || (m - 8 in k.chunks && k.chunks[m - 8].st.Used?))
      modifies this
      ensures refusals >= old(refusals)
      ensures Valid()
      ensures m == 0 ==> mem == old(mem) && k == old(k)
      ensures m != 0 ==> Frees(old(k), k, m - 8)
      ensures Keeps(old(mem), mem, k)
    {
      hide Shaped, Upward, Downward, Tagged, Linked, Homed, Listed, Distinct, Sorted, NoLoose, Consolidated, Marked, Keeps, UsedIn, Apart, Near, Frees;
      KeepsSelf(mem, k);
      if m == 0 {
        return;
      }
      var p := m - 2 * SIZE_SZ;
      var hd := Head(mem, p);
      UsedIsReady(k, p);
      NextInBook(k, p);
      HeadReads(mem, k, NONE, p);
      HeadReads(mem, k, NONE, Next(k.chunks, p));
      var sz := hd - hd % 2;
      var next := p + sz;
      var nextsz := ChunkSize(mem, next);
      if next == top {
        FreeIntoTop(p, hd, sz, nextsz);
        if TopSize() >= trimThreshold {
          ghost var m1, k1 := mem, k;
          var trimmed := MallocTrim(topPad);
          FreesOver(old(k), k1, k, p);
          KeepsFewer(old(mem), m1, k1, k);
          KeepsSelf(mem, k);
          KeepsTrans(old(mem), m1, mem, k, k);
        }
        return;
      }
      FreeToBin(p, hd, sz, next, nextsz);
    }

    /** The parts of `Valid` that hold inside realloc too. */
    ghost predicate Grounded()
      reads this
    {
      && Marked(binblocks, k.bins) && k.top == top && top != INITIAL_TOP && 0 <= sbrkBase <= k.base
      && k.top in k.chunks && Next(k.chunks, k.top) == brk && 0 <= brk <= LONG_RANGE
    }

    /** realloc's old block and the neighbours it took in form chunk p; its header is stale,
        but for the use bit of the chunk below. */
    ghost predicate Merged(p: int, size: nat)
      reads this
    {
      && Core(mem, k, p) && Mergeable(k, p) && k.chunks[p].size == size
      && Head(mem, p) % 2 == PBit(k, p) && Grounded()
    }

    ghost predicate Growing(p: int, size: nat, nb: nat)
      reads this
    {
      p in k.chunks && k.chunks[p].st.Used? && k.chunks[p].size == size && size < nb && LegalSize(nb)
    }

    /** What realloc promises for the block at p0 in m0 and k0, now at p: nothing else moved,
        and the block keeps its words up to the smaller of the two sizes. */
    ghost predicate Moved(m0: Memory, k0: Book, p0: int, p: int, nb: nat)
      reads this
    {
      && Others(k0, p0, k, p) && Keeps(m0, mem, Without(k0, p0))
      && p0 in k0.chunks && p in k.chunks && k.chunks[p].st.Used? && nb <= k.chunks[p].size
      && SameUser(m0, p0, mem, p, if k0.chunks[p0].size < k.chunks[p].size then k0.chunks[p0].size else k.chunks[p].size)
    }

    /** The end of `rEALLOc`: what exceeds the request is split off and freed. */
    method FinishSplit(newp: int, newsize: nat, nb: nat)
      requires Merged(newp, newsize) && LegalSize(nb) && nb <= newsize
      modifies this
      ensures refusals >= old(refusals)
      ensures Valid() && Moved(old(mem), old(k), newp, newp, nb) && k.chunks[newp].size <= newsize
    {
      hide Shaped, Upward, Downward, Tagged, Linked, Homed, Listed, Distinct, Sorted, NoLoose, Consolidated, Marked, Keeps, UsedIn, Apart, Near, Frees, Others, SameUser;
      assert MINSIZE <= nb;
      hide LegalSize;
      var bit := Head(mem, newp) % 2;
      SizeIsLegal(k, newp);
      if newsize - nb >= MINSIZE {
        var remainder := newp + nb;
        var remainderSize := newsize - nb;
        assert Cuttable(k, newp, nb, Used);
        CutUseStep(mem, k, newp, nb);
        CutUseWords(mem, k, newp, nb, bit);
        CutUseSettles(k, newp, nb);
        CutUseChunks(k, newp, nb, k.top);
        TopSurvives(k, newp);
        mem := mem[newp + 4 := nb + bit];
        mem := mem[remainder + 4 := remainderSize + 1];
        mem := SetInuse(mem, remainder + remainderSize);
        k := CutUse(k, newp, nb);
        ghost var m1, k1 := mem, k;
        UserPositive(k, remainder);
        Free(remainder + 8);
        CutUseOthers(old(k), newp, nb, k);
        OthersWithout(old(k), newp, k, newp);
        WithoutKeeps(m1, mem, k, newp);
        KeepsFewer(m1, mem, Without(k, newp), Without(old(k), newp));
        KeepsTrans(old(mem), m1, mem, Without(old(k), newp), Without(old(k), newp));
        KeepsIsSameUser(m1, mem, k, newp);
        SameUserTrans(old(mem), newp, m1, newp, mem, newp, nb);
      } else {
        UseWhole(mem, k, newp);
        UseSettles(k, newp);
        TopSurvives(k, newp);
        mem := mem[newp + 4 := newsize + bit];
        mem := SetInuse(mem, newp + newsize);
        k := Restatus(k, newp, Used);
      }
    }

    /** `MALLOC_COPY`, a word at a time from the front. */
    method Copy(dst: int, src: int, n: nat, ghost p: int, ghost x: int)
      requires Core(mem, k, x) && p in k.chunks && !k.chunks[p].st.Free?
      requires dst == p + 8 && dst + 4 * n <= p + k.chunks[p].size && (dst <= src || src + 4 * n <= dst)
      modifies this`mem
      ensures Core(mem, k, x)
      ensures Copied(old(mem), src - 8, mem, p, n) && OnlyWithin(old(mem), mem, dst, dst + 4 * n)
    {
      hide Shaped, Upward, Downward, Tagged, Linked, Homed, Listed, Distinct, Sorted, Apart, Copied, OnlyWithin;
      var i := 0;
      CopyNone(mem, p, src - 8);
      while i < n
        invariant 0 <= i <= n && Core(mem, k, x)
        invariant Copied(old(mem), src - 8, mem, p, i) && OnlyWithin(old(mem), mem, dst, dst + 4 * i)
      {
        StillOriginal(old(mem), mem, dst, dst + 4 * i, src + 4 * i);
        SpareInterior(k, x, p, dst + 4 * i);
        SpareWrite(mem, k, x, dst + 4 * i, Rd(mem, src + 4 * i));
        CopyOne(mem, old(mem), p, src - 8, i, dst + 4 * i);
        mem := mem[dst + 4 * i := Rd(mem, src + 4 * i)];
        i := i + 1;
      }
    }

    /** Forward into the free chunk above. */
    method GrowIntoNext(oldp: int, oldsize: nat, next: int, nextsize: nat, nb: nat)
      requires Valid() && Growing(oldp, oldsize, nb)
      requires next == oldp + oldsize && next in k.chunks && k.chunks[next].st.Free? && k.chunks[next].size == nextsize
      requires nb <= oldsize + nextsize
      modifies this
      ensures refusals >= old(refusals)
      ensures Valid() && Moved(old(mem), old(k), oldp, oldp, nb)
    {
      hide Shaped, Upward, Downward, Tagged, Linked, Homed, Listed, Distinct, Sorted, NoLoose, Consolidated, Marked, Keeps, UsedIn, Apart, Near, Frees, Others, SameUser, Copied, OnlyWithin;
      hide Unlink, TakeBelow, TakeAbove, IntoTop, Cut, Detach, Join;
      ghost var k0, m0 := k, mem;
      UsedIsReady(k, oldp);
      SettledNear(k, oldp);
      ghost var b, i := FreeAbove(mem, k, NONE, oldp, next);
      TakeAboveStep(mem, k, NONE, next, oldp, b, i);
      TakeAboveChunks(k, next, oldp, b, i, oldp);
      TakeAboveChunks(k, next, oldp, b, i, k.top);
      MarkedAfterDetach(binblocks, k, next, b, i);
      TakeAboveBins(k, next, oldp, b, i);
      UnlinkHead(mem, k, NONE, next, b, i, oldp);
      HeadReads(mem, k, NONE, oldp);
      WithoutKeeps(mem, Unlink(mem, next), k, oldp);
      KeepsIsSameUser(mem, Unlink(mem, next), k, oldp);
      mem := Unlink(mem, next);
      k := TakeAbove(k, next, oldp, b, i);
      ghost var k1, m1 := k, mem;
      FinishSplit(oldp, oldsize + nextsize, nb);
      MovedAfter(m0, k0, oldp, m1, k1, oldp, mem, k, oldp, nb, oldsize);
    }

    /** Backward into the free chunk below; the block moves down. */
    method GrowIntoPrev(oldp: int, oldsize: nat, nb: nat) returns (newp: int)
      requires Valid() && Growing(oldp, oldsize, nb) && PBit(k, oldp) == 0
      requires nb <= oldsize + PrevSize(mem, oldp)
      modifies this
      ensures refusals >= old(refusals)
      ensures Valid() && Moved(old(mem), old(k), oldp, newp, nb)
    {
      hide Shaped, Upward, Downward, Tagged, Linked, Homed, Listed, Distinct, Sorted, NoLoose, Consolidated, Marked, Keeps, UsedIn, Apart, Near, Frees, Others, SameUser, Copied, OnlyWithin;
      hide Unlink, TakeBelow, TakeAbove, IntoTop, Cut, Detach, Join;
      ghost var k0, m0 := k, mem;
      UsedIsReady(k, oldp);
      SettledNear(k, oldp);
      ghost var q, b, i := FreeBelow(mem, k, NONE, oldp);
      var prevsize := PrevSize(mem, oldp);
      newp := oldp - prevsize;
      TakeBelowStep(mem, k, NONE, newp, oldp, b, i);
      TakeBelowChunks(k, newp, oldp, b, i, newp);
      TakeBelowChunks(k, newp, oldp, b, i, k.top);
      MarkedAfterDetach(binblocks, k, newp, b, i);
      TakeBelowBins(k, newp, oldp, b, i);
      UnlinkHead(mem, k, NONE, newp, b, i, newp);
      FreeHead(mem, k, newp);
      WithoutKeeps(mem, Unlink(mem, newp), k, oldp);
      KeepsIsSameUser(mem, Unlink(mem, newp), k, oldp);
      SizeIsLegal(k, oldp);
      mem := Unlink(mem, newp);
      k := TakeBelow(k, newp, oldp, b, i);
      ghost var k1, m1 := k, mem;
      var words := (oldsize - SIZE_SZ) / 4;
      CopyWords(oldsize);
      BelowSizes(k0, newp);
      Copy(newp + 8, oldp + 8, words, newp, newp);
      CopiedUser(m0, oldp, m1, newp, mem, words);
      CopyGlue(m0, k0, oldp, m1, k1, newp, mem, newp + 8 + 4 * words);
      ghost var m2 := mem;
      FinishSplit(newp, oldsize + prevsize, nb);
      MovedAfter(m0, k0, oldp, m2, k1, newp, mem, k, newp, nb, oldsize);
    }

    /** Forward into `top`, if that leaves a chunk there. */
    method GrowIntoTop(oldp: int, oldsize: nat, nextsize: nat, nb: nat)
      requires Valid() && Growing(oldp, oldsize, nb)
      requires oldp + oldsize == top && k.chunks[k.top].size == nextsize && nb + MINSIZE <= oldsize + nextsize
      modifies this`mem, this`k, this`top
      ensures Valid() && Moved(old(mem), old(k), oldp, oldp, nb)
    {
      hide Shaped, Upward, Downward, Tagged, Linked, Homed, Listed, Distinct, Sorted, NoLoose, Consolidated, Marked, Keeps, UsedIn, Apart, Near, Frees, Others, SameUser, Copied, OnlyWithin;
      UsedIsReady(k, oldp);
      SettledNear(k, oldp);
      HeadReads(mem, k, NONE, oldp);
      IntoTopStep(mem, k, NONE, oldp);
      IntoTopChunks(k, oldp, oldp);
      var newsize := oldsize + nextsize;
      ghost var k1 := IntoTop(k, oldp);
      CutTopStep(mem, k1, oldp, nb);
      top := oldp + nb;
      SizeIsLegal(k, oldp);
      ghost var m0 := mem;
      mem := mem[top + 4 := newsize - nb + 1];
      mem := mem[oldp + 4 := nb + Head(mem, oldp) % 2];
      ghost var k2 := Cut(k1, oldp, nb, Used);
      OthersSelf(k, oldp);
      FreedAndUsed(k, oldp, k, oldp, k1, k2);
      FreesIsWithout(k, k1, oldp);
      KeepsFewer(m0, mem, k1, Without(k, oldp));
      SameUserShorter(m0, oldp, mem, oldp, nb, oldsize);
      k := k2;
    }

    /** Both ways, with a free chunk above. */
    method GrowIntoBoth(oldp: int, oldsize: nat, next: int, nextsize: nat, nb: nat) returns (newp: int)
      requires Valid() && Growing(oldp, oldsize, nb) && PBit(k, oldp) == 0
      requires next == oldp + oldsize && next in k.chunks && k.chunks[next].st.Free? && k.chunks[next].size == nextsize
      requires nb <= oldsize + nextsize + PrevSize(mem, oldp)
      modifies this
      ensures refusals >= old(refusals)
      ensures Valid() && Moved(old(mem), old(k), oldp, newp, nb)
    {
      hide Shaped, Upward, Downward, Tagged, Linked, Homed, Listed, Distinct, Sorted, NoLoose, Consolidated, Marked, Keeps, UsedIn, Apart, Near, Frees, Others, SameUser, Copied, OnlyWithin;
      hide Unlink, TakeBelow, TakeAbove, IntoTop, Cut, Detach, Join;
      ghost var k0, m0 := k, mem;
      UsedIsReady(k, oldp);
      SizeIsLegal(k, oldp);
      SettledNear(k, oldp);
      ghost var b, i := FreeAbove(mem, k, NONE, oldp, next);
      ghost var q0, b0, i0 := FreeBelow(mem, k, NONE, oldp);
      var prevsize := PrevSize(mem, oldp);
      newp := oldp - prevsize;
      FreeHead(mem, k, newp);
      BelowSizes(k, newp);
      BelowSizes(k, next);
      TakeAboveStep(mem, k, NONE, next, oldp, b, i);
      WithoutKeeps(mem, Unlink(mem, next), k, oldp);
      KeepsIsSameUser(mem, Unlink(mem, next), k, oldp);
      TakeAboveChunks(k, next, oldp, b, i, oldp);
      TakeAboveChunks(k, next, oldp, b, i, k.top);
      TakeAboveChunks(k, next, oldp, b, i, newp);
      MarkedAfterDetach(binblocks, k, next, b, i);
      TakeAboveBins(k, next, oldp, b, i);
      UnlinkHead(mem, k, NONE, next, b, i, oldp);
      UnlinkHead(mem, k, NONE, next, b, i, newp);
      mem := Unlink(mem, next);
      k := TakeAbove(k, next, oldp, b, i);
      ghost var k1, m1 := k, mem;
      ghost var q, c, j := FreeBelow(mem, k, oldp, oldp);
      TakeBelowStep(mem, k, oldp, newp, oldp, c, j);
      TakeBelowChunks(k, newp, oldp, c, j, newp);
      TakeBelowChunks(k, newp, oldp, c, j, k.top);
      MarkedAfterDetach(binblocks, k, newp, c, j);
      TakeBelowBins(k, newp, oldp, c, j);
      UnlinkHead(mem, k, oldp, newp, c, j, newp);
      UnlinkSameUser(mem, k, oldp, newp, c, j, oldp, oldsize);
      WithoutKeeps(mem, Unlink(mem, newp), k, oldp);
      mem := Unlink(mem, newp);
      k := TakeBelow(k, newp, oldp, c, j);
      ghost var k2, m2 := k, mem;
      OthersTrans(k0, oldp, k1, oldp, k2, newp);
      OthersWithout(k0, oldp, k1, oldp);
      KeepsTrans(m0, m1, m2, Without(k0, oldp), Without(k1, oldp));
      SameUserTrans(m0, oldp, m1, oldp, m2, oldp, oldsize);
      var words := (oldsize - SIZE_SZ) / 4;
      CopyWords(oldsize);
      Copy(newp + 8, oldp + 8, words, newp, newp);
      CopiedUser(m0, oldp, m2, newp, mem, words);
      CopyGlue(m0, k0, oldp, m2, k2, newp, mem, newp + 8 + 4 * words);
      ghost var m3 := mem;
      FinishSplit(newp, oldsize + nextsize + prevsize, nb);
      MovedAfter(m0, k0, oldp, m3, k2, newp, mem, k, newp, nb, oldsize);
    }

    /** Both ways, with `top` above. */
    method GrowIntoBothTop(oldp: int, oldsize: nat, nextsize: nat, nb: nat) returns (newp: int)
      requires Valid() && Growing(oldp, oldsize, nb) && PBit(k, oldp) == 0
      requires oldp + oldsize == top && k.chunks[k.top].size == nextsize
      requires nb + MINSIZE <= oldsize + nextsize + PrevSize(mem, oldp)
      modifies this`mem, this`k, this`top
      ensures Valid() && Moved(old(mem), old(k), oldp, newp, nb)
    {
      hide Shaped, Upward, Downward, Tagged, Linked, Homed, Listed, Distinct, Sorted, NoLoose, Consolidated, Marked, Keeps, UsedIn, Apart, Near, Frees, Others, SameUser, Copied, OnlyWithin;
      hide Unlink, TakeBelow, TakeAbove, Detach, Join;
      ghost var k0, m0 := k, mem;
      UsedIsReady(k, oldp);
      SizeIsLegal(k, oldp);
      SettledNear(k, oldp);
      ghost var q, b, i := FreeBelow(mem, k, NONE, oldp);
      var prevsize := PrevSize(mem, oldp);
      newp := oldp - prevsize;
      FreeHead(mem, k, newp);
      BelowSizes(k, newp);
      TakeBelowStep(mem, k, NONE, newp, oldp, b, i);
      TakeBelowChunks(k, newp, oldp, b, i, newp);
      TakeBelowChunks(k, newp, oldp, b, i, k.top);
      MarkedAfterDetach(binblocks, k, newp, b, i);
      TakeBelowBins(k, newp, oldp, b, i);
      UnlinkHead(mem, k, NONE, newp, b, i, newp);
      WithoutKeeps(mem, Unlink(mem, newp), k, oldp);
      KeepsIsSameUser(mem, Unlink(mem, newp), k, oldp);
      ghost var k1 := TakeBelow(k, newp, oldp, b, i);
      mem := Unlink(mem, newp);
      ghost var m1 := mem;
      IntoTopStep(mem, k1, newp, newp);
      IntoTopChunks(k1, newp, newp);
      ghost var k2 := IntoTop(k1, newp);
      k := k2;
      var newsize := oldsize + nextsize + prevsize;
      var words := (oldsize - SIZE_SZ) / 4;
      CopyWords(oldsize);
      Copy(newp + 8, oldp + 8, words, newp, newp);
      CopiedUser(m0, oldp, m1, newp, mem, words);
      ghost var m2 := mem;
      CopyIntoTop(m0, k0, oldp, m1, k1, k2, newp, mem, newp + 8 + 4 * words);
      CutTopStep(mem, k2, newp, nb);
      SizeIsLegal(k2, newp);
      top := newp + nb;
      mem := mem[top + 4 := newsize - nb + 1];
      mem := mem[newp + 4 := nb + Head(mem, newp) % 2];
      ghost var k3 := Cut(k2, newp, nb, Used);
      FreedAndUsed(k0, oldp, k1, newp, k2, k3);
      FreesIsWithout(k1, k2, newp);
      OthersWithout(k0, oldp, k1, newp);
      KeepsFewer(m2, mem, k2, Without(k1, newp));
      KeepsTrans(m0, m2, mem, Without(k0, oldp), Without(k1, newp));
      SameUserShorter(m2, newp, mem, newp, nb, oldsize);
      SameUserTrans(m0, oldp, m2, newp, mem, newp, oldsize);
      k := k3;
    }

    /** The ways realloc tries to enlarge a block without a new one, in order. */
    method GrowInPlace(oldp: int, oldsize: nat, nb: nat) returns (newp: int)
      requires Valid() && Growing(oldp, oldsize, nb)
      modifies this
      ensures refusals >= old(refusals)
      ensures Valid()
      ensures newp != NONE ==> Moved(old(mem), old(k), oldp, newp, nb)
      ensures newp == NONE ==> mem == old(mem) && k == old(k)
    {
      hide Shaped, Upward, Downward, Tagged, Linked, Homed, Listed, Distinct, Sorted, NoLoose, Consolidated, Marked, Keeps, UsedIn, Apart, Near, Frees, Others, SameUser, Copied, OnlyWithin;
      UsedIsReady(k, oldp);
      NextInBook(k, oldp);
      var next := oldp + oldsize;
      ReadNext(mem, k, oldp, next);
      var nextsize := 0;
      var nextIsFree := next == top || !PrevInuse(mem, next + HeadSize(mem, next));
      if nextIsFree {
        nextsize := ChunkSize(mem, next);
        if next == top {
          if nextsize + oldsize >= nb + MINSIZE {
            GrowIntoTop(oldp, oldsize, nextsize, nb);
            return oldp;
          }
        } else if nextsize + oldsize >= nb {
          GrowIntoNext(oldp, oldsize, next, nextsize, nb);
          return oldp;
        }
      }
      HeadReads(mem, k, NONE, oldp);
      if !PrevInuse(mem, oldp) {
        ReadPrev(mem, k, oldp);
        var prev := oldp - PrevSize(mem, oldp);
        var prevsize := ChunkSize(mem, prev);
        if nextIsFree {
          if next == top {
            if nextsize + prevsize + oldsize >= nb + MINSIZE {
              newp := GrowIntoBothTop(oldp, oldsize, nextsize, nb);
              MovedSomewhere(k, newp);
              return;
            }
          } else if nextsize + prevsize + oldsize >= nb {
            newp := GrowIntoBoth(oldp, oldsize, next, nextsize, nb);
            MovedSomewhere(k, newp);
            return;
          }
        }
        if prevsize + oldsize >= nb {
          newp := GrowIntoPrev(oldp, oldsize, nb);
          MovedSomewhere(k, newp);
          return;
        }
      }
      newp := NONE;
    }

    /** The last resort of realloc: a new block, and a copy unless it lies right above. */
    method GrowByMalloc(oldp: int, oldsize: nat, bytes: nat) returns (newp: int)
      requires Valid() && bytes < SIZE_T_RANGE && Growing(oldp, oldsize, Request2Size(bytes))
      modifies this
      ensures refusals >= old(refusals)
      ensures Valid()
      ensures newp != NONE ==> Moved(old(mem), old(k), oldp, newp, Request2Size(bytes))
      ensures newp == NONE ==> UsedIn(old(k), k) && UsedIn(k, old(k)) && Keeps(old(mem), mem, old(k))
      ensures newp == NONE ==> refusals > old(refusals) && Exhausted(old(k), Request2Size(bytes))
    {
      hide Shaped, Upward, Downward, Tagged, Linked, Homed, Listed, Distinct, Sorted, NoLoose, Consolidated, Marked, Keeps, UsedIn, Apart, Near, Frees, Others, SameUser, Copied, OnlyWithin;
      hide Unlink, TakeBelow, TakeAbove, IntoTop, Cut, Detach, Join;
      hide Grants, Request2Size, Serves, Paddable, Exhausted;
      ghost var k0, m0 := k, mem;
      var nb := Request2Size(bytes);
      var newmem := Malloc(bytes);
      if newmem == 0 {
        return NONE;
      }
      newp := newmem - 8;
      ghost var k1, m1 := k, mem;
      StillUsed(k0, k1, newp, nb, oldp);
      UsedIsReady(k, oldp);
      UsedIsReady(k, newp);
      HeadReads(mem, k, NONE, newp);
      HeadReads(mem, k, NONE, oldp);
      WithoutKeeps(m0, m1, k0, oldp);
      KeepsIsSameUser(m0, m1, k0, oldp);
      if newp == oldp + HeadSize(mem, oldp) {
        var newsize := oldsize + ChunkSize(mem, newp);
        SettledNear(k, oldp);
        PrevBelow(k, oldp);
        JoinStep(mem, k, oldp, NONE);
        JoinUsedChunks(k, oldp, newp, k.top);
        JoinUsedNear(k, oldp, newp);
        JoinUsedOthers(k0, k1, oldp, newp, nb);
        k := Join(k, oldp);
        ghost var k2 := k;
        FinishSplit(oldp, newsize, nb);
        MovedAfter(m0, k0, oldp, m1, k2, oldp, mem, k, oldp, nb, oldsize);
        newp := oldp;
        return;
      }
      MoveByCopy(m0, k0, oldp, oldsize, newp, nb);
    }

    /** The last resort of `rEALLOc`: copy to the new chunk and free the old one. */
    method MoveByCopy(ghost m0: Memory, ghost k0: Book, oldp: int, oldsize: nat, newp: int, nb: nat)
      requires Valid() && Grants(k0, k, newp, nb) && Keeps(m0, mem, k0)
      requires oldp in k0.chunks && k0.chunks[oldp].st.Used? && k0.chunks[oldp].size == oldsize && oldsize < nb
      modifies this
      ensures refusals >= old(refusals)
      ensures Valid() && Moved(m0, k0, oldp, newp, nb)
    {
      hide Shaped, Upward, Downward, Tagged, Linked, Homed, Listed, Distinct, Sorted, NoLoose, Consolidated, Marked, Keeps, UsedIn, Apart, Near, Frees, Others, SameUser, Copied, OnlyWithin;
      hide Grants, Request2Size, Serves, Paddable, Exhausted;
      StillUsed(k0, k, newp, nb, oldp);
      UsedIsReady(k, oldp);
      UsedIsReady(k, newp);
      ghost var k1, m1 := k, mem;
      KeepsIsSameUser(m0, m1, k0, oldp);
      SizeIsLegal(k, oldp);
      SizeIsLegal(k, newp);
      TwoBlocks(k, oldp, newp, oldsize);
      var words := (oldsize - SIZE_SZ) / 4;
      CopyWords(oldsize);
      Copy(newp + 8, oldp + 8, words, newp, NONE);
      CopiedUser(m0, oldp, m1, newp, mem, words);
      InteriorKeeps(m1, mem, k, newp, newp + 8 + 4 * words);
      ghost var m2 := mem;
      Free(oldp + 8);
      MovedByCopy(m0, k0, oldp, m1, k1, newp, nb, m2, mem, k, oldsize);
    }

    /** `rEALLOc`: the new address of the block, or 0 with the block left as it is. */
    method Realloc(oldmem: int, bytes: nat) returns (r: int)
      requires Valid() && bytes < SIZE_T_RANGE
      requires oldmem == 0 || (oldmem - 8 in k.chunks && k.chunks[oldmem - 8].st.Used?)
      modifies this
      ensures refusals >= old(refusals)
      ensures Valid()
      ensures oldmem == 0 && r != 0 ==> Grants(old(k), k, r - 8, Request2Size(bytes)) && Keeps(old(mem), mem, old(k))
      ensures oldmem != 0 && r != 0 ==> Moved(old(mem), old(k), oldmem - 8, r - 8, Request2Size(bytes))
      ensures r != 0 ==> r % ALIGNMENT == 0 && (Paddable(bytes) ==> bytes <= Usable(k, r - 8))
      ensures r == 0 ==> UsedIn(old(k), k) && UsedIn(k, old(k)) && Keeps(old(mem), mem, old(k))
      ensures r == 0 ==> refusals > old(refusals) && Exhausted(old(k), Request2Size(bytes))
      ensures r == 0 && oldmem != 0 ==> old(k.chunks[oldmem - 8].size) < Request2Size(bytes)
    {
      hide Shaped, Upward, Downward, Tagged, Linked, Homed, Listed, Distinct, Sorted, NoLoose, Consolidated, Marked, Keeps, UsedIn, Apart, Near, Frees, Others, SameUser;
      hide Grants, Request2Size, Serves, LegalSize, Exhausted;
      PaddingHoldsTheRequest(bytes);
      RequestIsLegal(bytes);
      if oldmem == 0 {
        r := Malloc(bytes);
        return;
      }
      var oldp := oldmem - 2 * SIZE_SZ;
      UsedIsReady(k, oldp);
      HeadReads(mem, k, NONE, oldp);
      var oldsize := ChunkSize(mem, oldp);
      var nb := Request2Size(bytes);
      var newp;
      if oldsize < nb {
        newp := GrowInPlace(oldp, oldsize, nb);
        if newp == NONE {
          newp := GrowByMalloc(oldp, oldsize, bytes);
          if newp == NONE {
            return 0;
          }
        }
      } else {
        SettledNear(k, oldp);
        StaleAnywhere(mem, k, oldp);
        OthersSelf(k, oldp);
        FinishSplit(oldp, oldsize, nb);
        newp := oldp;
      }
      SizeIsLegal(k, newp);
      r := newp + 2 * SIZE_SZ;
      AlignedUser(newp);
    }
  }

  /** `av_` as initialised: both links of every header name the header. */
  function InitialTable(): Memory {
    map a | AV + 8 <= a < AV + 8 + 8 * NAV && a % 4 == 0 :: BinAt((a - AV - 8) / 8)
  }

  ghost function InitialBook(): Book {
    Book(0, INITIAL_TOP, map[], seq(NAV, i => []))
  }

  lemma InitialLinks(b: nat)
    requires b < NAV
    ensures Fd(InitialTable(), BinAt(b)) == BinAt(b) && Bk(InitialTable(), BinAt(b)) == BinAt(b)
  {
    assert (BinAt(b) + 8 - AV - 8) / 8 == b && (BinAt(b) + 12 - AV - 8) / 8 == b;
    assert (BinAt(b) + 8) % 4 == 0 && (BinAt(b) + 12) % 4 == 0;
  }

  lemma InitialShape()
    ensures Shaped(InitialBook()) && Filed(InitialBook()) && NoLoose(InitialBook()) && Consolidated(InitialBook())
  {
    hide InitialTable;
  }

  lemma InitialRings()
    ensures Linked(InitialTable(), InitialBook().bins)
  {
    var m, k := InitialTable(), InitialBook();
    forall b {:trigger k.bins[b]} | 1 <= b < NAV
      ensures Ring(m, BinAt(b), k.bins[b])
    {
      InitialLinks(b);
    }
  }

  lemma InitialTags()
    ensures Tagged(InitialTable(), InitialBook(), NONE)
  {
  }

  lemma InitialMarks()
    ensures Marked(0, InitialBook().bins) && InitialBook().chunks == map[] && InitialBook().top == INITIAL_TOP
  {
    assert Pow2(32) >= 1;
  }

  lemma InitialBookHolds()
    ensures var m, k := InitialTable(), InitialBook();
      && k.chunks == map[] && k.top == INITIAL_TOP && Marked(0, k.bins) && NoLoose(k) && Consolidated(k)
      && Shaped(k) && Filed(k) && Tagged(m, k, NONE) && Linked(m, k.bins)
  {
    hide *;
    InitialShape();
    InitialRings();
    InitialTags();
    InitialMarks();
  }

  /** One step along `bk`. */
  lemma RingStep(m: Memory, k: Book, b: nat, j: nat)
    requires Filed(k) && Linked(m, k.bins) && 1 <= b < NAV && 1 <= j <= |k.bins[b]| + 1
    ensures Bk(m, Node(BinAt(b), k.bins[b], j)) == Node(BinAt(b), k.bins[b], j - 1)
    ensures Fd(m, Node(BinAt(b), k.bins[b], j - 1)) == Node(BinAt(b), k.bins[b], j)
  {
    assert Ring(m, BinAt(b), k.bins[b]);
  }

  /** A list position is the header, below zero, or a chunk whose header reads as its size. */
  lemma ListedReads(m: Memory, k: Book, b: nat, j: nat)
    requires Shaped(k) && Filed(k) && Tagged(m, k, NONE) && 1 <= b < NAV && j <= |k.bins[b]|
    ensures j == 0 ==> Node(BinAt(b), k.bins[b], j) == BinAt(b)
    ensures j > 0 ==> var p := Node(BinAt(b), k.bins[b], j);
      p != BinAt(b) && p == k.bins[b][j - 1] && p in k.chunks && ChunkSize(m, p) == k.chunks[p].size
  {
    if j > 0 {
      var p := k.bins[b][j - 1];
      assert p in k.chunks && k.chunks[p].st == Free(b);
      HeadReads(m, k, NONE, p);
    }
  }

  /** Only a ready arena has chunks. */
  lemma ListedIsChunk(m: Memory, k: Book, p: int, b: nat, i: nat)
    requires Filed(k) && Shaped(k) && Tagged(m, k, NONE) && IsFiled(k, p, b, i)
    ensures k.chunks != map[] && k.chunks[p].st == Free(b) && p != k.top && p >= 0
    ensures ChunkSize(m, p) == k.chunks[p].size
  {
    assert k.bins[b][i] == p;
    HeadReads(m, k, NONE, p);
  }

  lemma MarkedAfterDetach(word: nat, k: Book, p: int, b: nat, i: nat)
    requires Marked(word, k.bins) && IsFiled(k, p, b, i)
    ensures Marked(word, Detach(k, p, b, i).bins)
  {
    var bins' := Detach(k, p, b, i).bins;
    forall c {:trigger bins'[c]} | 2 <= c < |bins'| && bins'[c] != []
      ensures Bit(word, c / 4)
    {
      assert k.bins[c] != [];
    }
  }

  lemma MarkedAfterSplit(word: nat, k: Book, p: int, b: nat, i: nat, n: nat)
    requires Marked(word, k.bins) && Splittable(k, p, b, i, n)
    ensures Belongs(Cut(Detach(k, p, b, i), p, n, Used), p + n, 1, 0)
    ensures Marked(word, SplitBook(k, p, b, i, n).bins)
  {
    SplitBelongs(k, p, b, i, n);
    MarkedAfterDetach(word, k, p, b, i);
    var bins, bins' := Detach(k, p, b, i).bins, SplitBook(k, p, b, i, n).bins;
    forall c {:trigger bins'[c]} | 2 <= c < |bins'| && bins'[c] != []
      ensures Bit(word, c / 4)
    {
      assert bins'[c] == bins[c];
    }
  }

  /** The four words `frontlink` ends with. */
  lemma SpliceWords(m: Memory, k: Book, p: int, b: nat, i: nat)
    requires Apart(k) && Filed(k) && 1 <= b < NAV && i <= |k.bins[b]| && p in k.chunks && k.chunks[p].st.Loose?
    ensures var bck, fwd := Node(BinAt(b), k.bins[b], i), Node(BinAt(b), k.bins[b], i + 1);
      Spliced(m, m[p + 12 := bck][p + 8 := fwd][bck + 8 := p][fwd + 12 := p], p, bck, fwd)
  {
    NodeIsSite(k, b, i);
    NodeIsSite(k, b, i + 1);
    assert 0 <= p;
  }

  lemma MarkBlock(word: nat, bins: seq<seq<int>>, b: nat)
    requires Marked(word, bins) && b < NAV
    ensures Marked(SetBit(word, b / 4), bins) && Bit(SetBit(word, b / 4), b / 4)
  {
    UpdateInRange(word, b / 4, 32);
    BitAfterUpdate(word, b / 4, b / 4);
    forall c {:trigger bins[c]} | 2 <= c < |bins| && bins[c] != []
      ensures Bit(SetBit(word, b / 4), c / 4)
    {
      BitAfterUpdate(word, b / 4, c / 4);
    }
  }

  lemma UnmarkedIsEmpty(word: nat, bins: seq<seq<int>>, b: nat)
    requires Marked(word, bins) && 2 <= b < |bins|
    ensures bins[b] != [] ==> Bit(word, b / 4)
  {
  }

  lemma MarkedAfterAttach(word: nat, k: Book, p: int, b: nat, i: nat)
    requires Marked(word, k.bins) && Belongs(k, p, b, i) && (2 <= b ==> Bit(word, b / 4))
    ensures Marked(word, Attach(k, p, b, i).bins)
  {
    var bins' := Attach(k, p, b, i).bins;
    forall c {:trigger bins'[c]} | 2 <= c < |bins'| && bins'[c] != []
      ensures Bit(word, c / 4)
    {
      assert c != b ==> bins'[c] == k.bins[c];
    }
  }

  lemma ListedReadsAll(m: Memory, k: Book, b: nat)
    requires Shaped(k) && Filed(k) && Tagged(m, k, NONE) && 1 <= b < NAV
    ensures forall j {:trigger k.bins[b][j]} :: 0 <= j < |k.bins[b]| ==>
      k.bins[b][j] in k.chunks && k.bins[b][j] != BinAt(b) && ChunkSize(m, k.bins[b][j]) == k.chunks[k.bins[b][j]].size
  {
    forall j {:trigger k.bins[b][j]} | 0 <= j < |k.bins[b]|
      ensures k.bins[b][j] in k.chunks && k.bins[b][j] != BinAt(b) && ChunkSize(m, k.bins[b][j]) == k.chunks[k.bins[b][j]].size
    {
      ListedReads(m, k, b, j + 1);
    }
  }

  /** From bin idx on, every bin holds chunks that fit, or is the request's own bin and holds one. */
  ghost predicate ScanFrom(k: Book, nb: nat, idx: nat)
    requires Listed(k)
  {
    && 4 <= idx < NAV && NoFitBelow(k, nb, idx)
    && (idx > BinIndex(nb) || (idx == BinIndex(nb) && !NoFitIn(k, idx, nb)))
  }

  /** `last` of a bin: its header, or its last chunk. */
  lemma LastOf(m: Memory, k: Book, b: nat) returns (i: nat)
    requires Shaped(k) && Filed(k) && Tagged(m, k, NONE) && Linked(m, k.bins) && 1 <= b < NAV
    ensures Bk(m, BinAt(b)) == BinAt(b) <==> k.bins[b] == []
    ensures k.bins[b] != [] ==> i == |k.bins[b]| - 1 && IsFiled(k, Bk(m, BinAt(b)), b, i)
  {
    RingStep(m, k, b, |k.bins[b]| + 1);
    ListedReads(m, k, b, |k.bins[b]|);
    i := if k.bins[b] == [] then 0 else |k.bins[b]| - 1;
  }

  /** The two bins a small request looks at first hold chunks within MINSIZE of it. */
  lemma SmallBinSizes(k: Book, nb: nat, b: nat, i: nat)
    requires Shaped(k) && Listed(k) && LegalSize(nb) && IsSmallRequest(nb)
    requires (b == SmallBinIndex(nb) || b == SmallBinIndex(nb) + 1) && i == |k.bins[b]| - 1
    ensures i < |k.bins[b]| && k.bins[b][i] in k.chunks && nb <= k.chunks[k.bins[b][i]].size < nb + MINSIZE
    ensures LastFitAt(k, b, i, nb)
  {
    var p := k.bins[b][i];
    assert p in k.chunks && BinIndex(k.chunks[p].size) == b;
    BinIndexMonotone(k.chunks[p].size, k.chunks[p].size);
  }

  lemma KeepsSelf(m: Memory, k: Book)
    ensures Keeps(m, m, k) && UsedIn(k, k)
  {
  }

  lemma OnlyRemainder(m: Memory, k: Book)
    requires Shaped(k) && Filed(k) && Tagged(m, k, NONE) && Linked(m, k.bins)
    ensures Fd(m, BinAt(1)) == BinAt(1) <==> k.bins[1] == []
    ensures k.bins[1] != [] ==> k.bins[1] == [Fd(m, BinAt(1))] && IsFiled(k, Fd(m, BinAt(1)), 1, 0)
  {
    RingStep(m, k, 1, 1);
    ListedReads(m, k, 1, |k.bins[1]|);
  }

  lemma SplittableRemainder(k: Book, p: int, nb: nat)
    requires Apart(k) && Filed(k) && IsFiled(k, p, 1, 0) && LegalSize(nb) && nb + MINSIZE <= k.chunks[p].size
    ensures Splittable(k, p, 1, 0, nb)
  {
  }

  /** Taking a chunk off its list leaves its foot alone. */
  lemma FootSurvives(m: Memory, k: Book, p: int, b: nat, i: nat)
    requires Core(m, k, NONE) && IsFiled(k, p, b, i)
    ensures p in k.chunks && PrevSize(Unlink(m, p), p + k.chunks[p].size) == k.chunks[p].size
  {
    hide Linked, Homed, Distinct, Sorted, Downward;
    LinksOf(m, k, p, b, i);
    assert p != k.top && Next(k.chunks, p) in k.chunks;
    assert PrevSize(m, Next(k.chunks, p)) == k.chunks[p].size;
  }

  lemma RefileSettled(k: Book, p: int, b: nat, i: nat)
    requires NoLoose(k) && Consolidated(k) && Filed(k) && IsFiled(k, p, 1, 0)
    requires 2 <= b && Belongs(Detach(k, p, 1, 0), p, b, i)
    ensures var k' := Attach(Detach(k, p, 1, 0), p, b, i);
      && NoLoose(k') && Consolidated(k') && k'.bins[1] == []
      && (forall nb: nat {:trigger Refiled(k, k', p, nb)} :: k.chunks[p].size < nb ==> Refiled(k, k', p, nb))
  {
    hide Homed, Sorted;
    var k' := Attach(Detach(k, p, 1, 0), p, b, i);
    assert k.chunks[p].st == Free(1) by {
      assert k.bins[1][0] == p;
    }
    forall q {:trigger k'.chunks[q].prev} | q in k'.chunks && q != k'.base && k'.chunks[q].prev in k'.chunks
      ensures k'.chunks[q].st.Used? || k'.chunks[k'.chunks[q].prev].st.Used?
    {
      assert k'.chunks[q].prev == k.chunks[q].prev;
    }
  }

  lemma AnyBitInRange(word: nat, k: nat)
    requires word < Pow2(32) && AnyBitFrom(word, k)
    ensures k < 32
  {
    var j: nat :| k <= j && Bit(word, j);
    BitsInRange(word, 32, j);
  }

  lemma NextBit(word: nat, k: nat)
    requires k > 0 && AnyBitFrom(word, k - 1) && !Bit(word, k - 1)
    ensures AnyBitFrom(word, k)
  {
    var j: nat :| k - 1 <= j && Bit(word, j);
    assert k <= j;
  }

  lemma EmptyBlock(word: nat, k: Book, nb: nat, idx: nat)
    requires Listed(k) && Marked(word, k.bins) && !Bit(word, idx / 4) && NoFitBelow(k, nb, idx) && 2 <= idx
    ensures NoFitBelow(k, nb, idx / 4 * 4 + 4)
  {
    forall b, j {:trigger k.bins[b][j]} | 2 <= b < idx / 4 * 4 + 4 && b < NAV && 0 <= j < |k.bins[b]|
      ensures k.chunks[k.bins[b][j]].size < nb
    {
    }
  }

  lemma ClearKeepsMarks(word: nat, bins: seq<seq<int>>, blk: nat)
    requires Marked(word, bins) && blk < 32
    requires forall b {:trigger bins[b]} :: 4 * blk <= b < 4 * blk + 4 && b < |bins| ==> bins[b] == []
    ensures Marked(ClearBit(word, blk), bins) && ClearBit(word, blk) <= word
  {
    UpdateInRange(word, blk, 32);
    ClearIsSmaller(word, blk);
    forall c {:trigger bins[c]} | 2 <= c < |bins| && bins[c] != []
      ensures Bit(ClearBit(word, blk), c / 4)
    {
      BitAfterUpdate(word, blk, c / 4);
    }
  }

  lemma {:induction false} ClearIsSmaller(word: nat, k: nat)
    ensures ClearBit(word, k) <= word
  {
    if k > 0 {
      ClearIsSmaller(word / 2, k - 1);
    }
  }

  lemma FirstOf(m: Memory, k: Book, b: nat)
    requires Shaped(k) && Filed(k) && Tagged(m, k, NONE) && Linked(m, k.bins) && 1 <= b < NAV
    ensures Fd(m, BinAt(b)) == BinAt(b) <==> k.bins[b] == []
  {
    RingStep(m, k, b, 1);
    if k.bins[b] != [] {
      ListedReads(m, k, b, 1);
    }
  }

  lemma ReadyHasChunks(k: Book)
    requires k.chunks == map[] || Tiled(k)
    ensures k.chunks == map[] || Apart(k)
  {
  }

  /** Bins the scan went through without finding a fit are empty. */
  lemma ScannedIsEmpty(k: Book, nb: nat, start: nat, from: nat, b: nat)
    requires Listed(k) && MINSIZE <= nb && ScanFrom(k, nb, start) && start <= from <= b < NAV
    requires NoFitBelow(k, nb, b + 1)
    ensures k.bins[b] == []
  {
    if b == BinIndex(nb) {
      assert NoFitIn(k, b, nb);
    } else {
      NoFitIsEmpty(k, nb, b);
    }
  }

  lemma ScannedBlock(k: Book, nb: nat, start: nat, from: nat)
    requires Listed(k) && MINSIZE <= nb && ScanFrom(k, nb, start) && start <= from < NAV
    requires NoFitBelow(k, nb, from / 4 * 4 + 4)
    ensures forall b {:trigger k.bins[b]} :: from <= b < from / 4 * 4 + 4 ==> k.bins[b] == []
  {
    forall b {:trigger k.bins[b]} | from <= b < from / 4 * 4 + 4
      ensures k.bins[b] == []
    {
      assert NoFitBelow(k, nb, b + 1);
      ScannedIsEmpty(k, nb, start, from, b);
    }
  }

  /** With no marked block left, nothing further up fits. */
  lemma NoMarkNoFit(word: nat, k: Book, nb: nat, idx: nat)
    requires Listed(k) && Marked(word, k.bins) && NoFitBelow(k, nb, idx) && 2 <= idx && !AnyBitFrom(word, idx / 4)
    ensures NoFitBelow(k, nb, NAV)
  {
    forall b, j {:trigger k.bins[b][j]} | 2 <= b < NAV && 0 <= j < |k.bins[b]|
      ensures k.chunks[k.bins[b][j]].size < nb
    {
    }
  }

  function RoundUp(n: nat): (r: nat)
  {
    (n + (PAGESZ - 1)) / PAGESZ * PAGESZ
  }

  lemma RoundUpIsLegal(n: nat)
    ensures n <= RoundUp(n) && RoundUp(n) % ALIGNMENT == 0
    ensures MINSIZE <= n ==> LegalSize(RoundUp(n))
  {
  }

  lemma ReadyTop(m: Memory, k: Book)
    requires Shaped(k) && Tagged(m, k, NONE)
    ensures k.top in k.chunks ==>
      0 <= k.top && ChunkSize(m, k.top) == k.chunks[k.top].size && LegalSize(k.chunks[k.top].size)
  {
    if k.top in k.chunks {
      HeadReads(m, k, NONE, k.top);
    }
  }

  /** The first chunk is aligned and ends on a page boundary. */
  lemma PageEnd(brk: nat, size: nat)
    requires MINSIZE <= size
    ensures var mis := (brk + 2 * SIZE_SZ) % ALIGNMENT;
      var front := if mis > 0 then ALIGNMENT - mis else 0;
      var base := brk + front;
      var correction := front + (PAGESZ - (base + size) % PAGESZ);
      base % ALIGNMENT == 0 && LegalSize((brk + size) - base + correction) && size <= (brk + size) - base + correction
  {
  }

  ghost function Resized(k: Book, s: nat): Book
    requires k.top in k.chunks
  {
    k.(chunks := k.chunks[k.top := k.chunks[k.top].(size := s)])
  }

  /** `top` may end anywhere: only its own header says where. */
  lemma ResizeTop(m: Memory, k: Book, s: nat)
    requires Settled(m, k) && LegalSize(s)
    ensures k.top in k.chunks && 0 <= k.top
    ensures Settled(m[k.top + 4 := s + 1], Resized(k, s)) && Keeps(m, m[k.top + 4 := s + 1], k)
    ensures UsedIn(k, Resized(k, s)) && UsedIn(Resized(k, s), k)
  {
    hide *;
    TopNeighbour(m, k);
    SettledParts(m, k);
    UserPositive(k, k.top);
    var m' := m[k.top + 4 := s + 1];
    HeadStep(m, k, NONE, k.top, s + 1);
    HeadWriteKeeps(m, k, k.top, s + 1);
    HeadWritten(m, k.top, s + 1);
    ResizeFiled(k, s);
    ResizeTiled(k, s);
    ResizeTags(m', k, s);
    ResizeConsolidated(k, s);
    ResizeSettles(m', k, s);
  }

  lemma ResizeTags(m: Memory, k: Book, s: nat)
    requires Core(m, k, k.top) && k.top in k.chunks && PBit(k, k.top) == 1 && Head(m, k.top) == s + 1
    ensures Tagged(m, Resized(k, s), NONE)
  {
    hide Linked, Filed, Tagged, Tiled;
    ResizeTagged(m, k, s);
  }

  lemma ResizeSettles(m: Memory, k: Book, s: nat)
    requires Core(m, k, k.top) && k.top in k.chunks
    requires Filed(Resized(k, s)) && Tiled(Resized(k, s)) && Tagged(m, Resized(k, s), NONE)
    requires NoLoose(Resized(k, s)) && Consolidated(Resized(k, s))
    ensures Settled(m, Resized(k, s))
  {
    hide Filed, Tiled, Tagged, Linked, NoLoose, Consolidated;
  }

  lemma ResizeFiled(k: Book, s: nat)
    requires Filed(k) && k.top in k.chunks && k.chunks[k.top].st.Top?
    ensures Filed(Resized(k, s))
  {
    FiledFrame(k, Resized(k, s));
  }

  lemma ResizeTiled(k: Book, s: nat)
    requires Tiled(k) && LegalSize(s)
    ensures Tiled(Resized(k, s))
  {
    ResizeUpward(k, s);
    var k' := Resized(k, s);
    hide Upward, Apart;
    forall q {:trigger k'.chunks[q].prev} | q in k'.chunks && q != k'.base
      ensures k'.chunks[q].prev in k'.chunks && k'.chunks[q].prev != k'.top
      ensures Next(k'.chunks, k'.chunks[q].prev) == q
    {
      assert k'.chunks[q].prev == k.chunks[q].prev;
    }
  }

  lemma ResizeUpward(k: Book, s: nat)
    requires Tiled(k) && LegalSize(s)
    ensures Upward(Resized(k, s)) && Apart(Resized(k, s))
  {
    hide Downward;
    var k' := Resized(k, s);
    forall q {:trigger Next(k'.chunks, q)} | q in k'.chunks && q != k'.top
      ensures Next(k'.chunks, q) in k'.chunks && k'.chunks[Next(k'.chunks, q)].prev == q
    {
      assert Next(k'.chunks, q) == Next(k.chunks, q);
    }
  }

  lemma ResizeTagged(m: Memory, k: Book, s: nat)
    requires Tiled(k) && Tagged(m, k, k.top) && Head(m, k.top) == s + PBit(k, k.top)
    ensures Tagged(m, Resized(k, s), NONE)
  {
    var k' := Resized(k, s);
    forall q {:trigger Head(m, q)} | q in k'.chunks
      ensures Head(m, q) == k'.chunks[q].size + PBit(k', q)
    {
      assert PBit(k', q) == PBit(k, q);
    }
    forall q {:trigger Next(k'.chunks, q)} | q in k'.chunks && k'.chunks[q].st.Free?
      ensures PrevSize(m, Next(k'.chunks, q)) == k'.chunks[q].size
    {
      assert Next(k'.chunks, q) == Next(k.chunks, q);
    }
  }

  lemma ResizeConsolidated(k: Book, s: nat)
    requires k.top in k.chunks && NoLoose(k) && Consolidated(k) && k.chunks[k.top].st.Top?
    ensures NoLoose(Resized(k, s)) && Consolidated(Resized(k, s))
    ensures UsedIn(k, Resized(k, s)) && UsedIn(Resized(k, s), k)
  {
    var k' := Resized(k, s);
    forall q {:trigger k'.chunks[q].prev} | q in k'.chunks && q != k'.base && k'.chunks[q].prev in k'.chunks
      ensures k'.chunks[q].st.Used? || k'.chunks[k'.chunks[q].prev].st.Used?
    {
      assert k'.chunks[q].prev == k.chunks[q].prev;
    }
  }

  /** The first extension makes one chunk, `top`, out of nothing. */
  lemma FirstTop(m: Memory, k: Book, base: nat, s: nat)
    requires Shaped(k) && Filed(k) && Linked(m, k.bins) && k.chunks == map[]
    requires base % ALIGNMENT == 0 && LegalSize(s)
    ensures var k' := Book(base, base, map[base := Chunk(s, 0, Top)], k.bins);
      && Settled(m[base + 4 := s + 1], k') && Next(k'.chunks, base) == base + s
      && UsedIn(k, k') && UsedIn(k', k) && Keeps(m, m[base + 4 := s + 1], k)
  {
    var m' := m[base + 4 := s + 1];
    var k' := Book(base, base, map[base := Chunk(s, 0, Top)], k.bins);
    FiledFrame(k, k');
    forall b {:trigger k'.bins[b]} | 1 <= b < NAV
      ensures Ring(m', BinAt(b), k'.bins[b])
    {
      assert Ring(m, BinAt(b), k.bins[b]);
      forall i {:trigger Node(BinAt(b), k.bins[b], i)} | 0 <= i <= |k.bins[b]| + 1
        ensures Node(BinAt(b), k.bins[b], i) == BinAt(b)
      {
        NodeIsSite(k, b, i);
      }
      RingFrame(m, m', BinAt(b), k.bins[b]);
    }
  }

  /** Blocks in use are the same before and after an extension. */
  lemma GrantsOver(k0: Book, k1: Book, k2: Book, p: int, n: nat)
    requires UsedIn(k0, k1) && UsedIn(k1, k0) && Grants(k1, k2, p, n)
    ensures Grants(k0, k2, p, n)
  {
  }

  /** Bytes the user of chunk p has: all but one size field. */
  ghost function Usable(k: Book, p: int): int
  {
    if p in k.chunks then k.chunks[p].size - SIZE_SZ else 0
  }

  /** Who answers a request: the last remainder, when it is large enough; else the best fit
      among the binned chunks; `top` only when no binned chunk fits. */
  ghost predicate Serves(k: Book, nb: nat, p: int)
    requires Listed(k)
  {
    || (k.bins[1] == [p] && p in k.chunks && nb <= k.chunks[p].size)
    || BestFit(k, nb, p)
    || (NoFitBelow(k, nb, NAV) && (p !in k.chunks || p == k.top))
  }

  lemma BestServes(k: Book, nb: nat, p: int)
    requires Listed(k) && BestFit(k, nb, p)
    ensures Serves(k, nb, p)
  {
  }

  lemma RemainderServes(k: Book, nb: nat, p: int)
    requires Listed(k) && k.bins[1] == [p] && p in k.chunks && nb <= k.chunks[p].size
    ensures Serves(k, nb, p)
  {
  }

  ghost predicate SmallTop(k: Book, nb: nat) {
    k.top in k.chunks ==> k.chunks[k.top].size < nb + MINSIZE
  }

  lemma TopIsSmall(k: Book, topSize: int, nb: nat)
    requires (k.top in k.chunks ==> topSize == k.chunks[k.top].size) && topSize < nb + MINSIZE
    ensures SmallTop(k, nb)
  {
  }

  /** Nothing can serve a chunk of nb bytes: no free chunk is large enough, and the top would not
      leave a chunk. */
  ghost predicate Exhausted(k: Book, nb: nat) {
    forall p {:trigger k.chunks[p]} :: p in k.chunks ==>
      (k.chunks[p].st.Free? ==> k.chunks[p].size < nb) && (p == k.top ==> k.chunks[p].size < nb + MINSIZE)
  }

  lemma NothingLeft(k0: Book, k1: Book, nb: nat)
    requires Filed(k0) && Filed(k1) && NoFitBelow(k0, nb, NAV) && SmallTop(k1, nb) && k1.bins[1] == []
    requires k1 == k0 || (|k0.bins[1]| == 1 && Refiled(k0, k1, k0.bins[1][0], nb))
    ensures Exhausted(k0, nb)
  {
    forall p {:trigger k0.chunks[p]} | p in k0.chunks
      ensures (k0.chunks[p].st.Free? ==> k0.chunks[p].size < nb) && (p == k0.top ==> k0.chunks[p].size < nb + MINSIZE)
    {
      if k0.chunks[p].st.Free? {
        var b := k0.chunks[p].st.bin;
        var i :| 0 <= i < |k0.bins[b]| && k0.bins[b][i] == p;
      }
    }
  }

  lemma TopServes(k0: Book, k1: Book, nb: nat, p: int)
    requires Listed(k0) && NoFitBelow(k0, nb, NAV) && (p !in k1.chunks || p == k1.top)
    requires k1 == k0 || exists x :: Refiled(k0, k1, x, nb)
    ensures Serves(k0, nb, p)
  {
  }

  lemma RequestIsLegal(bytes: nat)
    requires bytes < SIZE_T_RANGE
    ensures LegalSize(Request2Size(bytes))
  {
  }

  /** Filing a remainder that is too small changes neither who is in use nor where to scan. */
  lemma AfterRemainder(k0: Book, k1: Book, nb: nat, idx: nat)
    requires Filed(k0) && Filed(k1) && ScanFrom(k0, nb, idx)
    requires k1 == k0 || (|k0.bins[1]| == 1 && Refiled(k0, k1, k0.bins[1][0], nb))
    ensures UsedIn(k0, k1) && UsedIn(k1, k0) && ScanFrom(k1, nb, idx)
    ensures k1 == k0 || exists x :: Refiled(k0, k1, x, nb)
  {
    hide Homed, Distinct, Sorted;
    KeepsSelf(map[], k0);
    if k1 != k0 {
      var p := k0.bins[1][0];
      RefiledBelow(k0, k1, p, nb, idx);
      RefiledUsed(k0, k1, p, nb);
      if !NoFitIn(k0, idx, nb) {
        RefiledFit(k0, k1, p, nb, idx);
      }
    }
  }

  lemma RefiledUsed(k0: Book, k1: Book, p: int, nb: nat)
    requires Refiled(k0, k1, p, nb)
    ensures UsedIn(k0, k1) && UsedIn(k1, k0)
  {
  }

  lemma BestBefore(k0: Book, k1: Book, nb: nat, p: int)
    requires Filed(k0) && Filed(k1) && BestFit(k1, nb, p)
    requires k1 == k0 || exists x :: Refiled(k0, k1, x, nb)
    ensures BestFit(k0, nb, p)
  {
    if k1 != k0 {
      var x :| Refiled(k0, k1, x, nb);
      RefiledBest(k0, k1, x, nb, p);
    }
  }

  lemma RefiledBack(k0: Book, k1: Book, p: int, nb: nat)
    requires Filed(k0) && Filed(k1) && Refiled(k0, k1, p, nb)
    ensures Refiled(k1, k0, p, nb)
  {
  }

  lemma NoFitBefore(k0: Book, k1: Book, nb: nat)
    requires Filed(k0) && Filed(k1) && NoFitBelow(k1, nb, NAV)
    requires k1 == k0 || exists x :: Refiled(k0, k1, x, nb)
    ensures NoFitBelow(k0, nb, NAV)
  {
    if k1 != k0 {
      var x :| Refiled(k0, k1, x, nb);
      RefiledBack(k0, k1, x, nb);
      RefiledBelow(k1, k0, x, nb, NAV);
    }
  }

  lemma UsedTrans(k0: Book, k1: Book, k2: Book)
    requires UsedIn(k0, k1) && UsedIn(k1, k0) && UsedIn(k1, k2) && UsedIn(k2, k1)
    ensures UsedIn(k0, k2) && UsedIn(k2, k0)
  {
  }

  /** Chunks above p are as before. */
  ghost predicate SameAbove(k: Book, k': Book, p: int) {
    forall r {:trigger SameAt(k, k', r)} :: r in k.chunks && r > p ==> SameAt(k, k', r)
  }

  ghost predicate SameAt(k: Book, k': Book, r: int)
    requires r in k.chunks
  {
    r in k'.chunks && k'.chunks[r].st == k.chunks[r].st && k'.chunks[r].size == k.chunks[r].size
  }

  lemma AboveTaken(k: Book, k': Book, q: int, p: int, b: nat, i: nat)
    requires Below(k, q, p, b, i) && Apart(k) && Upward(k) && Downward(k) && k' == TakeBelow(k, q, p, b, i)
    ensures SameAbove(k, k', p)
  {
    hide TakeBelow;
    assert q in k.chunks && q < p;
    forall r {:trigger SameAt(k, k', r)} | r in k.chunks && r > p
      ensures SameAt(k, k', r)
    {
      TakeBelowChunks(k, q, p, b, i, r);
    }
  }

  /** `unlink` writes the same words whether or not the last-remainder list holds p. */
  lemma ShadowUnlinkKeeps(v: Memory, m: Memory, k: Book, x: int, p: int, n: int, b: nat, i: nat)
    requires Core(v, k, x) && Spliced(v, m, p, BinAt(1), BinAt(1)) && IsFiled(k, n, b, i) && b != 1
    requires p in k.chunks && k.chunks[p].st.Loose?
    ensures Keeps(m, Unlink(m, n), k)
  {
    hide Tagged, Upward, Downward, Linked, Homed, Listed, Distinct, Sorted, Keeps;
    LinksOf(v, k, n, b, i);
    assert n in k.chunks && p != n;
    assert Rd(m, n + 8) == Rd(v, n + 8) && Rd(m, n + 12) == Rd(v, n + 12);
    LinkWritesKeep(m, Unlink(m, n), k, Bk(v, n), Fd(v, n), p);
  }

  lemma LoosePositive(k: Book, p: int)
    requires Apart(k) && p in k.chunks
    ensures 0 <= p && 16 <= k.chunks[p].size
  {
  }

  lemma LastBelongs(k: Book, p: int)
    requires Listed(k) && k.bins[1] == [] && p in k.chunks && k.chunks[p].st == Loose
    ensures Belongs(k, p, 1, 0)
  {
  }

  lemma LinkedUsed(k: Book, p: int, b: nat, i: nat)
    requires Belongs(k, p, b, i)
    ensures UsedIn(k, Attach(k, p, b, i)) && UsedIn(Attach(k, p, b, i), k)
  {
  }

  lemma UsedIsReady(k: Book, p: int)
    requires p in k.chunks && k.chunks[p].st.Used?
    ensures k.chunks != map[]
    ensures Tiled(k) ==> p != k.top && 0 <= p
  {
  }

  lemma NextInBook(k: Book, p: int)
    requires Tiled(k) && p in k.chunks && p != k.top
    ensures Next(k.chunks, p) in k.chunks
  {
  }

  lemma ReleasedChunks(k: Book, p: int)
    requires Tiled(k) && p in k.chunks && p != k.top
    ensures var k' := Restatus(k, p, Loose);
      && k'.top in k'.chunks && Next(k'.chunks, k'.top) == Next(k.chunks, k.top) && Next(k.chunks, p) > p
      && PBit(k', p) == PBit(k, p)
  {
    PrevBelow(k, p);
  }

  lemma NextSurvives(k0: Book, k: Book, p: int, next: int)
    requires SameAbove(k0, k, p) && next in k0.chunks && p < next
    ensures next in k.chunks && k.chunks[next].st == k0.chunks[next].st && k.chunks[next].size == k0.chunks[next].size
  {
    assert SameAt(k0, k, next);
  }

  lemma NextStatus(v: Memory, k: Book, x: int, p: int, n: int)
    requires Core(v, k, x) && Near(k, p) && n in k.chunks && n != k.top && n > p && (x == NONE || x == p) && 0 <= p
    ensures Next(k.chunks, n) in k.chunks && (PrevInuse(v, Next(k.chunks, n)) <==> k.chunks[n].st.Used?)
    ensures k.chunks[n].st.Used? || k.chunks[n].st.Free?
  {
    hide Linked, Filed;
    assert n < Next(k.chunks, n);
    UseBitReads(v, k, x, n);
  }

  lemma FreesKeeps(m0: Memory, m1: Memory, m2: Memory, k0: Book, k1: Book, k2: Book, p: int)
    requires Keeps(m0, m1, k0) && Frees(k0, k1, p) && Keeps(m1, m2, k1) && UsedIn(k1, k2) && UsedIn(k2, k1)
    ensures Keeps(m0, m2, k2) && Frees(k0, k2, p)
  {
    hide Keeps;
    FreesOver(k0, k1, k2, p);
    KeepsFewer(m0, m1, k0, k2);
    KeepsFewer(m1, m2, k1, k2);
    KeepsSelf(m0, k2);
    KeepsTrans(m0, m1, m2, k2, k2);
  }

  lemma TakeBelowBins(k: Book, q: int, p: int, b: nat, i: nat)
    requires Below(k, q, p, b, i)
    ensures TakeBelow(k, q, p, b, i).bins == Detach(k, q, b, i).bins
  {
  }

  /** What trimming leaves of `top` is a legal chunk above the pad. */
  lemma TrimLeaves(topSize: int, pad: nat)
    requires LegalSize(topSize) || topSize <= 0
    ensures var extra := ((topSize - pad - MINSIZE + (PAGESZ - 1)) / PAGESZ - 1) * PAGESZ;
      extra >= PAGESZ ==> LegalSize(topSize) && LegalSize(topSize - extra) && pad + MINSIZE < topSize - extra && extra % PAGESZ == 0
  {
  }

  lemma SameHead(m: Memory, k: Book)
    requires Settled(m, k)
    ensures k.top in k.chunks && m[k.top + 4 := k.chunks[k.top].size + 1] == m
  {
    TopNeighbour(m, k);
    assert Head(m, k.top) == k.chunks[k.top].size + 1;
    assert k.top + 4 in m;
  }

  lemma SizeIsLegal(k: Book, p: int)
    requires Shaped(k) && p in k.chunks
    ensures LegalSize(k.chunks[p].size) && 0 <= p && p % ALIGNMENT == 0
  {
  }

  lemma UserPositive(k: Book, p: int)
    requires Shaped(k) && p in k.chunks
    ensures 0 <= p
  {
  }

  lemma TopSurvives(k: Book, p: int)
    requires p in k.chunks && p != k.top && k.top in k.chunks
    ensures Next(Restatus(k, p, Used).chunks, k.top) == Next(k.chunks, k.top)
  {
  }

  /** One word of the copy, beside those copied before. */
  lemma CopyNone(m: Memory, p: int, p0: int)
    ensures Copied(m, p0, m, p, 0) && OnlyWithin(m, m, p + 8, p + 8)
  {
  }

  /** The source word to copy next has not been overwritten. */
  lemma StillOriginal(m0: Memory, m: Memory, lo: int, hi: int, a: int)
    requires OnlyWithin(m0, m, lo, hi) && (a < lo || hi <= a)
    ensures Rd(m, a) == Rd(m0, a)
  {
  }

  lemma CopyOne(m: Memory, m0: Memory, p: int, p0: int, i: nat, a: int)
    requires a == p + 8 + 4 * i && Rd(m, p0 + 8 + 4 * i) == Rd(m0, p0 + 8 + 4 * i)
    requires Copied(m0, p0, m, p, i) && OnlyWithin(m0, m, p + 8, a)
    ensures var m' := m[a := Rd(m, p0 + 8 + 4 * i)];
      Copied(m0, p0, m', p, i + 1) && OnlyWithin(m0, m', p + 8, a + 4)
  {
    var m' := m[a := Rd(m, p0 + 8 + 4 * i)];
    forall c {:trigger Rd(m', c)} | c < p + 8 || a + 4 <= c
      ensures Rd(m', c) == Rd(m0, c)
    {
      assert Rd(m, c) == Rd(m0, c);
    }
    forall u {:trigger CopyWord(m', p, u)} | 0 <= u < i + 1
      ensures CopyWord(m', p, u) == CopyWord(m0, p0, u)
    {
      if u < i {
        assert CopyWord(m, p, u) == CopyWord(m0, p0, u);
      }
    }
  }

  /** A move followed by the end of realloc is a move. */
  lemma MovedAfter(m0: Memory, k0: Book, p0: int, m1: Memory, k1: Book, p1: int, m2: Memory, k2: Book, p2: int, nb: nat, size0: nat)
    requires Others(k0, p0, k1, p1) && Keeps(m0, m1, Without(k0, p0)) && SameUser(m0, p0, m1, p1, size0)
    requires p0 in k0.chunks && k0.chunks[p0].size == size0 && p1 in k1.chunks && size0 <= k1.chunks[p1].size
    requires Others(k1, p1, k2, p2) && Keeps(m1, m2, Without(k1, p1)) && p2 in k2.chunks
    requires SameUser(m1, p1, m2, p2, if k1.chunks[p1].size < k2.chunks[p2].size then k1.chunks[p1].size else k2.chunks[p2].size)
    ensures Others(k0, p0, k2, p2) && Keeps(m0, m2, Without(k0, p0))
    ensures SameUser(m0, p0, m2, p2, if size0 < k2.chunks[p2].size then size0 else k2.chunks[p2].size)
  {
    hide Keeps, Others, SameUser;
    OthersTrans(k0, p0, k1, p1, k2, p2);
    OthersWithout(k0, p0, k1, p1);
    KeepsTrans(m0, m1, m2, Without(k0, p0), Without(k1, p1));
    var n := if size0 < k2.chunks[p2].size then size0 else k2.chunks[p2].size;
    SameUserShorter(m0, p0, m1, p1, size0, n);
    SameUserShorter(m1, p1, m2, p2, if k1.chunks[p1].size < k2.chunks[p2].size then k1.chunks[p1].size else k2.chunks[p2].size, n);
    SameUserTrans(m0, p0, m1, p1, m2, p2, n);
  }

  /** The header of a listed chunk says that the chunk below is in use. */
  lemma FreeHead(m: Memory, k: Book, p: int)
    requires Settled(m, k) && p in k.chunks && k.chunks[p].st.Free?
    ensures Head(m, p) % 2 == 1 && PBit(k, p) == 1
  {
    FreeNeighbours(m, k, p);
    HeadReads(m, k, NONE, p);
  }

  lemma BelowSizes(k: Book, p: int)
    requires Apart(k) && p in k.chunks
    ensures 16 <= k.chunks[p].size
  {
  }

  /** The copy wrote inside the new chunk only. */
  lemma CopyGlue(m0: Memory, k0: Book, p0: int, m1: Memory, k1: Book, p1: int, m2: Memory, hi: int)
    requires Keeps(m0, m1, Without(k0, p0)) && Others(k0, p0, k1, p1) && p0 in k0.chunks && p1 in k1.chunks && Apart(k1)
    requires OnlyWithin(m1, m2, p1 + 8, hi) && hi <= p1 + k1.chunks[p1].size
    ensures Keeps(m0, m2, Without(k0, p0)) && Head(m2, p1) == Head(m1, p1)
  {
    hide Keeps, Others;
    InteriorKeeps(m1, m2, k1, p1, hi);
    OthersWithout(k0, p0, k1, p1);
    KeepsTrans(m0, m1, m2, Without(k0, p0), Without(k1, p1));
  }

  lemma FreesIsWithout(k: Book, k1: Book, p: int)
    requires Frees(k, k1, p) && p in k.chunks
    ensures UsedIn(Without(k, p), k1)
  {
  }

  lemma TakeAboveBins(k: Book, n: int, p: int, b: nat, i: nat)
    requires Above(k, n, p, b, i)
    ensures TakeAbove(k, n, p, b, i).bins == Detach(k, n, b, i).bins
  {
  }

  /** `unlink` leaves the words of a chunk that is on no list alone. */
  lemma UnlinkSameUser(m: Memory, k: Book, x: int, n: int, b: nat, i: nat, p: int, size: nat)
    requires Core(m, k, x) && IsFiled(k, n, b, i) && p in k.chunks && !k.chunks[p].st.Free? && size + 8 <= k.chunks[p].size
    ensures SameUser(m, p, Unlink(m, n), p, size)
  {
    hide Tagged, Linked, Homed, Listed, Distinct, Sorted, Upward, Downward;
    LinksOf(m, k, n, b, i);
    NodeIsSite(k, b, i);
    NodeIsSite(k, b, i + 2);
    assert p in k.chunks;
  }

  lemma CopyIntoTop(m0: Memory, k0: Book, p0: int, m1: Memory, k1: Book, k2: Book, p1: int, m2: Memory, hi: int)
    requires Keeps(m0, m1, Without(k0, p0)) && Others(k0, p0, k1, p1) && p0 in k0.chunks && p1 in k1.chunks
    requires p1 in k2.chunks && Apart(k2) && Frees(k1, k2, p1)
    requires OnlyWithin(m1, m2, p1 + 8, hi) && hi <= p1 + k2.chunks[p1].size
    ensures Keeps(m0, m2, Without(k0, p0)) && Head(m2, p1) == Head(m1, p1)
  {
    hide Keeps, Others, Frees;
    InteriorKeeps(m1, m2, k2, p1, hi);
    OthersWithout(k0, p0, k1, p1);
    FreesWithout(k1, k2, p1);
    KeepsFewer(m1, m2, Without(k2, p1), Without(k1, p1));
    KeepsTrans(m0, m1, m2, Without(k0, p0), Without(k1, p1));
  }

  lemma FreesWithout(k: Book, k1: Book, p: int)
    requires Frees(k, k1, p) && p in k.chunks
    ensures UsedIn(Without(k, p), Without(k1, p))
  {
  }

  /** What the headers say about the chunk above a block in use. */
  lemma ReadNext(m: Memory, k: Book, p: int, n: int)
    requires Settled(m, k) && p in k.chunks && p != k.top && n == Next(k.chunks, p)
    ensures n in k.chunks && ChunkSize(m, n) == HeadSize(m, n) == k.chunks[n].size
    ensures n != k.top ==> (PrevInuse(m, n + k.chunks[n].size) <==> k.chunks[n].st.Used?)
    ensures n != k.top ==> k.chunks[n].st.Used? || k.chunks[n].st.Free?
  {
    hide Linked, Filed;
    assert n in k.chunks;
    HeadReads(m, k, NONE, n);
    if n != k.top {
      assert n < Next(k.chunks, n) && 0 <= n;
      UseBitReads(m, k, NONE, n);
    }
  }

  /** What the foot says about the free chunk below a block in use. */
  lemma ReadPrev(m: Memory, k: Book, p: int)
    requires Settled(m, k) && p in k.chunks && k.chunks[p].st.Used? && PBit(k, p) == 0
    ensures ChunkSize(m, p - PrevSize(m, p)) == PrevSize(m, p)
  {
    hide Linked, Consolidated, NoLoose, Near, Upward, Downward, Apart;
    SettledNear(k, p);
    var q, b, i := FreeBelow(m, k, NONE, p);
    HeadReads(m, k, NONE, q);
  }

  lemma MovedSomewhere(k: Book, p: int)
    requires Shaped(k) && p in k.chunks
    ensures p != NONE
  {
  }

  /** The old block and the new one after malloc. */
  lemma StillUsed(k0: Book, k1: Book, p: int, nb: nat, p0: int)
    requires Grants(k0, k1, p, nb) && p0 in k0.chunks && k0.chunks[p0].st.Used?
    ensures p in k1.chunks && k1.chunks[p].st.Used? && nb <= k1.chunks[p].size && p != p0
    ensures p0 in k1.chunks && k1.chunks[p0].st.Used? && k1.chunks[p0].size == k0.chunks[p0].size
  {
  }

  lemma TwoBlocks(k: Book, p: int, q: int, size: nat)
    requires Apart(k) && p in k.chunks && q in k.chunks && p != q && k.chunks[p].size == size && size < k.chunks[q].size
    ensures p + size <= q || q + k.chunks[q].size <= p
    ensures 16 <= size && (size % ALIGNMENT == 0 && k.chunks[q].size % ALIGNMENT == 0 ==> size + 8 <= k.chunks[q].size)
  {
  }

  /** After malloc and free, the new block stands for the old one. */
  lemma FreedOld(k0: Book, k1: Book, k2: Book, p0: int, p: int, nb: nat)
    requires Grants(k0, k1, p, nb) && p0 in k0.chunks && k0.chunks[p0].st.Used? && Frees(k1, k2, p0)
    ensures Others(k0, p0, k2, p) && p in k2.chunks && k2.chunks[p].st.Used? && k2.chunks[p].size == k1.chunks[p].size
  {
    assert p in k1.chunks && k1.chunks[p].st.Used? && p != p0;
  }

  /** malloc, copy and free together move the block. */
  lemma MovedByCopy(m0: Memory, k0: Book, p0: int, m1: Memory, k1: Book, p: int, nb: nat, m2: Memory, m3: Memory, k3: Book, size: nat)
    requires Grants(k0, k1, p, nb) && p0 in k0.chunks && k0.chunks[p0].st.Used? && k0.chunks[p0].size == size
    requires Frees(k1, k3, p0) && p in k1.chunks && size <= k1.chunks[p].size
    requires Keeps(m0, m1, k0) && Keeps(m1, m2, Without(k1, p)) && Keeps(m2, m3, k3) && SameUser(m0, p0, m2, p, size)
    ensures Others(k0, p0, k3, p) && Keeps(m0, m3, Without(k0, p0))
    ensures p in k3.chunks && k3.chunks[p].st.Used? && k3.chunks[p].size == k1.chunks[p].size && SameUser(m0, p0, m3, p, size)
  {
    FreedOld(k0, k1, k3, p0, p, nb);
    GrantsWithout(k0, k1, k3, p0, p, nb);
    hide Keeps, SameUser, Others, Frees, UsedIn, Without, Grants;
    WithoutKeeps(m0, m1, k0, p0);
    KeepsFewer(m1, m2, Without(k1, p), Without(k0, p0));
    KeepsFewer(m2, m3, k3, Without(k0, p0));
    KeepsSelf(m0, Without(k0, p0));
    KeepsTrans(m0, m1, m2, Without(k0, p0), Without(k0, p0));
    KeepsTrans(m0, m2, m3, Without(k0, p0), Without(k0, p0));
    KeepsIsSameUser(m2, m3, k3, p);
    SameUserShorter(m2, p, m3, p, k3.chunks[p].size, size);
    SameUserTrans(m0, p0, m2, p, m3, p, size);
  }

  lemma GrantsWithout(k0: Book, k1: Book, k2: Book, p0: int, p: int, nb: nat)
    requires Grants(k0, k1, p, nb) && p0 in k0.chunks && k0.chunks[p0].st.Used? && Frees(k1, k2, p0)
    ensures UsedIn(Without(k0, p0), Without(k1, p)) && UsedIn(Without(k0, p0), k2)
  {
  }

  lemma AlignedUser(p: int)
    requires 0 <= p && p % ALIGNMENT == 0
    ensures (p + 8) % ALIGNMENT == 0
  {
  }
}
