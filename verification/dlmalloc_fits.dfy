/** Which listed chunk serves a request best, and what scanning bins upward establishes. */
module DlFits {
  import opened DlSizes
  import opened DlBook
  import opened DlLists

  /** No chunk of bins 2 .. idx-1 is large enough. */
  ghost predicate NoFitBelow(k: Book, nb: nat, idx: nat)
    requires Listed(k)
  {
    forall b, j {:trigger k.bins[b][j]} :: 2 <= b < idx && b < NAV && 0 <= j < |k.bins[b]| ==>
      k.chunks[k.bins[b][j]].size < nb
  }

  /** Chunk p is listed in a size bin, is large enough, and no smaller one would do. */
  ghost predicate BestFit(k: Book, nb: nat, p: int)
    requires Listed(k)
  {
    && p in k.chunks && k.chunks[p].st.Free? && 2 <= k.chunks[p].st.bin && nb <= k.chunks[p].size
    && (forall b, j {:trigger k.bins[b][j]} :: 2 <= b < NAV && 0 <= j < |k.bins[b]| && nb <= k.chunks[k.bins[b][j]].size ==>
          k.chunks[p].size <= k.chunks[k.bins[b][j]].size)
  }

  /** Position i of bin b is the last chunk there that is large enough. */
  ghost predicate LastFitAt(k: Book, b: nat, i: int, nb: nat)
    requires Listed(k)
  {
    && 2 <= b < NAV && 0 <= i < |k.bins[b]| && nb <= k.chunks[k.bins[b][i]].size
    && (forall j {:trigger k.bins[b][j]} :: i < j < |k.bins[b]| ==> k.chunks[k.bins[b][j]].size < nb)
  }

  ghost predicate NoFitIn(k: Book, b: nat, nb: nat)
    requires Listed(k)
  {
    b < NAV && forall j {:trigger k.bins[b][j]} :: 0 <= j < |k.bins[b]| ==> k.chunks[k.bins[b][j]].size < nb
  }

  /** Bins are scanned upward, each from its small end: the first chunk that fits is a best fit. */
  lemma FirstIsBest(k: Book, nb: nat, b: nat, i: int)
    requires Filed(k) && NoFitBelow(k, nb, b) && LastFitAt(k, b, i, nb)
    ensures BestFit(k, nb, k.bins[b][i])
  {
    var p := k.bins[b][i];
    forall c, j {:trigger k.bins[c][j]} | 2 <= c < NAV && 0 <= j < |k.bins[c]| && nb <= k.chunks[k.bins[c][j]].size
      ensures k.chunks[p].size <= k.chunks[k.bins[c][j]].size
    {
      var q := k.bins[c][j];
      assert BinIndex(k.chunks[q].size) == c && BinIndex(k.chunks[p].size) == b;
      if k.chunks[q].size < k.chunks[p].size {
        BinIndexMonotone(k.chunks[q].size, k.chunks[p].size);
      }
    }
  }

  lemma ScanOne(k: Book, nb: nat, b: nat)
    requires Listed(k) && NoFitBelow(k, nb, b) && (2 <= b ==> NoFitIn(k, b, nb))
    ensures NoFitBelow(k, nb, b + 1)
  {
  }

  /** Chunks of lower bins than the request's own are smaller than the request. */
  lemma LowerBinsAreSmaller(k: Book, nb: nat)
    requires Listed(k)
    ensures NoFitBelow(k, nb, BinIndex(nb))
  {
    forall b, j {:trigger k.bins[b][j]} | 2 <= b < BinIndex(nb) && b < NAV && 0 <= j < |k.bins[b]|
      ensures k.chunks[k.bins[b][j]].size < nb
    {
      var q := k.bins[b][j];
      assert BinIndex(k.chunks[q].size) == b;
      if nb <= k.chunks[q].size {
        BinIndexMonotone(nb, k.chunks[q].size);
      }
    }
  }

  /** Higher bins than the request's own are empty when nothing there fits. */
  lemma NoFitIsEmpty(k: Book, nb: nat, b: nat)
    requires Listed(k) && MINSIZE <= nb && BinIndex(nb) < b < NAV && NoFitIn(k, b, nb)
    ensures k.bins[b] == []
  {
    if k.bins[b] != [] {
      var q := k.bins[b][0];
      assert k.chunks[q].size < nb && (2 <= b ==> BinIndex(k.chunks[q].size) == b);
      BinIndexMonotone(k.chunks[q].size, nb);
      BinIndexMonotone(nb, nb);
    }
  }

  // ---- filing a chunk ----

  /** Where `frontlink` puts a chunk: before the first one not larger than it. */
  ghost predicate Place(k: Book, p: int, b: nat, i: nat)
    requires Listed(k) && p in k.chunks
  {
    && b < NAV && i <= |k.bins[b]|
    && (forall j {:trigger k.bins[b][j]} :: 0 <= j < i ==> k.chunks[k.bins[b][j]].size > k.chunks[p].size)
    && (i < |k.bins[b]| ==> k.chunks[k.bins[b][i]].size <= k.chunks[p].size)
  }

  lemma PlaceBelongs(k: Book, p: int, i: nat)
    requires Filed(k) && p in k.chunks && k.chunks[p].st.Loose? && LegalSize(k.chunks[p].size)
    requires Place(k, p, BinIndex(k.chunks[p].size), i)
    ensures Belongs(k, p, BinIndex(k.chunks[p].size), i)
  {
    var b := BinIndex(k.chunks[p].size);
    BinIndexMonotone(k.chunks[p].size, k.chunks[p].size);
    forall j {:trigger k.bins[b][j]} | i <= j < |k.bins[b]|
      ensures k.chunks[k.bins[b][j]].size <= k.chunks[p].size
    {
      if j > i {
        assert k.chunks[k.bins[b][i]].size >= k.chunks[k.bins[b][j]].size;
      }
    }
  }

  /** All chunks of a small bin have one size, so its front is a right place. */
  lemma SmallBinPlace(k: Book, p: int)
    requires Filed(k) && Shaped(k) && p in k.chunks && k.chunks[p].size < MAX_SMALLBIN_SIZE
    ensures BinIndex(k.chunks[p].size) == SmallBinIndex(k.chunks[p].size)
    ensures Place(k, p, BinIndex(k.chunks[p].size), 0)
  {
    var s := k.chunks[p].size;
    var b := BinIndex(s);
    BinIndexMonotone(s, s);
    if 0 < |k.bins[b]| {
      var q := k.bins[b][0];
      assert q in k.chunks && BinIndex(k.chunks[q].size) == b;
      assert LegalSize(k.chunks[q].size) && LegalSize(s);
      if s < k.chunks[q].size {
        BinIndexMonotone(s, k.chunks[q].size);
      }
    }
  }

  // ---- moving the last remainder to its bin ----

  /** k' is k with one free chunk, too small for the request, moved between lists. */
  ghost predicate Refiled(k: Book, k': Book, p: int, nb: nat) {
    && p in k.chunks && k.chunks[p].st.Free? && k.chunks[p].size < nb
    && p in k'.chunks && k'.chunks[p].st.Free? && k'.chunks[p].size == k.chunks[p].size
    && (forall q {:trigger k.chunks[q]} {:trigger k'.chunks[q]} :: (q in k.chunks <==> q in k'.chunks) &&
          (q in k.chunks && q != p ==> k'.chunks[q] == k.chunks[q]))
    && k'.base == k.base && k'.top == k.top
  }

  lemma RefiledBelow(k: Book, k': Book, p: int, nb: nat, idx: nat)
    requires Filed(k) && Filed(k') && Refiled(k, k', p, nb) && NoFitBelow(k, nb, idx)
    ensures NoFitBelow(k', nb, idx)
  {
    forall b, j {:trigger k'.bins[b][j]} | 2 <= b < idx && b < NAV && 0 <= j < |k'.bins[b]|
      ensures k'.chunks[k'.bins[b][j]].size < nb
    {
      var q := k'.bins[b][j];
      assert q in k'.chunks && k'.chunks[q].st == Free(b);
      if q != p {
        assert q in k.chunks && q in k.bins[b];
      }
    }
  }

  lemma RefiledBest(k: Book, k': Book, p: int, nb: nat, x: int)
    requires Filed(k) && Filed(k') && Refiled(k, k', p, nb) && BestFit(k', nb, x)
    ensures BestFit(k, nb, x)
  {
    assert x != p && k'.chunks[x] == k.chunks[x];
    forall b, j {:trigger k.bins[b][j]} | 2 <= b < NAV && 0 <= j < |k.bins[b]| && nb <= k.chunks[k.bins[b][j]].size
      ensures k.chunks[x].size <= k.chunks[k.bins[b][j]].size
    {
      var q := k.bins[b][j];
      assert q in k.chunks && k.chunks[q].st == Free(b);
      assert q in k'.chunks && q in k'.bins[b];
    }
  }

  lemma RefiledFit(k: Book, k': Book, p: int, nb: nat, b: nat)
    requires Filed(k) && Filed(k') && Refiled(k, k', p, nb) && b < NAV && !NoFitIn(k, b, nb)
    ensures !NoFitIn(k', b, nb)
  {
    var j :| 0 <= j < |k.bins[b]| && nb <= k.chunks[k.bins[b][j]].size;
    var q := k.bins[b][j];
    assert q in k.chunks && k.chunks[q].st == Free(b);
    assert q in k'.chunks && q in k'.bins[b];
  }
}
