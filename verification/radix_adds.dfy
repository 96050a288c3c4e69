/** The first half of adding a route: a new leaf, or a new place in the chain of a leaf with the same
    key, with the lists around it as they have to be before the route itself is listed. */
module RadixAdds {
  import opened RadixKeys
  import opened RadixTrie
  import opened RadixNodes
  import opened RadixShape
  import opened RadixLists
  import opened RadixListings

  // ---- where routes are not ----

  lemma {:induction false} HasIsMasked(m: Nodes, e: Env, reg: set<int>, t: Trie, up: int, r: int, off: nat, len: nat)
    requires Kept(m, e, reg, t, up, off, len) && Has(e, t, r)
    ensures r in e.masks
  {
    hide Kept, Has, SameBits, Fitting;
    var k := RouteHasKey(m, e, reg, t, up, r, off, len);
  }

  lemma {:induction false} AroundIsMasked(m: Nodes, e: Env, reg: set<int>, x: Context, s: Trie, r: int, off: nat, len: nat)
    requires KeptAround(m, e, reg, x, s, off, len) && HasAround(e, x, r)
    ensures r in e.masks
    decreases x
  {
    hide Listing, Kept, Has;
    if Has(e, x.other, r) {
      HasIsMasked(m, e, reg, x.other, x.bit, r, off, len);
    } else {
      AroundIsMasked(m, e, reg, x.up, Join(x, s), r, off, len);
    }
  }

  lemma {:induction false} HasAroundFrame(e: Env, e': Env, x: Context, r: int)
    requires Untouched(e, e', IdsAround(x))
    ensures HasAround(e', x, r) <==> HasAround(e, x, r)
    decreases x
  {
    hide Untouched, Has;
    if !x.Hole? {
      UntouchedPart(e, e', IdsAround(x), Ids(x.other));
      UntouchedPart(e, e', IdsAround(x), IdsAround(x.up));
      HasFrame(e, e', x.other, r);
      HasAroundFrame(e, e', x.up, r);
    }
  }

  // ---- a new leaf ----

  /** A route of the sibling's chain that was too far down to be listed, and now is not. */
  predicate Rises(e: Env, r: int, b: int) {
    r in e.masks && e.masks[r].Net? && e.masks[r].index <= b && r !in e.listed
  }

  predicate Risen(e: Env, ch: seq<int>, b: int, x: Entry) {
    x.leaf in ch && Rises(e, x.leaf, b) && x == Entry(e.masks[x.leaf].index, e.masks[x.leaf].index > 0, x.leaf)
  }

  /** The list of the new branch, taken over from the sibling. */
  ghost predicate Promoted(e: Env, e1: Env, s: Trie, b: nat, node: int, mask: Mask, l0: seq<Entry>, l1: seq<Entry>) {
    && e1.chains == e.chains[node := [node]] && e1.masks == e.masks[node := mask]
    && (s.Branch? ==> SplitAt(e, e1, s.id, b, node, l0, l1))
    && (s.Leaf? ==> RisenAll(e, e1, s.id, b, node, l1))
  }

  ghost predicate SplitAt(e: Env, e1: Env, i: int, b: nat, node: int, l0: seq<Entry>, l1: seq<Entry>) {
    && i in e.lists && e.lists[i] == l0 + l1 && e1.lists == e.lists[i := l0][node + 1 := l1] && e1.listed == e.listed
    && (forall j {:trigger l0[j]} :: 0 <= j < |l0| ==> b < l0[j].index) && (forall j {:trigger l1[j]} :: 0 <= j < |l1| ==> l1[j].index <= b)
  }

  ghost predicate RisenAll(e: Env, e1: Env, i: int, b: nat, node: int, l1: seq<Entry>) {
    && i in e.chains && e1.lists == e.lists[node + 1 := l1] && Descending(l1)
    && (forall x {:trigger x in l1} {:trigger Risen(e, e.chains[i], b, x)} :: x in l1 <==> Risen(e, e.chains[i], b, x))
    && forall r {:trigger r in e1.listed} {:trigger r in e.listed} :: r in e1.listed <==> r in e.listed || (r in e.chains[i] && Rises(e, r, b))
  }

  ghost predicate NewLeaf(m: Nodes, m': Nodes, v: Key, mask: Mask, node: int, off: nat, len: nat) {
    && node in m' && m'[node].key == v && |v| == len && Fitting(v, mask, off, len) && (forall r {:trigger r in m} :: r in m ==> r in m' && m'[r].key == m[r].key)
  }

  lemma GrownBy(m: Nodes, m': Nodes, e: Env, e1: Env, v: Key, mask: Mask, node: int, off: nat, len: nat)
    requires NewLeaf(m, m', v, mask, node, off, len) && e1.masks == e.masks[node := mask] && node !in e.masks
    ensures Grown(m, m', e, e1)
  {
    hide Fitting;
  }

  /** The chain of the new leaf. */
  lemma NewChain(m: Nodes, m': Nodes, e1: Env, reg: set<int>, v: Key, mask: Mask, node: int, up: int, off: nat, len: nat)
    requires NewLeaf(m, m', v, mask, node, off, len) && node in e1.masks && e1.masks[node] == mask && node in e1.chains && e1.chains[node] == [node] && node !in reg
    ensures Kept(m', e1, reg, Leaf(node, v), up, off, len)
  {
    hide Fitting;
    assert Member(m', e1, node, v, off, len);
  }

  lemma NewLeafKept(m: Nodes, m': Nodes, e: Env, e1: Env, c: Context, s: Trie, v: Key, b: nat, mask: Mask, node: int, l0: seq<Entry>, l1: seq<Entry>, off: nat, len: nat)
    requires Kept(m, e, e.masks.Keys, s, UpBit(c), off, len) && KeptAround(m, e, e.masks.Keys, c, s, off, len) && Ordered(c, s, 8 * off) && Apart(c, s)
    requires UpBit(c) < b < 8 * len && Deeper(s, b) && node !in e.masks && node !in Ids(s) + IdsAround(c) && node + 1 !in Ids(s) + IdsAround(c)
    requires NewLeaf(m, m', v, mask, node, off, len) && Promoted(e, e1, s, b, node, mask, l0, l1)
    ensures Kept(m', e1, e.masks.Keys, NewPair(s, v, b, node, node + 1), UpBit(c), off, len)
    ensures KeptAround(m', e1, e.masks.Keys, c, NewPair(s, v, b, node, node + 1), off, len)
  {
    hide *;
    var reg, t := e.masks.Keys, NewPair(s, v, b, node, node + 1);
    NewSite(c, s, v, b, node);
    PromotedEnv(e, e1, s, b, node, mask, l0, l1);
    GrownBy(m, m', e, e1, v, mask, node, off, len);
    PromotedAround(e, e1, c, s, b, node, mask, l0, l1);
    SiblingHas(e, e1, s, b, node, mask, l0, l1);
    HasNewPair(e1, s, v, b, node);
    NodeNotIn(m, e, s, UpBit(c), node, off, len);
    forall r {:trigger Has(e, s, r)} {:trigger Has(e1, t, r)} | r in reg
      ensures Has(e1, t, r) <==> Has(e, s, r)
    {
    }
    MarksAround(m, e, e1, c, s, b, node, mask, l0, l1, off, len);
    AroundKept(m, m', e, e1, reg, c, s, t, off, len);
    NewChain(m, m', e1, reg, v, mask, node, b, off, len);
    if s.Branch? {
      SplitKept(m, m', e, e1, s, UpBit(c), b, node, mask, l0, l1, off, len);
      SplitListing(m, m', e, e1, s, t, UpBit(c), b, node, mask, l0, l1, off, len);
    } else {
      RisenKept(m, m', e, e1, s, UpBit(c), b, node, mask, l0, l1, off, len);
      RisenListing(m, m', e, e1, s, t, UpBit(c), b, node, mask, l0, l1, off, len);
    }
    NewPairKept(m', e1, reg, s, v, b, node, l1, UpBit(c), off, len);
  }

  lemma NewSite(c: Context, s: Trie, v: Key, b: nat, node: int)
    requires Apart(c, s) && Deeper(s, b) && node !in Ids(s) + IdsAround(c) && node + 1 !in Ids(s) + IdsAround(c)
    ensures Distinct(s) && (s.Branch? ==> b < s.bit) && s.id != node && s.id != node + 1
    ensures NewPair(s, v, b, node, node + 1).Branch? && NewPair(s, v, b, node, node + 1).bit == b
  {
    assert s.id in Ids(s);
  }

  lemma NewPairKept(m': Nodes, e1: Env, reg: set<int>, s: Trie, v: Key, b: nat, node: int, l1: seq<Entry>, up: int, off: nat, len: nat)
    requires Kept(m', e1, reg, s, b, off, len) && Kept(m', e1, reg, Leaf(node, v), b, off, len)
    requires node + 1 in e1.lists && e1.lists[node + 1] == l1 && Listing(e1, reg, l1, NewPair(s, v, b, node, node + 1), up)
    ensures Kept(m', e1, reg, NewPair(s, v, b, node, node + 1), up, off, len)
  {
    hide Listing, Chained, Marked, BitAt;
  }

  lemma PromotedEnv(e: Env, e1: Env, s: Trie, b: nat, node: int, mask: Mask, l0: seq<Entry>, l1: seq<Entry>)
    requires Promoted(e, e1, s, b, node, mask, l0, l1)
    ensures e1.masks == e.masks[node := mask] && node in e1.masks && node in e1.chains && e1.chains[node] == [node]
    ensures node + 1 in e1.lists && e1.lists[node + 1] == l1
  {
  }

  /** Nothing changes around the place. */
  lemma PromotedAround(e: Env, e1: Env, c: Context, s: Trie, b: nat, node: int, mask: Mask, l0: seq<Entry>, l1: seq<Entry>)
    requires Promoted(e, e1, s, b, node, mask, l0, l1) && Apart(c, s) && node !in Ids(s) + IdsAround(c) && node + 1 !in Ids(s) + IdsAround(c)
    ensures Untouched(e, e1, IdsAround(c)) && Untouched(e, e1, Ids(s) - {s.id})
    ensures s.Leaf? ==> Untouched(e, e1, Ids(s))
  {
    hide Descending, Risen, Rises;
    assert s.id in Ids(s);
  }

  lemma SiblingHas(e: Env, e1: Env, s: Trie, b: nat, node: int, mask: Mask, l0: seq<Entry>, l1: seq<Entry>)
    requires Promoted(e, e1, s, b, node, mask, l0, l1) && node !in Ids(s)
    ensures forall r {:trigger Has(e, s, r)} {:trigger Has(e1, s, r)} :: Has(e1, s, r) <==> Has(e, s, r)
  {
    forall r {:trigger Has(e, s, r)} {:trigger Has(e1, s, r)}
      ensures Has(e1, s, r) <==> Has(e, s, r)
    {
      HasElsewhere(e, e1, s, node, r);
    }
  }

  lemma {:induction false} HasElsewhere(e: Env, e1: Env, t: Trie, node: int, r: int)
    requires e1.chains == e.chains[node := [node]] && node !in Ids(t)
    ensures Has(e1, t, r) <==> Has(e, t, r)
    decreases t
  {
    if t.Branch? {
      HasElsewhere(e, e1, t.left, node, r);
      HasElsewhere(e, e1, t.right, node, r);
    }
  }

  lemma HasNewPair(e1: Env, s: Trie, v: Key, b: nat, node: int)
    requires node in e1.chains && e1.chains[node] == [node]
    ensures forall r {:trigger Has(e1, NewPair(s, v, b, node, node + 1), r)} :: Has(e1, NewPair(s, v, b, node, node + 1), r) <==> Has(e1, s, r) || r == node
  {
    forall r {:trigger Has(e1, NewPair(s, v, b, node, node + 1), r)}
      ensures Has(e1, NewPair(s, v, b, node, node + 1), r) <==> Has(e1, s, r) || r == node
    {
      assert Has(e1, Leaf(node, v), r) <==> r == node;
    }
  }

  lemma NodeNotIn(m: Nodes, e: Env, s: Trie, up: int, node: int, off: nat, len: nat)
    requires Kept(m, e, e.masks.Keys, s, up, off, len) && node !in e.masks
    ensures !Has(e, s, node)
  {
    hide Kept, Has;
    if Has(e, s, node) {
      HasIsMasked(m, e, e.masks.Keys, s, up, node, off, len);
    }
  }

  /** The routes that come onto a list are all in the sibling. */
  lemma MarksAround(m: Nodes, e: Env, e1: Env, c: Context, s: Trie, b: nat, node: int, mask: Mask, l0: seq<Entry>, l1: seq<Entry>, off: nat, len: nat)
    requires Promoted(e, e1, s, b, node, mask, l0, l1) && Kept(m, e, e.masks.Keys, s, UpBit(c), off, len) && KeptAround(m, e, e.masks.Keys, c, s, off, len)
    requires Ordered(c, s, 8 * off) && UpBit(c) < 8 * len
    ensures SameMarksAround(e, e1, e.masks.Keys, c)
  {
    hide Kept, KeptAround, Descending, Risen, Patricia, PatriciaAround, Fits, HasKey, SameBits;
    forall r {:trigger HasAround(e, c, r)} {:trigger r in e1.listed} | r in e.masks.Keys && HasAround(e, c, r)
      ensures r in e1.listed <==> r in e.listed
    {
      if s.Leaf? && r in e.chains[s.id] {
        InChainAround(m, e, c, s, r, off, len);
      }
    }
  }

  lemma InChainAround(m: Nodes, e: Env, c: Context, s: Trie, r: int, off: nat, len: nat)
    requires s.Leaf? && s.id in e.chains && r in e.chains[s.id] && Kept(m, e, e.masks.Keys, s, UpBit(c), off, len) && KeptAround(m, e, e.masks.Keys, c, s, off, len)
    requires Ordered(c, s, 8 * off) && UpBit(c) < 8 * len
    ensures !HasAround(e, c, r)
  {
    hide KeptAround, Patricia, PatriciaAround, Fits, SameBits;
    if HasAround(e, c, r) {
      assert HasKey(s, s.key);
      assert Member(m, e, r, s.key, off, len);
      AroundParts(m, e, e.masks.Keys, c, s, s.key, r, 8 * len, off, len);
    }
  }

  // the sibling is a branch

  lemma SplitKept(m: Nodes, m': Nodes, e: Env, e1: Env, s: Trie, up: int, b: nat, node: int, mask: Mask, l0: seq<Entry>, l1: seq<Entry>, off: nat, len: nat)
    requires s.Branch? && Promoted(e, e1, s, b, node, mask, l0, l1) && Kept(m, e, e.masks.Keys, s, up, off, len) && Grown(m, m', e, e1) && node !in e.masks
    requires Distinct(s) && Untouched(e, e1, Ids(s) - {s.id}) && node + 1 != s.id && up < b < s.bit
    requires forall r {:trigger Has(e, s, r)} {:trigger Has(e1, s, r)} :: Has(e1, s, r) <==> Has(e, s, r)
    ensures Kept(m', e1, e.masks.Keys, s, b, off, len)
  {
    hide Grown, Untouched, Has;
    var reg := e.masks.Keys;
    SplitParts(e, e1, s, b, node, mask, l0, l1);
    UntouchedPart(e, e1, Ids(s) - {s.id}, Ids(s.left));
    UntouchedPart(e, e1, Ids(s) - {s.id}, Ids(s.right));
    NoNewMarks(e, e1, reg, s.left);
    NoNewMarks(e, e1, reg, s.right);
    KeptFrame(m, m', e, e1, reg, s.left, s.bit, off, len);
    KeptFrame(m, m', e, e1, reg, s.right, s.bit, off, len);
    HighPart(m, m', e, e1, reg, l0, l1, s, up, b);
  }

  lemma SplitParts(e: Env, e1: Env, s: Trie, b: nat, node: int, mask: Mask, l0: seq<Entry>, l1: seq<Entry>)
    requires s.Branch? && Promoted(e, e1, s, b, node, mask, l0, l1) && node + 1 != s.id
    ensures s.id in e.lists && e.lists[s.id] == l0 + l1 && s.id in e1.lists && e1.lists[s.id] == l0 && e1.listed == e.listed
    ensures forall j {:trigger l0[j]} :: 0 <= j < |l0| ==> b < l0[j].index
    ensures forall j {:trigger l1[j]} :: 0 <= j < |l1| ==> l1[j].index <= b
  {
  }

  lemma NoNewMarks(e: Env, e1: Env, reg: set<int>, t: Trie)
    requires e1.listed == e.listed
    ensures SameMarks(e, e1, reg, t)
  {
  }

  lemma DescendingParts(l0: seq<Entry>, l1: seq<Entry>)
    requires Descending(l0 + l1)
    ensures Descending(l0) && Descending(l1)
  {
    var l := l0 + l1;
    forall i, j {:trigger l0[i], l0[j]} | 0 <= i < j < |l0|
      ensures l0[i].index > l0[j].index
    {
      assert l[i] == l0[i] && l[j] == l0[j];
    }
    forall i, j {:trigger l1[i], l1[j]} | 0 <= i < j < |l1|
      ensures l1[i].index > l1[j].index
    {
      assert l[|l0| + i] == l1[i] && l[|l0| + j] == l1[j];
    }
  }

  lemma InParts(l0: seq<Entry>, l1: seq<Entry>, b: nat, x: Entry)
    requires forall j {:trigger l0[j]} :: 0 <= j < |l0| ==> b < l0[j].index
    requires forall j {:trigger l1[j]} :: 0 <= j < |l1| ==> l1[j].index <= b
    ensures x in l0 <==> x in l0 + l1 && b < x.index
    ensures x in l1 <==> x in l0 + l1 && x.index <= b
  {
    if x in l0 + l1 {
      var j :| 0 <= j < |l0 + l1| && (l0 + l1)[j] == x;
      assert j < |l0| ==> l0[j] == x;
      assert j >= |l0| ==> l1[j - |l0|] == x;
    }
  }

  lemma HighPart(m: Nodes, m': Nodes, e: Env, e1: Env, reg: set<int>, l0: seq<Entry>, l1: seq<Entry>, s: Trie, up: int, b: nat)
    requires s.Branch? && Listing(e, reg, l0 + l1, s, up) && Grown(m, m', e, e1) && reg <= e.masks.Keys && up < b
    requires forall r {:trigger Has(e, s, r)} {:trigger Has(e1, s, r)} :: Has(e1, s, r) <==> Has(e, s, r)
    requires forall j {:trigger l0[j]} :: 0 <= j < |l0| ==> b < l0[j].index
    requires forall j {:trigger l1[j]} :: 0 <= j < |l1| ==> l1[j].index <= b
    ensures Listing(e1, reg, l0, s, b)
  {
    hide Has, Descending;
    DescendingParts(l0, l1);
    forall x {:trigger x in l0} {:trigger DueEntry(e1, reg, s, b, x)}
      ensures x in l0 <==> DueEntry(e1, reg, s, b, x)
    {
      InParts(l0, l1, b, x);
      assert x.leaf in reg ==> x.leaf in e.masks;
      assert DueEntry(e1, reg, s, b, x) <==> DueEntry(e, reg, s, up, x) && b < x.index;
    }
  }

  lemma SplitListing(m: Nodes, m': Nodes, e: Env, e1: Env, s: Trie, t: Trie, up: int, b: nat, node: int, mask: Mask, l0: seq<Entry>, l1: seq<Entry>, off: nat, len: nat)
    requires s.Branch? && Promoted(e, e1, s, b, node, mask, l0, l1) && Kept(m, e, e.masks.Keys, s, up, off, len) && Grown(m, m', e, e1) && up < b < s.bit
    requires t.Branch? && t.bit == b && node + 1 != s.id
    requires forall r {:trigger Has(e, s, r)} {:trigger Has(e1, t, r)} :: r in e.masks.Keys ==> (Has(e1, t, r) <==> Has(e, s, r))
    ensures Listing(e1, e.masks.Keys, l1, t, up)
  {
    hide Has, Descending, Grown;
    SplitParts(e, e1, s, b, node, mask, l0, l1);
    LowPart(m, m', e, e1, e.masks.Keys, l0, l1, s, t, up, b);
  }

  lemma LowPart(m: Nodes, m': Nodes, e: Env, e1: Env, reg: set<int>, l0: seq<Entry>, l1: seq<Entry>, s: Trie, t: Trie, up: int, b: nat)
    requires s.Branch? && t.Branch? && t.bit == b < s.bit && Listing(e, reg, l0 + l1, s, up) && Grown(m, m', e, e1) && reg <= e.masks.Keys
    requires forall r {:trigger Has(e, s, r)} {:trigger Has(e1, t, r)} :: r in reg ==> (Has(e1, t, r) <==> Has(e, s, r))
    requires forall j {:trigger l0[j]} :: 0 <= j < |l0| ==> b < l0[j].index
    requires forall j {:trigger l1[j]} :: 0 <= j < |l1| ==> l1[j].index <= b
    ensures Listing(e1, reg, l1, t, up)
  {
    hide Has, Descending;
    DescendingParts(l0, l1);
    forall x {:trigger x in l1} {:trigger DueEntry(e1, reg, t, up, x)}
      ensures x in l1 <==> DueEntry(e1, reg, t, up, x)
    {
      InParts(l0, l1, b, x);
      assert x.leaf in reg ==> x.leaf in e.masks;
      assert DueEntry(e1, reg, t, up, x) <==> DueEntry(e, reg, s, up, x) && x.index <= b;
    }
  }

  // the sibling is a leaf

  lemma RisenKept(m: Nodes, m': Nodes, e: Env, e1: Env, s: Trie, up: int, b: nat, node: int, mask: Mask, l0: seq<Entry>, l1: seq<Entry>, off: nat, len: nat)
    requires s.Leaf? && Promoted(e, e1, s, b, node, mask, l0, l1) && Kept(m, e, e.masks.Keys, s, up, off, len) && Grown(m, m', e, e1) && node !in e.masks
    requires node != s.id && up < b
    ensures Kept(m', e1, e.masks.Keys, s, b, off, len)
  {
    hide Chained, Descending, Grown, Risen;
    var ch := e.chains[s.id];
    ChainedFrame(m, m', e, e1, ch, s.id, s.key, off, len);
    forall r {:trigger r in ch} | r in ch && r in e.masks.Keys
      ensures r in e1.listed <==> Lifted(e1, r, b)
    {
      SameMask(m, m', e, e1, r);
      assert r in e.listed <==> Lifted(e, r, up);
    }
  }

  lemma SameMask(m: Nodes, m': Nodes, e: Env, e1: Env, r: int)
    requires Grown(m, m', e, e1) && r in e.masks
    ensures r in e1.masks && e1.masks[r] == e.masks[r]
  {
  }

  lemma RisenListing(m: Nodes, m': Nodes, e: Env, e1: Env, s: Trie, t: Trie, up: int, b: nat, node: int, mask: Mask, l0: seq<Entry>, l1: seq<Entry>, off: nat, len: nat)
    requires s.Leaf? && Promoted(e, e1, s, b, node, mask, l0, l1) && Kept(m, e, e.masks.Keys, s, up, off, len) && Grown(m, m', e, e1)
    requires t.Branch? && t.bit == b
    requires forall r {:trigger Has(e, s, r)} {:trigger Has(e1, t, r)} :: r in e.masks.Keys ==> (Has(e1, t, r) <==> Has(e, s, r))
    ensures Listing(e1, e.masks.Keys, l1, t, up)
  {
    hide Chained, Descending, Grown;
    var ch, reg := e.chains[s.id], e.masks.Keys;
    forall x {:trigger x in l1} {:trigger DueEntry(e1, reg, t, up, x)}
      ensures x in l1 <==> DueEntry(e1, reg, t, up, x)
    {
      var r := x.leaf;
      assert x in l1 <==> Risen(e, ch, b, x);
      assert Has(e, s, r) <==> r in ch;
      if r in reg {
        SameMask(m, m', e, e1, r);
        assert r in ch ==> (r in e.listed <==> Lifted(e, r, up));
      }
    }
  }

  // ---- a new place in a chain ----

  /** The chain with the new route at position i. */
  ghost predicate Queued(m: Nodes, m': Nodes, e: Env, e1: Env, f: Trie, f1: Trie, v: Key, mask: Mask, node: int, i: nat, off: nat, len: nat) {
    && f.Leaf? && f1.Leaf? && f.id in e.chains && i <= |e.chains[f.id]| && SameBits(v, f.key, 8 * off, 8 * len)
    && f1 == (if i == 0 then Leaf(node, v) else f)
    && e1 == e.(chains := e.chains[f1.id := e.chains[f.id][..i] + [node] + e.chains[f.id][i..]], masks := e.masks[node := mask])
    && NewLeaf(m, m', v, mask, node, off, len) && node !in e.masks
    && (forall j {:trigger e.chains[f.id][j]} :: 0 <= j < i ==> RankOf(e, e.chains[f.id][j], len) > Rank(mask, len))
    && forall j {:trigger e.chains[f.id][j]} :: i <= j < |e.chains[f.id]| ==> Rank(mask, len) > RankOf(e, e.chains[f.id][j], len)
  }

  lemma QueuedKept(m: Nodes, m': Nodes, e: Env, e1: Env, c: Context, f: Trie, f1: Trie, v: Key, mask: Mask, node: int, i: nat, off: nat, len: nat)
    requires Queued(m, m', e, e1, f, f1, v, mask, node, i, off, len) && Apart(c, f) && node !in Ids(f) + IdsAround(c)
    requires Kept(m, e, e.masks.Keys, f, UpBit(c), off, len) && KeptAround(m, e, e.masks.Keys, c, f, off, len)
    ensures Kept(m', e1, e.masks.Keys, f1, UpBit(c), off, len) && KeptAround(m', e1, e.masks.Keys, c, f1, off, len)
  {
    hide *;
    var reg := e.masks.Keys;
    QueuedGrows(m, m', e, e1, f, f1, v, mask, node, i, off, len);
    QueuedHas(m, m', e, e1, f, f1, v, mask, node, i, off, len);
    QueuedAround(m, m', e, e1, c, f, f1, v, mask, node, i, off, len);
    AroundKept(m, m', e, e1, reg, c, f, f1, off, len);
    QueuedChained(m, m', e, e1, f, f1, v, mask, node, i, UpBit(c), off, len);
    QueuedMarked(m, m', e, e1, f, f1, v, mask, node, i, UpBit(c), off, len);
    LeafKept(m', e1, reg, f1, UpBit(c), off, len);
  }

  lemma LeafKept(m: Nodes, e: Env, reg: set<int>, f: Trie, up: int, off: nat, len: nat)
    requires f.Leaf? && f.id in e.chains && Chained(m, e, e.chains[f.id], f.id, f.key, off, len) && Marked(e, reg, e.chains[f.id], up)
    ensures Kept(m, e, reg, f, up, off, len)
  {
  }

  lemma QueuedGrows(m: Nodes, m': Nodes, e: Env, e1: Env, f: Trie, f1: Trie, v: Key, mask: Mask, node: int, i: nat, off: nat, len: nat)
    requires Queued(m, m', e, e1, f, f1, v, mask, node, i, off, len)
    ensures Grown(m, m', e, e1) && e1.listed == e.listed && e1.lists == e.lists && f.Leaf? && f1.Leaf? && f1.id in e1.chains && f.id in e.chains
  {
    hide SameBits, Fitting, RankOf, Rank;
    GrownBy(m, m', e, e1, v, mask, node, off, len);
  }

  lemma QueuedHas(m: Nodes, m': Nodes, e: Env, e1: Env, f: Trie, f1: Trie, v: Key, mask: Mask, node: int, i: nat, off: nat, len: nat)
    requires Queued(m, m', e, e1, f, f1, v, mask, node, i, off, len)
    ensures forall r {:trigger Has(e, f, r)} {:trigger Has(e1, f1, r)} :: r in e.masks.Keys ==> (Has(e1, f1, r) <==> Has(e, f, r))
    ensures Has(e1, f1, node)
    ensures forall r {:trigger r in e1.chains[f1.id]} :: r in e1.chains[f1.id] <==> r in e.chains[f.id] || r == node
  {
    hide SameBits, Fitting, RankOf, Rank, NewLeaf;
    forall r {:trigger r in e1.chains[f1.id]}
      ensures r in e1.chains[f1.id] <==> r in e.chains[f.id] || r == node
    {
      InInserted(e.chains[f.id], i, node, r);
    }
    assert node in e1.chains[f1.id];
  }

  lemma InInserted(ch: seq<int>, i: nat, node: int, r: int)
    requires i <= |ch|
    ensures r in ch[..i] + [node] + ch[i..] <==> r in ch || r == node
  {
    var l := ch[..i] + [node] + ch[i..];
    if r in ch {
      var j :| 0 <= j < |ch| && ch[j] == r;
      assert l[if j < i then j else j + 1] == r;
    }
    assert l[i] == node;
  }

  lemma QueuedAround(m: Nodes, m': Nodes, e: Env, e1: Env, c: Context, f: Trie, f1: Trie, v: Key, mask: Mask, node: int, i: nat, off: nat, len: nat)
    requires Queued(m, m', e, e1, f, f1, v, mask, node, i, off, len) && Apart(c, f) && node !in Ids(f) + IdsAround(c)
    ensures Untouched(e, e1, IdsAround(c)) && SameMarksAround(e, e1, e.masks.Keys, c)
  {
    hide SameBits, Fitting, RankOf, Rank, NewLeaf;
    assert f.id in Ids(f);
  }

  lemma QueuedChained(m: Nodes, m': Nodes, e: Env, e1: Env, f: Trie, f1: Trie, v: Key, mask: Mask, node: int, i: nat, up: int, off: nat, len: nat)
    requires Queued(m, m', e, e1, f, f1, v, mask, node, i, off, len) && Kept(m, e, e.masks.Keys, f, up, off, len) && Grown(m, m', e, e1)
    requires forall r {:trigger r in e1.chains[f1.id]} :: r in e1.chains[f1.id] <==> r in e.chains[f.id] || r == node
    ensures Chained(m', e1, e1.chains[f1.id], f1.id, f1.key, off, len)
  {
    hide *;
    QueuedChain(m, m', e, e1, f, f1, v, mask, node, i, off, len);
    KeptLeaf(m, e, e.masks.Keys, f, up, off, len);
    var ch, ch1 := e.chains[f.id], e1.chains[f1.id];
    ChainedParts(m, e, ch, f.id, f.key, off, len);
    ChainedFrame(m, m', e, e1, ch, f.id, f.key, off, len);
    ChainedParts(m', e1, ch, f.id, f.key, off, len);
    forall r {:trigger r in ch1} | r in ch1
      ensures Member(m', e1, r, f1.key, off, len)
    {
      if r == node {
        NewMember(m, m', e, e1, f, f1, v, mask, node, i, off, len);
      } else {
        MemberMoved(m', e1, f, f1, v, mask, node, i, r, m, e, off, len);
      }
    }
    RankedInserted(e1, ch, i, node, len);
    ChainedFrom(m', e1, ch1, f1.id, f1.key, off, len);
  }

  lemma QueuedChain(m: Nodes, m': Nodes, e: Env, e1: Env, f: Trie, f1: Trie, v: Key, mask: Mask, node: int, i: nat, off: nat, len: nat)
    requires Queued(m, m', e, e1, f, f1, v, mask, node, i, off, len)
    ensures f.Leaf? && f1.Leaf? && f.id in e.chains && i <= |e.chains[f.id]| && f1.id in e1.chains
    ensures e1.chains[f1.id] == e.chains[f.id][..i] + [node] + e.chains[f.id][i..]
    ensures i == 0 ==> f1.id == node
    ensures i > 0 ==> f1 == f
    ensures e1.chains[f1.id] != [] && (i == 0 || e.chains[f.id][0] == f1.id ==> e1.chains[f1.id][0] == f1.id)
    ensures node in e1.masks && RankOf(e1, node, len) == Rank(mask, len)
    ensures forall j {:trigger e.chains[f.id][j]} :: 0 <= j < |e.chains[f.id]| && e.chains[f.id][j] in e.masks ==>
      if j < i then RankOf(e1, e.chains[f.id][j], len) > RankOf(e1, node, len) else RankOf(e1, node, len) > RankOf(e1, e.chains[f.id][j], len)
  {
    hide SameBits, Fitting, NewLeaf, Rank;
  }

  lemma KeptLeaf(m: Nodes, e: Env, reg: set<int>, f: Trie, up: int, off: nat, len: nat)
    requires f.Leaf? && Kept(m, e, reg, f, up, off, len)
    ensures f.id in e.chains && Chained(m, e, e.chains[f.id], f.id, f.key, off, len) && Marked(e, reg, e.chains[f.id], up)
  {
  }

  lemma ChainedParts(m: Nodes, e: Env, ch: seq<int>, f: int, k: Key, off: nat, len: nat)
    requires Chained(m, e, ch, f, k, off, len)
    ensures ch != [] && ch[0] == f && Ranked(e, ch, len)
    ensures forall r {:trigger r in ch} :: r in ch ==> Member(m, e, r, k, off, len)
    ensures forall j {:trigger ch[j]} :: 0 <= j < |ch| ==> ch[j] in ch && ch[j] in e.masks
  {
    hide SameBits, Fitting, Ranked;
  }

  lemma ChainedFrom(m: Nodes, e: Env, ch: seq<int>, f: int, k: Key, off: nat, len: nat)
    requires ch != [] && ch[0] == f && Ranked(e, ch, len)
    requires forall r {:trigger r in ch} :: r in ch ==> Member(m, e, r, k, off, len)
    ensures Chained(m, e, ch, f, k, off, len)
  {
  }

  lemma RankedInserted(e: Env, ch: seq<int>, i: nat, node: int, len: nat)
    requires Ranked(e, ch, len) && i <= |ch|
    requires forall j {:trigger ch[j]} :: 0 <= j < |ch| ==>
      if j < i then RankOf(e, ch[j], len) > RankOf(e, node, len) else RankOf(e, node, len) > RankOf(e, ch[j], len)
    ensures Ranked(e, ch[..i] + [node] + ch[i..], len)
  {
    hide RankOf;
    var l := ch[..i] + [node] + ch[i..];
    forall x, y {:trigger l[x], l[y]} | 0 <= x < y < |l|
      ensures RankOf(e, l[x], len) > RankOf(e, l[y], len)
    {
      assert x != i ==> l[x] == ch[if x < i then x else x - 1];
      assert y != i ==> l[y] == ch[if y < i then y else y - 1];
    }
  }

  lemma NewMember(m: Nodes, m': Nodes, e: Env, e1: Env, f: Trie, f1: Trie, v: Key, mask: Mask, node: int, i: nat, off: nat, len: nat)
    requires Queued(m, m', e, e1, f, f1, v, mask, node, i, off, len)
    ensures Member(m', e1, node, f1.key, off, len)
  {
    hide Fitting, BitAt, Rank, RankOf;
  }

  lemma MemberMoved(m': Nodes, e1: Env, f: Trie, f1: Trie, v: Key, mask: Mask, node: int, i: nat, r: int, m: Nodes, e: Env, off: nat, len: nat)
    requires Queued(m, m', e, e1, f, f1, v, mask, node, i, off, len) && Member(m', e1, r, f.key, off, len)
    ensures Member(m', e1, r, f1.key, off, len)
  {
    hide Fitting, BitAt, Rank, RankOf, NewLeaf;
    if i == 0 {
      SameBitsBack(v, f.key, m'[r].key, 8 * off, 8 * len);
    }
  }

  lemma QueuedMarked(m: Nodes, m': Nodes, e: Env, e1: Env, f: Trie, f1: Trie, v: Key, mask: Mask, node: int, i: nat, up: int, off: nat, len: nat)
    requires Queued(m, m', e, e1, f, f1, v, mask, node, i, off, len) && Kept(m, e, e.masks.Keys, f, up, off, len)
    requires forall r {:trigger r in e1.chains[f1.id]} :: r in e1.chains[f1.id] <==> r in e.chains[f.id] || r == node
    ensures Marked(e1, e.masks.Keys, e1.chains[f1.id], up)
  {
    hide SameBits, Fitting, Rank, RankOf, NewLeaf, Chained;
    forall r {:trigger r in e1.chains[f1.id]} | r in e1.chains[f1.id] && r in e.masks.Keys
      ensures r in e1.listed <==> Lifted(e1, r, up)
    {
      assert r in e.chains[f.id];
    }
  }
}
