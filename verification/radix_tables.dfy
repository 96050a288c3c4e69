/** A radix tree with network routes: what holds of it between the calls, and in the middle of adding
    a route. */
module RadixTables {
  import opened RadixKeys
  import opened RadixTrie
  import opened RadixNodes
  import opened RadixShape
  import opened RadixLists
  import opened RadixListings
  import opened RadixAdds

  /** The length byte of a mask: its bytes that are not zero. */
  function MaskLength(index: nat): nat {
    (index + 7) / 8
  }

  /** r is a route that was added, not one of the head's own leaves. */
  predicate IsRoute(e: Env, r: int) {
    r in e.masks && r > ONES
  }

  /** r covers v, and no route that does is more specific. */
  ghost predicate Best(m: Nodes, e: Env, r: int, v: Key, off: nat, len: nat) {
    IsRoute(e, r) && Covers(m, e, r, v, off, len)
    && forall x {:trigger IsRoute(e, x)} :: IsRoute(e, x) && Covers(m, e, x, v, off, len) ==> RankOf(e, x, len) <= RankOf(e, r, len)
  }

  /** All routes of e are in the tree, with chains, marks and lists as they should be. */
  ghost predicate Routing(m: Nodes, e: Env, t: Trie, off: nat, len: nat) {
    && Shape(m, t, off, len) && Kept(m, e, e.masks.Keys, t, -1, off, len)
    && (forall r {:trigger r in e.masks} :: r in e.masks ==> Has(e, t, r))
    && OwnLeaf(m, e, ZEROS, Zeros(len)) && OwnLeaf(m, e, ONES, Ones(len))
    && (forall r {:trigger r in e.masks} :: r in e.masks && r <= ONES ==> e.masks[r].Host?)
    && e.listed <= e.masks.Keys
  }

  /** One of the head's own leaves is first in its chain. */
  predicate OwnLeaf(m: Nodes, e: Env, i: int, k: Key) {
    i in e.masks && e.masks[i].Host? && i in e.chains && |e.chains[i]| > 0 && e.chains[i][0] == i && i in m && m[i].key == k
  }

  /** A leaf in the tree. */
  ghost predicate AtLeaf(m: Nodes, e: Env, t: Trie, c: Context, f: Trie, off: nat, len: nat) {
    && Routing(m, e, t, off, len) && f.Leaf? && Plug(c, f) == t && Formed(m, c, f) && Apart(c, f) && Ordered(c, f, 8 * off)
    && f.id in m && m[f.id].key == f.key && |f.key| >= len && UpBit(c) < 8 * len && !c.Hole?
  }

  /** No covering route is more specific than the limit. */
  ghost predicate Bounded(m: Nodes, e: Env, v: Key, limit: int, off: nat, len: nat) {
    forall x {:trigger IsRoute(e, x)} :: IsRoute(e, x) && Covers(m, e, x, v, off, len) ==> RankOf(e, x, len) <= limit
  }

  /** A route with the key and the mask. */
  ghost predicate SameRoute(m: Nodes, e: Env, r: int, v: Key, mask: Mask, off: nat, len: nat) {
    r in m && r in e.masks && e.masks[r] == mask && SameBits(m[r].key, v, 8 * off, 8 * len)
  }

  /** One more route, and all others as before. */
  ghost predicate Extended(m: Nodes, m': Nodes, e: Env, e': Env, v: Key, mask: Mask, node: int) {
    && node !in e.masks && e'.masks == e.masks[node := mask] && node in m' && m'[node].key == v
    && Grown(m, m', e, e') && forall r {:trigger r in m} :: r in m ==> r in m'
  }

  /** The test of the masks of routes with the same key: the new mask comes first.  For contiguous
      masks the comparisons of `rn_b`, of the bytes, and of their lengths all come down to this. */
  predicate Sharper(a: Mask, b: Mask) {
    a.Host? || (b.Net? && a.index > b.index)
  }

  ghost predicate Between(e: Env, ch: seq<int>, i: nat, mask: Mask, len: nat) {
    && i <= |ch|
    && (forall j {:trigger ch[j]} :: 0 <= j < i ==> RankOf(e, ch[j], len) > Rank(mask, len))
    && forall j {:trigger ch[j]} :: i <= j < |ch| ==> Rank(mask, len) > RankOf(e, ch[j], len)
  }

  /** The pair is used nowhere. */
  ghost predicate NewIn(e: Env, t: Trie, node: int) {
    node !in e.masks && node !in Ids(t) && node + 1 !in Ids(t)
  }

  /** All routes are in the tree, the one at node not yet on any list. */
  ghost predicate Pending(m: Nodes, e: Env, t: Trie, node: int, off: nat, len: nat) {
    && Shape(m, t, off, len)
    && (forall r {:trigger r in e.masks} :: r in e.masks ==> Has(e, t, r))
    && OwnLeaf(m, e, ZEROS, Zeros(len)) && OwnLeaf(m, e, ONES, Ones(len))
    && (forall r {:trigger r in e.masks} :: r in e.masks && r <= ONES ==> e.masks[r].Host?)
    && e.listed <= e.masks.Keys - {node} && node in e.masks
  }

  /** A place in the tree with the route at node below it. */
  ghost predicate Around(m: Nodes, e: Env, t: Trie, c: Context, s: Trie, node: int, off: nat, len: nat) {
    && Plug(c, s) == t && Formed(m, c, s) && Apart(c, s) && Ordered(c, s, 8 * off) && UpBit(c) < 8 * len
    && Kept(m, e, e.masks.Keys - {node}, s, UpBit(c), off, len) && KeptAround(m, e, e.masks.Keys - {node}, c, s, off, len)
    && Has(e, s, node) && !HasAround(e, c, node)
  }

  /** The route at node is in the chain of the leaf f. */
  ghost predicate PendingAt(m: Nodes, e: Env, t: Trie, c: Context, f: Trie, node: int, off: nat, len: nat) {
    Pending(m, e, t, node, off, len) && Around(m, e, t, c, f, node, off, len) && f.Leaf? && !c.Hole?
  }

  /** A node above the leaf that tests no bit of the mask. */
  ghost predicate Rising(m: Nodes, e: Env, t: Trie, c: Context, s: Trie, f: Trie, node: int, off: nat, len: nat) {
    && Pending(m, e, t, node, off, len) && Around(m, e, t, c, s, node, off, len) && s.Branch?
    && e.masks[node].Net? && e.masks[node].index <= s.bit
  }
}
