/** The way through a radix tree from leaf to leaf, which `squid_rn_walktree` takes. */
module RadixWalks {
  import opened RadixKeys
  import opened RadixTrie
  import opened RadixNodes
  import opened RadixShape
  import opened RadixRemovals

  /** Only the top of the tree is one of the head's own branches. */
  ghost predicate BranchesBeyond(t: Trie) {
    forall j {:trigger j in BranchIds(t)} :: j in BranchIds(t) ==> j == TOP || j > ONES
  }

  ghost predicate Walkable(m: Nodes, t: Trie, off: nat, len: nat) {
    Shape(m, t, off, len) && BranchesBeyond(t)
  }

  lemma WalkableParts(m: Nodes, t: Trie, off: nat, len: nat)
    requires Walkable(m, t, off, len)
    ensures Shape(m, t, off, len)
    ensures t.Branch? && t.id == TOP && t.bit == 8 * off && 0 < off < len < 256
    ensures Formed(m, Hole, t) && Distinct(t) && Ordered(Hole, t, 8 * off) && Patricia(t, 8 * off)
    ensures Sentinels(t, len) && BitsBelow(t, 8 * len) && Flagged(m, t)
  {
  }

  /** `while (rn->rn_b >= 0) rn = rn->rn_l;` */
  method Leftmost(nodes: Nodes, from: int, ghost c0: Context, ghost t0: Trie) returns (rn: int, ghost c: Context, ghost t: Trie)
    requires from == t0.id && Formed(nodes, c0, t0) && Apart(c0, t0)
    ensures t.Leaf? && rn == t.id && Formed(nodes, c, t) && Apart(c, t) && Plug(c, t) == Plug(c0, t0) && LeavesBefore(c) == LeavesBefore(c0)
  {
    hide Distinct, DistinctAround, Ids, IdsAround, Apart, Plug, LeavesBefore;
    rn, c, t := from, c0, t0;
    while nodes[rn].b >= 0
      invariant rn == t.id && Formed(nodes, c, t) && Apart(c, t) && Plug(c, t) == Plug(c0, t0) && LeavesBefore(c) == LeavesBefore(c0)
      decreases t
    {
      FormedLeft(nodes, c, t);
      rn := nodes[rn].l;
      c, t := InLeft(t.id, t.bit, t.right, c), t.left;
    }
  }

  /** From a leaf up until its subtree is a left one, and over to the other side. */
  method Next(nodes: Nodes, ghost tree: Trie, from: int, ghost c0: Context, ghost t0: Trie, off: nat, len: nat) returns (rn: int, ghost c: Context, ghost t: Trie)
    requires Walkable(nodes, tree, off, len) && Plug(c0, t0) == tree && t0.Leaf? && from == t0.id && Formed(nodes, c0, t0) && Apart(c0, t0) && LeavesAfter(c0) != []
    ensures rn == t.id && Plug(c, t) == tree && Formed(nodes, c, t) && Apart(c, t) && LeavesBefore(c) == LeavesBefore(c0) + [t0]
  {
    hide *;
    rn, c, t := from, c0, t0;
    LeafLeaves(tree, c0, t0);
    PlaceSide(nodes, c, t);
    NotAtTop(tree, c, t, LeavesBefore(c0) + [t0], LeavesAfter(c0));
    WalkPlace(nodes, tree, c0, t0, off, len);
    while nodes[nodes[rn].p].r == rn && !nodes[rn].root
      invariant rn == t.id && Plug(c, t) == tree && Formed(nodes, c, t) && Apart(c, t) && LeavesBefore(c) + Leaves(t) == LeavesBefore(c0) + [t0]
      invariant rn in nodes && nodes[rn].p in nodes && !c.Hole? && (nodes[nodes[rn].p].r == rn <==> c.InRight?)
      invariant nodes[rn].root ==> c.InLeft?
      decreases c
    {
      UpRight(nodes, c, t);
      rn := nodes[rn].p;
      c, t := c.up, Branch(c.id, c.bit, c.other, t);
      PlaceSide(nodes, c, t);
      NotAtTop(tree, c, t, LeavesBefore(c0) + [t0], LeavesAfter(c0));
      RootIsTop(nodes, tree, c, t, off, len);
    }
    PlaceSide(nodes, c, t);
    FormedAcross(nodes, c, t);
    rn := nodes[nodes[rn].p].r;
    c, t := InRight(c.id, c.bit, t, c.up), c.other;
  }

  lemma EmptyBefore()
    ensures LeavesBefore(Hole) == [] && RouteIds([]) == []
  {
  }

  /** The addresses of the routes among the leaves. */
  function RouteIds(s: seq<Trie>): seq<int> {
    if s == [] then [] else RouteIds(s[..|s| - 1]) + (if s[|s| - 1].id > ONES then [s[|s| - 1].id] else [])
  }

  lemma RouteIdsSnoc(s: seq<Trie>, f: Trie)
    ensures RouteIds(s + [f]) == RouteIds(s) + if f.id > ONES then [f.id] else []
  {
    assert (s + [f])[..|s|] == s;
  }

  /** Where the walk stands: at a leaf with the leaves in done before it. */
  lemma WalkPlace(m: Nodes, t0: Trie, c: Context, t: Trie, off: nat, len: nat)
    requires Walkable(m, t0, off, len) && Plug(c, t) == t0 && t.Leaf? && Formed(m, c, t)
    ensures t.id in m && (m[t.id].root <==> t.id <= ONES) && !c.Hole?
    ensures t.id <= ONES ==> (t.id == ZEROS && LeavesBefore(c) == []) || (t.id == ONES && LeavesAfter(c) == [])
    ensures t.id > ONES ==> LeavesBefore(c) != [] && LeavesAfter(c) != []
    ensures LeavesBefore(c) == [] ==> t.id == ZEROS && LeavesAfter(c) != [] && c.InLeft?
    ensures m[t.id].root && LeavesAfter(c) != [] ==> LeavesBefore(c) == []
    ensures LeavesAfter(c) == [] ==> t.id == ONES && RouteIds(LeavesBefore(c)) == RouteIds(Leaves(t0))
  {
    hide *;
    WalkableParts(m, t0, off, len);
    SentinelsUnfold(t0, len);
    LeafLeaves(t0, c, t);
    LeafPosition(Leaves(t0), LeavesBefore(c), t, LeavesAfter(c), len);
    PlugIds(c, t);
    RootFlag(m, t0, c, t);
    if LeavesBefore(c) == [] {
      FirstIsLeft(c);
    }
    if LeavesAfter(c) == [] {
      RouteIdsSnoc(LeavesBefore(c), t);
      assert Leaves(t0) == LeavesBefore(c) + [t];
    }
  }

  lemma LeafPosition(s: seq<Trie>, before: seq<Trie>, t: Trie, after: seq<Trie>, len: nat)
    requires BetweenSentinels(s, len) && s == (before + [t]) + after
    ensures t.id <= ONES ==> (t.id == ZEROS && before == []) || (t.id == ONES && after == [])
    ensures t.id > ONES ==> before != [] && after != []
    ensures before == [] ==> t.id == ZEROS && after != [] && t.id <= ONES
    ensures after == [] ==> t.id == ONES && t.id <= ONES
    ensures before == [] || after == [] ==> t.id <= ONES
  {
    assert s[|before|] == t;
  }

  lemma RootFlag(m: Nodes, t0: Trie, c: Context, t: Trie)
    requires Flagged(m, t0) && Plug(c, t) == t0 && t0.Branch? && t.Leaf? && Formed(m, c, t) && Ids(t0) == Ids(t) + IdsAround(c)
    ensures t.id in m && (m[t.id].root <==> t.id <= ONES) && !c.Hole?
  {
    assert t.id in Ids(t0);
  }

  lemma FirstIsLeft(c: Context)
    requires LeavesBefore(c) == [] && !c.Hole?
    ensures c.InLeft?
  {
  }

  /** Leaves lie ahead, so the way up from the last leaf visited ends below a left branch. */
  lemma NotAtTop(t0: Trie, c: Context, t: Trie, before: seq<Trie>, after: seq<Trie>)
    requires Plug(c, t) == t0 && Leaves(t0) == before + after && LeavesBefore(c) + Leaves(t) == before && after != []
    ensures !c.Hole?
  {
    PlugLeaves(c, t);
  }

  lemma LeafLeaves(t0: Trie, c: Context, t: Trie)
    requires Plug(c, t) == t0 && t.Leaf?
    ensures Leaves(t) == [t] && Leaves(t0) == (LeavesBefore(c) + [t]) + LeavesAfter(c)
  {
    PlugLeaves(c, t);
  }

  lemma UpRight(m: Nodes, c: Context, t: Trie)
    requires Formed(m, c, t) && Apart(c, t) && c.InRight?
    ensures var t' := Branch(c.id, c.bit, c.other, t);
      && Formed(m, c.up, t') && Apart(c.up, t') && Plug(c.up, t') == Plug(c, t)
      && LeavesBefore(c.up) + Leaves(t') == LeavesBefore(c) + Leaves(t) && m[t.id].p == c.id && t'.id == c.id && t'.Branch?
  {
    FormedUp(m, c, t);
    Associate(LeavesBefore(c.up), Leaves(c.other), Leaves(t));
  }

  /** Below the top no branch has the root flag. */
  lemma RootIsTop(m: Nodes, t0: Trie, c: Context, t: Trie, off: nat, len: nat)
    requires Walkable(m, t0, off, len) && Plug(c, t) == t0 && t.Branch? && Formed(m, c, t) && !c.Hole?
    ensures t.id in m && !m[t.id].root
  {
    hide Ordered, Patricia;
    PlugIds(c, t);
    PlugSets(c, t);
    TopAround(c, t, t0);
    IdsSplit(t0);
    assert t.id in BranchIds(t) && t.id in Ids(t0);
  }

  lemma FewerAfter(t0: Trie, c: Context, t: Trie, c': Context, t': Trie)
    requires Plug(c, t) == t0 && Plug(c', t') == t0 && t.Leaf? && t'.Leaf? && LeavesBefore(c') == LeavesBefore(c) + [t]
    ensures |LeavesAfter(c')| < |LeavesAfter(c)|
  {
    PlugLeaves(c, t);
    PlugLeaves(c', t');
  }

  ghost predicate KeyBelow(a: Key, c: Key, lo: nat) {
    exists b :: Before(a, c, lo, b)
  }

  /** The keys of the nodes ascend, so that none comes twice. */
  ghost predicate InOrder(m: Nodes, ids: seq<int>, off: nat) {
    && (forall i {:trigger ids[i]} :: 0 <= i < |ids| ==> ids[i] in m)
    && forall i, j {:trigger ids[i], ids[j]} :: 0 <= i < j < |ids| ==> KeyBelow(m[ids[i]].key, m[ids[j]].key, 8 * off)
  }

  lemma WalkIsInOrder(m: Nodes, t: Trie, off: nat, len: nat)
    requires Walkable(m, t, off, len)
    ensures InOrder(m, RouteIds(Leaves(t)), off) && |RouteIds(Leaves(t))| == |Leaves(t)| - 2
    ensures forall i {:trigger RouteIds(Leaves(t))[i]} :: 0 <= i < |Leaves(t)| - 2 ==> RouteIds(Leaves(t))[i] == Leaves(t)[i + 1].id
  {
    hide *;
    WalkableParts(m, t, off, len);
    SentinelsUnfold(t, len);
    var s, ids := Leaves(t), RouteIds(Leaves(t));
    InnerIds(s, len);
    forall i {:trigger ids[i]} | 0 <= i < |ids|
      ensures ids[i] in m && m[ids[i]].key == KeyAt(s, i + 1)
    {
      LeafInMemory(m, Hole, t, i + 1);
    }
    forall i, j {:trigger ids[i], ids[j]} | 0 <= i < j < |ids|
      ensures KeyBelow(m[ids[i]].key, m[ids[j]].key, 8 * off)
    {
      LeavesAscend(t, 8 * off);
      AscendingPair(s, 8 * off, i + 1, j + 1);
    }
    InOrderFrom(m, ids, off);
  }

  /** The key of leaf i. */
  function KeyAt(s: seq<Trie>, i: nat): Key {
    if i < |s| && s[i].Leaf? then s[i].key else []
  }

  lemma InOrderFrom(m: Nodes, ids: seq<int>, off: nat)
    requires forall i {:trigger ids[i]} :: 0 <= i < |ids| ==> ids[i] in m
    requires forall i, j {:trigger ids[i], ids[j]} :: 0 <= i < j < |ids| ==> KeyBelow(m[ids[i]].key, m[ids[j]].key, 8 * off)
    ensures InOrder(m, ids, off)
  {
  }

  lemma AscendingPair(s: seq<Trie>, lo: nat, i: nat, j: nat)
    requires Ascending(s, lo) && i < j < |s|
    ensures KeyBelow(KeyAt(s, i), KeyAt(s, j), lo)
  {
    hide Before;
    assert Precedes(s[i], s[j], lo);
    var b :| Before(s[i].key, s[j].key, lo, b);
  }

  lemma {:induction false} LeafInMemory(m: Nodes, c: Context, t: Trie, i: nat)
    requires Formed(m, c, t) && i < |Leaves(t)|
    ensures Leaves(t)[i].id in m && m[Leaves(t)[i].id].key == KeyAt(Leaves(t), i)
    decreases t
  {
    if t.Branch? {
      var n := |Leaves(t.left)|;
      if i < n {
        LeafInMemory(m, InLeft(t.id, t.bit, t.right, c), t.left, i);
      } else {
        LeafInMemory(m, InRight(t.id, t.bit, t.left, c), t.right, i - n);
      }
    }
  }

  lemma InnerIds(s: seq<Trie>, len: nat)
    requires BetweenSentinels(s, len)
    ensures var ids := RouteIds(s); |ids| == |s| - 2 && forall i {:trigger ids[i]} :: 0 <= i < |ids| ==> ids[i] == s[i + 1].id
  {
    InnerIdsTo(s, |s| - 1, len);
    assert s == s[..|s| - 1] + [s[|s| - 1]];
    RouteIdsSnoc(s[..|s| - 1], s[|s| - 1]);
  }

  lemma {:induction false} InnerIdsTo(s: seq<Trie>, n: nat, len: nat)
    requires BetweenSentinels(s, len) && 1 <= n < |s|
    ensures var ids := RouteIds(s[..n]); |ids| == n - 1 && forall i {:trigger ids[i]} :: 0 <= i < |ids| ==> ids[i] == s[i + 1].id
    decreases n
  {
    assert s[..n] == s[..n - 1] + [s[n - 1]];
    RouteIdsSnoc(s[..n - 1], s[n - 1]);
    if n > 1 {
      InnerIdsTo(s, n - 1, len);
    }
  }
}
