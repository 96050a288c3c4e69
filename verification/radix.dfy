/** radix.c for host routes: keys of one length, no masks.  Insertion, deletion with the reuse of
    caller-supplied node pairs, exact match, and the ordered walk. */
module Radix {
  import opened RadixKeys
  import opened RadixTrie
  import opened RadixNodes
  import opened RadixShape
  import opened RadixRemovals
  import opened RadixWalks

  /** Each pair in the tree contributes its leaf and its branch. */
  ghost predicate Paired(t: Trie) {
    forall j {:trigger j in BranchIds(t)} :: j in BranchIds(t) <==> j == TOP || IsPairBranch(t, j)
  }

  predicate IsPairBranch(t: Trie, j: int) {
    j - 1 in LeafIds(t) && j - 1 != ZEROS && j - 1 != ONES
  }

  /** A tree of host routes. */
  ghost predicate Tree(m: Nodes, t: Trie, off: nat, len: nat) {
    Shape(m, t, off, len) && Paired(t)
  }

  class Head {
    var nodes: Nodes
    const off: nat
    const len: nat
    ghost var tree: Trie

    ghost predicate Valid()
      reads this
    {
      Tree(nodes, tree, off, len)
    }

    /** `squid_rn_inithead` for keys that are compared from byte off on. */
    constructor (off: nat, len: nat)
      requires 0 < off < len < 256
      ensures Valid() && this.off == off && this.len == len && Leaves(tree) == [Leaf(ZEROS, Zeros(len)), Leaf(ONES, Ones(len))]
      ensures Ids(tree) == {ZEROS, TOP, ONES}
    {
      this.off, this.len := off, len;
      nodes := map[
        ZEROS := Node(-1 - 8 * off, 0, 0, true, true, TOP, 0, 0, Zeros(len)),
        TOP := Node(8 * off, MaskBit(8 * off), off, true, true, TOP, ZEROS, ONES, []),
        ONES := Node(-1 - 8 * off, 0, 0, true, true, TOP, 0, 0, Ones(len))];
      tree := Branch(TOP, 8 * off, Leaf(ZEROS, Zeros(len)), Leaf(ONES, Ones(len)));
      new;
      SentinelBits(off, len);
      InitialTree(nodes, tree, off, len);
    }

    /** `squid_rn_insert`, with the pair of nodes at node. */
    method Insert(v: Key, node: int) returns (tt: int, dup: bool)
      requires Valid() && WellKeyed(v, len) && ONES < node && node !in Ids(tree) && node + 1 !in Ids(tree)
      modifies this
      ensures Valid()
      ensures dup ==> nodes == old(nodes) && tree == old(tree) && HasRoute(tree, tt, v, off, len)
      ensures !dup ==> tt == node && Added(old(tree), tree, Leaf(node, v)) && Absent(old(tree), v, off, len)
      ensures !dup ==> Ids(tree) == Ids(old(tree)) + {node, node + 1}
    {
      hide *;
      ValidFacts();
      KeyLength(v);
      ghost var c0, f;
      var t;
      t, c0, f := Search(nodes, tree, off, len, v);
      LeafFacts(nodes, tree, off, len, c0, f);
      var b;
      dup, b := FirstBit(off, len, v, nodes[t].key);
      if dup {
        FoundRoute(c0, f, v);
        return t, dup;
      }
      var p, x;
      ghost var c, s;
      p, x, c, s := Place(nodes, tree, off, len, v, b, f);
      NewLeafAbsent(nodes, tree, off, len, v, f, b);
      TreeParts(nodes, tree, off, len);
      OrderedParts(c, s);
      PlaceParts(s, v, f.key, 8 * off, b);
      AreNeighbours(nodes, c, s, node);
      FourNodes(c, s, node);
      var m := nodes;
      var before := !HasBit(v[m[p].off], m[p].mask);
      var bit := HasBit(v[b / 8], MaskBit(b));
      m := m[node + 1 := Node(b, MaskBit(b), b / 8, false, true, p, if bit then x else node, if bit then node else x, [])];
      m := m[node := Node(-1, 0, 0, false, true, node + 1, 0, 0, v)];
      m := m[p := if before then m[p].(l := node + 1) else m[p].(r := node + 1)];
      m := m[x := m[x].(p := node + 1)];
      SplicedBy(nodes, m, c, s, v, b, node, len);
      InsertKeepsPairs(nodes, tree, c, s, v, b, node, off, len);
      InsertKeepsShape(nodes, m, tree, c, s, v, b, node, off, len);
      nodes := m;
      tree := Plug(c, NewPair(s, v, b, node, node + 1));
      ValidFrom();
      tt := node;
    }

    /** `squid_rn_addroute` for a host route; an address that is there already is refused. */
    method AddRoute(v: Key, node: int) returns (tt: int)
      requires Valid() && WellKeyed(v, len) && ONES < node && node !in Ids(tree) && node + 1 !in Ids(tree)
      modifies this
      ensures Valid() && (tt == node || tt == NONE)
      ensures tt == NONE ==> nodes == old(nodes) && tree == old(tree) && exists i :: HasRoute(tree, i, v, off, len)
      ensures tt == node ==> Added(old(tree), tree, Leaf(node, v)) && Absent(old(tree), v, off, len)
      ensures tt == node ==> Ids(tree) == Ids(old(tree)) + {node, node + 1}
    {
      hide *;
      NodeIsNotNone(node);
      var dup;
      tt, dup := Insert(v, node);
      if dup {
        tt := NONE;
      }
    }

    lemma NodeIsNotNone(node: int)
      requires ONES < node
      ensures node != NONE
    {
    }

    /** `squid_rn_match` for host routes: the leaf with exactly that address, which may be one of the
        head's own. */
    method Match(v: Key) returns (t: int)
      requires Valid() && WellKeyed(v, len)
      ensures t != NONE ==> HasRoute(tree, t, v, off, len)
      ensures t == NONE ==> Absent(tree, v, off, len)
    {
      hide *;
      ValidFacts();
      KeyLength(v);
      ghost var c, f;
      t, c, f := Search(nodes, tree, off, len, v);
      LeafFacts(nodes, tree, off, len, c, f);
      var dup, b := FirstBit(off, len, v, nodes[t].key);
      if dup {
        FoundRoute(c, f, v);
        RouteIsNotNone(c, f);
        return t;
      }
      NewLeafAbsent(nodes, tree, off, len, v, f, b);
      t := NONE;
    }

    lemma RouteIsNotNone(c: Context, f: Trie)
      requires Valid() && Plug(c, f) == tree && f.Leaf?
      ensures f.id != NONE
    {
      hide Patricia, Ordered, Paired, Flagged, Distinct;
      PlugLeaves(c, f);
      var s, i := Leaves(tree), |LeavesBefore(c)|;
      assert s[i] == f;
    }

    /** `squid_rn_delete` for a host route: the pair that the route was added with comes back, and no
        half of it is left in the tree. */
    method Delete(v: Key) returns (tt: int)
      requires Valid() && WellKeyed(v, len)
      modifies this
      ensures Valid()
      ensures tt == NONE ==> nodes == old(nodes) && tree == old(tree)
      ensures tt == NONE ==> Absent(tree, v, off, len) || HasRoute(tree, ZEROS, v, off, len) || HasRoute(tree, ONES, v, off, len)
      ensures tt != NONE ==> exists k {:trigger Leaf(tt, k)} :: len <= |k| && SameKey(k, v, off, len) && Added(tree, old(tree), Leaf(tt, k))
      ensures tt != NONE ==> ONES < tt && tt in Ids(old(tree)) && Ids(tree) == Ids(old(tree)) - {tt, tt + 1}
      ensures tt != NONE ==> tt in nodes && tt + 1 in nodes && !nodes[tt].active && !nodes[tt + 1].active
    {
      hide *;
      ValidFacts();
      KeyLength(v);
      ghost var c, f;
      tt, c, f := Search(nodes, tree, off, len, v);
      LeafFacts(nodes, tree, off, len, c, f);
      var dup, b := FirstBit(off, len, v, nodes[tt].key);
      if !dup {
        NewLeafAbsent(nodes, tree, off, len, v, f, b);
        return NONE;
      }
      RootLeaf(c, f);
      if nodes[tt].root {
        FoundRoute(c, f, v);
        return NONE;
      }
      RouteIsNotNone(c, f);
      SameKeySym(v, f.key, off, len);
      Remove(tt, c, f);
    }

    lemma RootLeaf(c: Context, f: Trie)
      requires Valid() && Plug(c, f) == tree && f.Leaf? && Formed(nodes, c, f)
      ensures f.id in nodes && (nodes[f.id].root ==> f.id == ZEROS || f.id == ONES) && (!nodes[f.id].root ==> ONES < f.id)
    {
      hide Patricia, Ordered, Paired, Distinct;
      PlugLeaves(c, f);
      PlugIds(c, f);
      var s, i := Leaves(tree), |LeavesBefore(c)|;
      assert s[i] == f;
      assert f.id in Ids(tree);
    }

    /** The stores of `squid_rn_delete`. */
    method Remove(tt: int, ghost c: Context, ghost f: Trie)
      requires Valid() && Plug(c, f) == tree && f.Leaf? && f.id == tt && ONES < tt && Formed(nodes, c, f) && Apart(c, f) && Ordered(c, f, 8 * off)
      modifies this
      ensures Valid() && Added(tree, old(tree), f) && tt !in Ids(tree) && tt + 1 !in Ids(tree)
      ensures Ids(tree) == Ids(old(tree)) - {tt, tt + 1} && tt in Ids(old(tree))
      ensures tt in nodes && tt + 1 in nodes && !nodes[tt].active && !nodes[tt + 1].active
    {
      hide *;
      ValidFacts();
      TreeParts(nodes, tree, off, len);
      SentinelsUnfold(tree, len);
      UnlinkPlaces(nodes, tree, c, f, off, len);
      UnlinkFacts(nodes, c, f);
      var m := nodes;
      var t := m[tt].p;
      var x := if m[t].l == tt then m[t].r else m[t].l;
      var p := m[t].p;
      m := m[p := if m[p].r == t then m[p].(r := x) else m[p].(l := x)];
      m := m[x := m[x].(p := p)];
      ghost var m1, tree1 := m, Plug(c.up, c.other);
      UnlinkedShape(nodes, m1, tree, c, f, off, len);
      ShapeParts(m1, tree1, off, len);
      PairInMemory(nodes, tree, tt);
      KeptFlags(nodes, m1, tt);
      var y := tt + 1;
      if t != y {
        OtherBranch(tree, tree1, t, tt, len);
        ghost var c2, s2 := PlaceOf(Hole, tree1, y);
        PlugHole(tree1);
        MovePlaces(m1, tree1, c2, s2, y, t);
        MovableFacts(m1, c2, s2, y, t);
        MovedShape(m1, tree1, c2, s2, y, t, off, len);
        MovedStores(m1, c2, s2, y, t);
        m := m[t := m[y]];
        m := m[m[t].l := m[m[t].l].(p := t)];
        m := m[m[t].r := m[m[t].r].(p := t)];
        var p2 := m[y].p;
        m := m[p2 := if m[p2].l == y then m[p2].(l := t) else m[p2].(r := t)];
        ghost var tree2 := Plug(c2, Branch(t, s2.bit, s2.left, s2.right));
        MovedSets(tree, tree1, tree2, t, y, tt);
        AddedSame(tree1, tree2, tree, f);
        tree1 := tree2;
      }
      ghost var m2 := m;
      m := m[tt := m[tt].(active := false)];
      m := m[y := m[y].(active := false)];
      Retired(m2, m, tree, tree1, tt, off, len);
      nodes := m;
      tree := tree1;
      ValidTree();
    }

    /** `squid_rn_walktree`: the routes in the order in which the function is applied to them. */
    method WalkTree() returns (visited: seq<int>)
      requires Valid()
      ensures visited == RouteIds(Leaves(tree))
      ensures InOrder(nodes, visited, off) && |visited| == |Leaves(tree)| - 2
      ensures forall i {:trigger visited[i]} :: 0 <= i < |visited| ==> visited[i] == Leaves(tree)[i + 1].id
    {
      hide *;
      ValidFacts();
      TreeParts(nodes, tree, off, len);
      TreeIsWalkable(nodes, tree, off, len);
      PlugHole(tree);
      PlugIds(Hole, tree);
      ghost var c, t := Hole, tree;
      var rn;
      rn, c, t := Leftmost(nodes, TOP, c, t);
      visited := [];
      EmptyBefore();
      WalkPlace(nodes, tree, c, t, off, len);
      while true
        invariant Walkable(nodes, tree, off, len) && Plug(c, t) == tree && t.Leaf? && rn == t.id && Formed(nodes, c, t) && Apart(c, t)
        invariant visited == RouteIds(LeavesBefore(c)) && LeavesAfter(c) != []
        decreases |LeavesAfter(c)|
      {
        var base := rn;
        ghost var c0, t0 := c, t;
        WalkPlace(nodes, tree, c, t, off, len);
        rn, c, t := Next(nodes, tree, rn, c, t, off, len);
        ghost var c1 := c;
        rn, c, t := Leftmost(nodes, rn, c, t);
        RouteIdsSnoc(LeavesBefore(c0), t0);
        if !nodes[base].root {
          visited := visited + [base];
        }
        WalkPlace(nodes, tree, c, t, off, len);
        FewerAfter(tree, c0, t0, c, t);
        if nodes[rn].root {
          WalkIsInOrder(nodes, tree, off, len);
          return;
        }
      }
    }

    lemma KeyLength(v: Key)
      requires WellKeyed(v, len)
      ensures |v| == len
    {
    }

    lemma OrderedParts(c: Context, s: Trie)
      requires Ordered(c, s, 8 * off)
      ensures Patricia(s, 8 * off)
    {
    }

    lemma FourNodes(c: Context, s: Trie, node: int)
      requires Neighbours(nodes, c, s, node)
      ensures !c.Hole? && c.id in nodes && s.id in nodes && c.id != node && c.id != node + 1 && s.id != node && s.id != node + 1 && s.id != c.id
    {
    }

    lemma ValidFacts()
      requires Valid()
      ensures Tree(nodes, tree, off, len) && Shape(nodes, tree, off, len) && 0 < off < len
    {
    }

    lemma ValidTree()
      requires Tree(nodes, tree, off, len)
      ensures Valid()
    {
    }

    lemma ValidFrom()
      requires Shape(nodes, tree, off, len) && Paired(tree)
      ensures Valid()
    {
    }

    lemma FoundRoute(c: Context, f: Trie, v: Key)
      requires Valid() && len <= |v| && f.Leaf? && len <= |f.key| && f in Leaves(tree) && SameKey(v, f.key, off, len)
      ensures HasRoute(tree, f.id, v, off, len)
    {
      SameKeySym(v, f.key, off, len);
    }

  }

  lemma TreeParts(m: Nodes, t: Trie, off: nat, len: nat)
    requires Tree(m, t, off, len)
    ensures Shape(m, t, off, len)
    ensures t.Branch? && t.id == TOP && t.bit == 8 * off && 0 < off < len < 256
    ensures Formed(m, Hole, t) && Distinct(t) && Ordered(Hole, t, 8 * off) && Patricia(t, 8 * off)
    ensures Sentinels(t, len) && Paired(t) && BitsBelow(t, 8 * len) && Flagged(m, t)
  {
  }

  lemma TreeIsWalkable(m: Nodes, t: Trie, off: nat, len: nat)
    requires Tree(m, t, off, len)
    ensures Walkable(m, t, off, len)
  {
    hide Ordered, Patricia, Distinct, Formed, BetweenSentinels, LeafIds, BranchIds;
    LeafIdsAreKnown(t, len);
    forall j {:trigger j in BranchIds(t)} | j in BranchIds(t)
      ensures j == TOP || j > ONES
    {
      if j != TOP {
        BranchIsBeyond(t, j);
      }
    }
  }

  lemma InsertKeepsPairs(m: Nodes, t0: Trie, c: Context, s: Trie, v: Key, b: nat, node: int, off: nat, len: nat)
    requires Tree(m, t0, off, len) && t0 == Plug(c, s) && ONES < node
    ensures Shape(m, t0, off, len) && Paired(Plug(c, NewPair(s, v, b, node, node + 1)))
  {
    hide *;
    TreeParts(m, t0, off, len);
    NewPairPaired(c, s, v, b, node);
  }

  lemma NewPairPaired(c: Context, s: Trie, v: Key, b: nat, node: int)
    requires Paired(Plug(c, s)) && ONES < node
    ensures Paired(Plug(c, NewPair(s, v, b, node, node + 1)))
  {
    var t := NewPair(s, v, b, node, node + 1);
    NewPairSets(c, s, v, b, node);
    PairedMore(Plug(c, s), Plug(c, t), node);
  }

  lemma PairedMore(t: Trie, t': Trie, node: int)
    requires Paired(t) && LeafIds(t') == LeafIds(t) + {node} && BranchIds(t') == BranchIds(t) + {node + 1} && ONES < node
    ensures Paired(t')
  {
    hide LeafIds, BranchIds;
    var leaves, branches := LeafIds(t), BranchIds(t);
    forall j {:trigger j in BranchIds(t')}
      ensures j in BranchIds(t') <==> j == TOP || IsPairBranch(t', j)
    {
      assert j in BranchIds(t') <==> j in branches || j == node + 1;
      assert j - 1 in LeafIds(t') <==> j - 1 in leaves || j - 1 == node;
      assert j in branches <==> j == TOP || IsPairBranch(t, j);
    }
  }

  // ---- what a deletion keeps ----

  lemma PairBranch(t: Trie, f: int)
    requires Paired(t) && f in LeafIds(t) && ONES < f
    ensures f + 1 in BranchIds(t)
  {
  }

  /** The branch of the leaf's pair, when it is not the leaf's parent, is still in the tree, and the
      freed branch belongs to a pair too. */
  lemma OtherBranch(t0: Trie, t1: Trie, branch: int, f: int, len: nat)
    requires Paired(t0) && LeafIds(t1) == LeafIds(t0) - {f} && BranchIds(t1) == BranchIds(t0) - {branch} && f in LeafIds(t0) && branch in BranchIds(t0)
    requires ONES < f && branch != f + 1 && branch != TOP && t1.id == TOP && BetweenSentinels(Leaves(t0), len)
    ensures f + 1 in BranchIds(t1) && t1.id != f + 1 && ONES < branch
  {
    hide BetweenSentinels;
    PairBranch(t0, f);
    var j := LeafIdHasLeaf(t0, branch - 1);
    KnownLeaf(Leaves(t0), j, len);
  }

  lemma KnownLeaf(s: seq<Trie>, j: nat, len: nat)
    requires BetweenSentinels(s, len) && j < |s|
    ensures s[j].id == ZEROS || s[j].id == ONES || ONES < s[j].id
  {
  }

  lemma RetiredIds(t0: Trie, t2: Trie, f: int)
    requires Distinct(t0) && Paired(t0) && f in LeafIds(t0) && ONES < f
    requires LeafIds(t2) == LeafIds(t0) - {f} && BranchIds(t2) == BranchIds(t0) - {f + 1}
    ensures f !in Ids(t2) && f + 1 !in Ids(t2) && Ids(t2) == Ids(t0) - {f, f + 1} && f in Ids(t0)
  {
    IdsSplit(t0);
    IdsSplit(t2);
    PairBranch(t0, f);
  }

  /** The pair is marked as free; the tree does not notice. */
  lemma Retired(m2: Nodes, m3: Nodes, t0: Trie, t2: Trie, f: int, off: nat, len: nat)
    requires Shape(m2, t2, off, len) && Distinct(t0) && Paired(t0) && f in LeafIds(t0) && ONES < f && f in m2 && f + 1 in m2
    requires LeafIds(t2) == LeafIds(t0) - {f} && BranchIds(t2) == BranchIds(t0) - {f + 1}
    requires var n1 := m2[f := m2[f].(active := false)]; m3 == n1[f + 1 := n1[f + 1].(active := false)]
    ensures Tree(m3, t2, off, len) && f !in Ids(t2) && f + 1 !in Ids(t2) && Ids(t2) == Ids(t0) - {f, f + 1} && f in Ids(t0)
    ensures f in m3 && f + 1 in m3 && !m3[f].active && !m3[f + 1].active
  {
    hide *;
    RetiredIds(t0, t2, f);
    RetiredAgree(m2, m3, Ids(t2), f);
    ShapeFrame(m2, m3, t2, off, len);
    PairedLess(t0, t2, f);
    TreeOf(m3, t2, off, len);
  }

  lemma RetiredAgree(m2: Nodes, m3: Nodes, ids: set<int>, f: int)
    requires f !in ids && f + 1 !in ids && f in m2 && f + 1 in m2
    requires var n1 := m2[f := m2[f].(active := false)]; m3 == n1[f + 1 := n1[f + 1].(active := false)]
    ensures Agree(m2, m3, ids)
    ensures f in m3 && f + 1 in m3 && !m3[f].active && !m3[f + 1].active
  {
  }

  lemma TreeOf(m: Nodes, t: Trie, off: nat, len: nat)
    requires Shape(m, t, off, len) && Paired(t)
    ensures Tree(m, t, off, len)
  {
  }

  lemma PairedLess(t0: Trie, t2: Trie, f: int)
    requires Paired(t0) && LeafIds(t2) == LeafIds(t0) - {f} && BranchIds(t2) == BranchIds(t0) - {f + 1} && ONES < f
    ensures Paired(t2)
  {
    hide LeafIds, BranchIds;
    var leaves, branches := LeafIds(t0), BranchIds(t0);
    forall j {:trigger j in BranchIds(t2)}
      ensures j in BranchIds(t2) <==> j == TOP || IsPairBranch(t2, j)
    {
      assert j in BranchIds(t2) <==> j in branches && j != f + 1;
      assert j - 1 in LeafIds(t2) <==> j - 1 in leaves && j - 1 != f;
      assert j in branches <==> j == TOP || IsPairBranch(t0, j);
    }
  }

  lemma MovedSets(t0: Trie, t1: Trie, t2: Trie, t: int, y: int, leaf: int)
    requires BranchIds(t1) == BranchIds(t0) - {t} && BranchIds(t2) == BranchIds(t1) - {y} + {t} && t in BranchIds(t0) && t != y
    requires LeafIds(t1) == LeafIds(t0) - {leaf} && LeafIds(t2) == LeafIds(t1)
    ensures BranchIds(t2) == BranchIds(t0) - {y} && LeafIds(t2) == LeafIds(t0) - {leaf}
  {
  }

  lemma KeptFlags(m: Nodes, m1: Nodes, f: int)
    requires KeepsFlags(m, m1) && f in m && f + 1 in m
    ensures f in m1 && f + 1 in m1
  {
  }

  lemma PairInMemory(m: Nodes, t0: Trie, f: int)
    requires Formed(m, Hole, t0) && Paired(t0) && f in LeafIds(t0) && ONES < f
    ensures f in m && f + 1 in m
  {
    FormedInMemory(m, t0);
    IdsSplit(t0);
    PairBranch(t0, f);
  }

  lemma BranchIsBeyond(t0: Trie, t: int)
    requires Paired(t0) && t in BranchIds(t0) && t != TOP && LeafIdsKnown(t0)
    ensures ONES < t
  {
  }

  ghost predicate LeafIdsKnown(t: Trie) {
    forall i {:trigger i in LeafIds(t)} :: i in LeafIds(t) ==> i == ZEROS || i == ONES || ONES < i
  }

  lemma LeafIdsAreKnown(t: Trie, len: nat)
    requires BetweenSentinels(Leaves(t), len)
    ensures LeafIdsKnown(t)
  {
    forall i {:trigger i in LeafIds(t)} | i in LeafIds(t)
      ensures i == ZEROS || i == ONES || ONES < i
    {
      var j := LeafIdHasLeaf(t, i);
      assert Leaves(t)[j].id == i;
    }
  }
}
