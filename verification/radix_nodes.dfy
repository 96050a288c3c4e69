/** The nodes of radix.c in memory, and which trees they form. */
module RadixNodes {
  import opened RadixKeys
  import opened RadixTrie

  /** `struct squid_radix_node`; a leaf has a negative b.  The bit mask is told by its one bit. */
  datatype Node = Node(b: int, mask: nat, off: nat, root: bool, active: bool, p: int, l: int, r: int, key: Key)

  /** Nodes by address; the second node of a pair comes right behind the first. */
  type Nodes = map<int, Node>

  ghost predicate Laid(m: Nodes, t: Trie, parent: int) {
    && t.id in m && m[t.id].p == parent
    && match t
       case Leaf(id, key) => m[id].b < 0 && m[id].key == key
       case Branch(id, bit, left, right) =>
         && m[id].b == bit && m[id].mask == MaskBit(bit) && m[id].off == bit / 8
         && m[id].l == left.id && m[id].r == right.id
         && Laid(m, left, id) && Laid(m, right, id)
  }

  /** The parent of what stands in the place; the topmost node is its own. */
  function UpId(x: Context, self: int): int {
    if x.Hole? then self else x.id
  }

  predicate Links(n: Node, left: bool, child: int, other: int) {
    if left then n.l == child && n.r == other else n.r == child && n.l == other
  }

  ghost predicate LaidAround(m: Nodes, x: Context, child: int) {
    match x
    case Hole => true
    case _ =>
      && x.id in m && m[x.id].b == x.bit && m[x.id].mask == MaskBit(x.bit) && m[x.id].off == x.bit / 8
      && m[x.id].p == UpId(x.up, x.id)
      && Links(m[x.id], x.InLeft?, child, x.other.id)
      && Laid(m, x.other, x.id) && LaidAround(m, x.up, x.id)
  }

  /** The nodes form the tree with t in that place. */
  ghost predicate Formed(m: Nodes, x: Context, t: Trie) {
    Laid(m, t, UpId(x, t.id)) && LaidAround(m, x, t.id)
  }

  // ---- addresses ----

  function LeafIds(t: Trie): set<int> {
    match t
    case Leaf(id, _) => {id}
    case Branch(_, _, l, r) => LeafIds(l) + LeafIds(r)
  }

  function BranchIds(t: Trie): set<int> {
    match t
    case Leaf(_, _) => {}
    case Branch(id, _, l, r) => {id} + BranchIds(l) + BranchIds(r)
  }

  function Ids(t: Trie): set<int> {
    match t
    case Leaf(id, _) => {id}
    case Branch(id, _, l, r) => {id} + Ids(l) + Ids(r)
  }

  function IdsAround(x: Context): set<int> {
    match x
    case Hole => {}
    case _ => {x.id} + Ids(x.other) + IdsAround(x.up)
  }

  /** No address is used twice. */
  ghost predicate Distinct(t: Trie) {
    match t
    case Leaf(_, _) => true
    case Branch(id, _, l, r) => id !in Ids(l) && id !in Ids(r) && Ids(l) !! Ids(r) && Distinct(l) && Distinct(r)
  }

  ghost predicate DistinctAround(x: Context) {
    match x
    case Hole => true
    case _ =>
      && x.id !in Ids(x.other) && x.id !in IdsAround(x.up) && Ids(x.other) !! IdsAround(x.up)
      && Distinct(x.other) && DistinctAround(x.up)
  }

  ghost predicate Apart(x: Context, t: Trie) {
    Distinct(t) && DistinctAround(x) && Ids(t) !! IdsAround(x)
  }

  lemma {:induction false} PlugIds(x: Context, t: Trie)
    ensures Ids(Plug(x, t)) == Ids(t) + IdsAround(x)
    ensures Distinct(Plug(x, t)) <==> Apart(x, t)
    decreases x
  {
    match x
    case Hole =>
    case InLeft(id, bit, other, up) => PlugIds(up, Branch(id, bit, t, other));
    case InRight(id, bit, other, up) => PlugIds(up, Branch(id, bit, other, t));
  }

  lemma {:induction false} FormedTop(m: Nodes, x: Context, t: Trie)
    ensures Formed(m, x, t) <==> Formed(m, Hole, Plug(x, t))
    decreases x
  {
    match x
    case Hole =>
    case InLeft(id, bit, other, up) => FormedTop(m, up, Branch(id, bit, t, other));
    case InRight(id, bit, other, up) => FormedTop(m, up, Branch(id, bit, other, t));
  }

  lemma {:induction false} IdsSplit(t: Trie)
    ensures Ids(t) == LeafIds(t) + BranchIds(t) && t.id in Ids(t)
    ensures Distinct(t) ==> LeafIds(t) !! BranchIds(t)
  {
    if t.Branch? {
      IdsSplit(t.left);
      IdsSplit(t.right);
    }
  }

  // ---- frames ----

  ghost predicate Agree(m: Nodes, m': Nodes, s: set<int>) {
    forall i {:trigger i in s} :: i in s ==> (i in m <==> i in m') && (i in m ==> m'[i] == m[i])
  }

  lemma {:induction false} LaidFrame(m: Nodes, m': Nodes, t: Trie, parent: int)
    requires Laid(m, t, parent) && Agree(m, m', Ids(t))
    ensures Laid(m', t, parent)
  {
    if t.Branch? {
      assert t.id in Ids(t);
      assert Agree(m, m', Ids(t.left)) by {
        SubsetAgrees(m, m', Ids(t), Ids(t.left));
      }
      assert Agree(m, m', Ids(t.right)) by {
        SubsetAgrees(m, m', Ids(t), Ids(t.right));
      }
      LaidFrame(m, m', t.left, t.id);
      LaidFrame(m, m', t.right, t.id);
    } else {
      assert t.id in Ids(t);
    }
  }

  lemma SubsetAgrees(m: Nodes, m': Nodes, s: set<int>, s': set<int>)
    requires Agree(m, m', s) && s' <= s
    ensures Agree(m, m', s')
  {
    forall i {:trigger i in s'} | i in s'
      ensures (i in m <==> i in m') && (i in m ==> m'[i] == m[i])
    {
      assert i in s;
    }
  }

  lemma {:induction false} AroundFrame(m: Nodes, m': Nodes, x: Context, child: int)
    requires LaidAround(m, x, child) && Agree(m, m', IdsAround(x))
    ensures LaidAround(m', x, child)
    decreases x
  {
    if !x.Hole? {
      assert x.id in IdsAround(x);
      SubsetAgrees(m, m', IdsAround(x), Ids(x.other));
      SubsetAgrees(m, m', IdsAround(x), IdsAround(x.up));
      LaidFrame(m, m', x.other, x.id);
      AroundFrame(m, m', x.up, x.id);
    }
  }

  /** Only the link to the place has changed. */
  ghost predicate Relinked(m: Nodes, m': Nodes, x: Context, child: int) {
    !x.Hole? ==>
      && x.id in m && x.id in m'
      && m'[x.id] == (if x.InLeft? then m[x.id].(l := child) else m[x.id].(r := child))
      && Agree(m, m', Ids(x.other) + IdsAround(x.up))
  }

  /** Another tree is linked into the place. */
  lemma FormedRelinked(m: Nodes, m': Nodes, x: Context, t: Trie, t': Trie)
    requires Formed(m, x, t) && Apart(x, t) && Relinked(m, m', x, t'.id) && Laid(m', t', UpId(x, t'.id))
    ensures Formed(m', x, t')
  {
    if !x.Hole? {
      SubsetAgrees(m, m', Ids(x.other) + IdsAround(x.up), Ids(x.other));
      SubsetAgrees(m, m', Ids(x.other) + IdsAround(x.up), IdsAround(x.up));
      LaidFrame(m, m', x.other, x.id);
      AroundFrame(m, m', x.up, x.id);
    }
  }

  /** A tree with a new parent. */
  lemma LaidReparented(m: Nodes, m': Nodes, t: Trie, parent: int, parent': int)
    requires Laid(m, t, parent) && Distinct(t) && t.id in m' && m'[t.id] == m[t.id].(p := parent')
    requires Agree(m, m', Ids(t) - {t.id})
    ensures Laid(m', t, parent')
  {
    if t.Branch? {
      SubsetAgrees(m, m', Ids(t) - {t.id}, Ids(t.left));
      SubsetAgrees(m, m', Ids(t) - {t.id}, Ids(t.right));
      LaidFrame(m, m', t.left, t.id);
      LaidFrame(m, m', t.right, t.id);
    }
  }

  // ---- what the leaves around a place are ----

  function LeavesBefore(x: Context): seq<Trie> {
    match x
    case Hole => []
    case InLeft(_, _, _, up) => LeavesBefore(up)
    case InRight(_, _, other, up) => LeavesBefore(up) + Leaves(other)
  }

  function LeavesAfter(x: Context): seq<Trie> {
    match x
    case Hole => []
    case InLeft(_, _, other, up) => Leaves(other) + LeavesAfter(up)
    case InRight(_, _, _, up) => LeavesAfter(up)
  }

  lemma Regroup(a: seq<Trie>, b: seq<Trie>, c: seq<Trie>, d: seq<Trie>)
    ensures a + (b + c) + d == a + b + (c + d) == a + b + c + d
  {
  }

  lemma {:induction false} PlugLeaves(x: Context, t: Trie)
    ensures Leaves(Plug(x, t)) == LeavesBefore(x) + Leaves(t) + LeavesAfter(x)
    decreases x
  {
    match x
    case Hole =>
    case InLeft(id, bit, other, up) =>
      PlugLeaves(up, Branch(id, bit, t, other));
      Regroup(LeavesBefore(up), Leaves(t), Leaves(other), LeavesAfter(up));
    case InRight(id, bit, other, up) =>
      PlugLeaves(up, Branch(id, bit, other, t));
      Regroup(LeavesBefore(up), Leaves(other), Leaves(t), LeavesAfter(up));
  }

  lemma {:induction false} LeafIdHasLeaf(t: Trie, i: int) returns (j: nat)
    requires i in LeafIds(t)
    ensures j < |Leaves(t)| && Leaves(t)[j].id == i
    decreases t
  {
    if t.Leaf? {
      j := 0;
    } else if i in LeafIds(t.left) {
      j := LeafIdHasLeaf(t.left, i);
    } else {
      var k := LeafIdHasLeaf(t.right, i);
      j := |Leaves(t.left)| + k;
    }
  }

  /** The place of the branch with a given address. */
  lemma {:induction false} PlaceOf(x: Context, t: Trie, id: int) returns (x': Context, t': Trie)
    requires id in BranchIds(t)
    ensures Plug(x', t') == Plug(x, t) && t'.Branch? && t'.id == id
    decreases t
  {
    if t.id == id {
      x', t' := x, t;
    } else if id in BranchIds(t.left) {
      x', t' := PlaceOf(InLeft(t.id, t.bit, t.right, x), t.left, id);
    } else {
      x', t' := PlaceOf(InRight(t.id, t.bit, t.left, x), t.right, id);
    }
  }

  function BranchIdsAround(x: Context): set<int> {
    match x
    case Hole => {}
    case _ => {x.id} + BranchIds(x.other) + BranchIdsAround(x.up)
  }

  function LeafIdsAround(x: Context): set<int> {
    match x
    case Hole => {}
    case _ => LeafIds(x.other) + LeafIdsAround(x.up)
  }

  lemma {:induction false} PlugSets(x: Context, t: Trie)
    ensures BranchIds(Plug(x, t)) == BranchIds(t) + BranchIdsAround(x)
    ensures LeafIds(Plug(x, t)) == LeafIds(t) + LeafIdsAround(x)
    ensures IdsAround(x) == BranchIdsAround(x) + LeafIdsAround(x)
    decreases x
  {
    match x
    case Hole =>
    case InLeft(id, bit, other, up) =>
      IdsSplit(other);
      PlugSets(up, Branch(id, bit, t, other));
    case InRight(id, bit, other, up) =>
      IdsSplit(other);
      PlugSets(up, Branch(id, bit, other, t));
  }
}
