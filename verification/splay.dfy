/** splay.c: a binary tree of nodes in memory that is turned top-down at every access, as a sorted set. */
module Splays {

  /** `splayNode`; the null pointer is NIL. */
  datatype Node<K> = Node(data: K, left: int, right: int)
  type Memory<K> = map<int, Node<K>>

  const NIL := 0

  /** The tree that nodes in memory stand for. */
  datatype Tree<K> = Empty | Fork(id: int, data: K, left: Tree<K>, right: Tree<K>)

  /** The tree of smaller nodes that grows to the right, open at the right end; and its mirror image. */
  datatype Side<K> = Top | Link(up: Side<K>, id: int, data: K, sub: Tree<K>)

  function Ptr<K>(t: Tree<K>): int {
    if t.Empty? then NIL else t.id
  }

  function Items<K>(t: Tree<K>): seq<K> {
    match t
    case Empty => []
    case Fork(_, data, l, r) => Items(l) + [data] + Items(r)
  }

  function ItemsLess<K>(s: Side<K>): seq<K> {
    match s
    case Top => []
    case Link(up, _, data, sub) => ItemsLess(up) + (Items(sub) + [data])
  }

  function ItemsMore<K>(s: Side<K>): seq<K> {
    match s
    case Top => []
    case Link(up, _, data, sub) => [data] + Items(sub) + ItemsMore(up)
  }

  function Ids<K>(t: Tree<K>): set<int> {
    match t
    case Empty => {}
    case Fork(id, _, l, r) => {id} + Ids(l) + Ids(r)
  }

  function IdsOf<K>(s: Side<K>): set<int> {
    match s
    case Top => {}
    case Link(up, id, _, sub) => {id} + Ids(sub) + IdsOf(up)
  }

  /** No node is in two places. */
  ghost predicate Distinct<K>(t: Tree<K>) {
    match t
    case Empty => true
    case Fork(id, _, l, r) => id != NIL && id !in Ids(l) && id !in Ids(r) && Ids(l) !! Ids(r) && Distinct(l) && Distinct(r)
  }

  ghost predicate DistinctSide<K>(s: Side<K>) {
    match s
    case Top => true
    case Link(up, id, _, sub) => id != NIL && id !in Ids(sub) && id !in IdsOf(up) && Ids(sub) !! IdsOf(up) && Distinct(sub) && DistinctSide(up)
  }

  ghost predicate Laid<K>(m: Memory<K>, t: Tree<K>) {
    match t
    case Empty => true
    case Fork(id, data, l, r) => id in m && m[id] == Node(data, Ptr(l), Ptr(r)) && Laid(m, l) && Laid(m, r)
  }

  /** The open end of a side is the right pointer of its last node, or of the header n. */
  ghost predicate LaidLess<K>(m: Memory<K>, n: int, s: Side<K>) {
    match s
    case Top => true
    case Link(up, id, data, sub) =>
      && id in m && m[id].data == data && m[id].left == Ptr(sub) && Laid(m, sub)
      && EndLess(m, n, up) == id && LaidLess(m, n, up)
  }

  ghost predicate LaidMore<K>(m: Memory<K>, n: int, s: Side<K>) {
    match s
    case Top => true
    case Link(up, id, data, sub) =>
      && id in m && m[id].data == data && m[id].right == Ptr(sub) && Laid(m, sub)
      && EndMore(m, n, up) == id && LaidMore(m, n, up)
  }

  function EndLess<K>(m: Memory<K>, n: int, s: Side<K>): int {
    if s.Top? then n else if s.id in m then m[s.id].right else NIL
  }

  function EndMore<K>(m: Memory<K>, n: int, s: Side<K>): int {
    if s.Top? then n else if s.id in m then m[s.id].left else NIL
  }

  function CloseLess<K>(s: Side<K>, t: Tree<K>): Tree<K>
    decreases s
  {
    if s.Top? then t else CloseLess(s.up, Fork(s.id, s.data, s.sub, t))
  }

  function CloseMore<K>(s: Side<K>, t: Tree<K>): Tree<K>
    decreases s
  {
    if s.Top? then t else CloseMore(s.up, Fork(s.id, s.data, t, s.sub))
  }

  // ---- frames ----

  ghost predicate Agree<K>(m: Memory<K>, m': Memory<K>, ids: set<int>) {
    forall i {:trigger i in ids} :: i in ids && i in m ==> i in m' && m'[i] == m[i]
  }

  lemma {:induction false} LaidFrame<K>(m: Memory<K>, m': Memory<K>, t: Tree<K>)
    requires Laid(m, t) && Agree(m, m', Ids(t))
    ensures Laid(m', t)
    decreases t
  {
    if t.Fork? {
      assert t.id in Ids(t);
      AgreeLess(m, m', Ids(t), Ids(t.left));
      AgreeLess(m, m', Ids(t), Ids(t.right));
      LaidFrame(m, m', t.left);
      LaidFrame(m, m', t.right);
    }
  }

  lemma AgreeLess<K>(m: Memory<K>, m': Memory<K>, ids: set<int>, less: set<int>)
    requires Agree(m, m', ids) && less <= ids
    ensures Agree(m, m', less)
  {
    forall i {:trigger i in less} | i in less && i in m
      ensures i in m' && m'[i] == m[i]
    {
      assert i in ids;
    }
  }

  lemma {:induction false} LessFrame<K>(m: Memory<K>, m': Memory<K>, n: int, s: Side<K>)
    requires LaidLess(m, n, s) && Agree(m, m', IdsOf(s))
    ensures LaidLess(m', n, s) && EndLess(m', n, s) == EndLess(m, n, s)
    decreases s
  {
    if s.Link? {
      assert s.id in IdsOf(s);
      AgreeLess(m, m', IdsOf(s), Ids(s.sub));
      AgreeLess(m, m', IdsOf(s), IdsOf(s.up));
      LaidFrame(m, m', s.sub);
      LessFrame(m, m', n, s.up);
    }
  }

  lemma {:induction false} MoreFrame<K>(m: Memory<K>, m': Memory<K>, n: int, s: Side<K>)
    requires LaidMore(m, n, s) && Agree(m, m', IdsOf(s))
    ensures LaidMore(m', n, s) && EndMore(m', n, s) == EndMore(m, n, s)
    decreases s
  {
    if s.Link? {
      assert s.id in IdsOf(s);
      AgreeLess(m, m', IdsOf(s), Ids(s.sub));
      AgreeLess(m, m', IdsOf(s), IdsOf(s.up));
      LaidFrame(m, m', s.sub);
      MoreFrame(m, m', n, s.up);
    }
  }

  /** The last node's open pointer may be overwritten. */
  lemma LessOpen<K>(m: Memory<K>, m': Memory<K>, n: int, n': int, s: Side<K>, child: int)
    requires LaidLess(m, n, s) && DistinctSide(s)
    requires LessWritten(m, m', n, n', s, child)
    ensures LaidLess(m', n', s) && EndLess(m', n', s) == child
  {
    if s.Link? {
      assert Agree(m, m', Ids(s.sub)) && Agree(m, m', IdsOf(s.up));
      LaidFrame(m, m', s.sub);
      LessFrame(m, m', n, s.up);
    }
  }

  lemma MoreOpen<K>(m: Memory<K>, m': Memory<K>, n: int, n': int, s: Side<K>, child: int)
    requires LaidMore(m, n, s) && DistinctSide(s)
    requires MoreWritten(m, m', n, n', s, child)
    ensures LaidMore(m', n', s) && EndMore(m', n', s) == child
  {
    if s.Link? {
      assert Agree(m, m', Ids(s.sub)) && Agree(m, m', IdsOf(s.up));
      LaidFrame(m, m', s.sub);
      MoreFrame(m, m', n, s.up);
    }
  }

  // ---- closing the sides ----

  lemma {:induction false} LessClosed<K>(m: Memory<K>, n: int, s: Side<K>, t: Tree<K>)
    requires LaidLess(m, n, s) && Laid(m, t) && EndLess(m, n, s) == Ptr(t)
    ensures Laid(m, CloseLess(s, t)) && Ptr(CloseLess(s, t)) == n
    decreases s
  {
    if s.Link? {
      var u := Fork(s.id, s.data, s.sub, t);
      LessClosed(m, n, s.up, u);
    }
  }

  lemma {:induction false} MoreClosed<K>(m: Memory<K>, n: int, s: Side<K>, t: Tree<K>)
    requires LaidMore(m, n, s) && Laid(m, t) && EndMore(m, n, s) == Ptr(t)
    ensures Laid(m, CloseMore(s, t)) && Ptr(CloseMore(s, t)) == n
    decreases s
  {
    if s.Link? {
      var u := Fork(s.id, s.data, t, s.sub);
      MoreClosed(m, n, s.up, u);
    }
  }

  lemma {:induction false} LessDistinct<K>(s: Side<K>, t: Tree<K>)
    requires DistinctSide(s) && Distinct(t) && IdsOf(s) !! Ids(t)
    ensures Distinct(CloseLess(s, t))
    decreases s
  {
    if s.Link? {
      LessDistinct(s.up, Fork(s.id, s.data, s.sub, t));
    }
  }

  lemma {:induction false} MoreDistinct<K>(s: Side<K>, t: Tree<K>)
    requires DistinctSide(s) && Distinct(t) && IdsOf(s) !! Ids(t)
    ensures Distinct(CloseMore(s, t))
    decreases s
  {
    if s.Link? {
      MoreDistinct(s.up, Fork(s.id, s.data, t, s.sub));
    }
  }

  // ---- order ----

  /** What a comparison function is expected to be. */
  ghost predicate Ordering<K(!new)>(cmp: (K, K) -> int) {
    && (forall a, b {:trigger cmp(a, b)} :: cmp(a, b) < 0 <==> cmp(b, a) > 0)
    && (forall a, b, c {:trigger cmp(a, b), cmp(b, c)} :: cmp(a, b) <= 0 && cmp(b, c) <= 0 ==> cmp(a, c) <= 0)
    && (forall a, b, c {:trigger cmp(a, b), cmp(b, c)} :: cmp(a, b) <= 0 && cmp(b, c) <= 0 && (cmp(a, b) < 0 || cmp(b, c) < 0) ==> cmp(a, c) < 0)
  }

  ghost predicate Sorted<K>(cmp: (K, K) -> int, s: seq<K>) {
    forall i, j {:trigger s[i], s[j]} :: 0 <= i < j < |s| ==> cmp(s[i], s[j]) < 0
  }

  ghost predicate AllBelow<K>(cmp: (K, K) -> int, s: seq<K>, x: K) {
    forall i {:trigger s[i]} :: 0 <= i < |s| ==> cmp(x, s[i]) > 0
  }

  ghost predicate AllAbove<K>(cmp: (K, K) -> int, s: seq<K>, x: K) {
    forall i {:trigger s[i]} :: 0 <= i < |s| ==> cmp(x, s[i]) < 0
  }

  lemma BelowJoined<K>(cmp: (K, K) -> int, a: seq<K>, b: seq<K>, x: K)
    requires AllBelow(cmp, a, x) && AllBelow(cmp, b, x)
    ensures AllBelow(cmp, a + b, x)
  {
  }

  lemma AboveJoined<K>(cmp: (K, K) -> int, a: seq<K>, b: seq<K>, x: K)
    requires AllAbove(cmp, a, x) && AllAbove(cmp, b, x)
    ensures AllAbove(cmp, a + b, x)
  {
  }

  /** What comes before an item that x is beyond is below x, and the other way round. */
  lemma SortedAround<K(!new)>(cmp: (K, K) -> int, a: seq<K>, k: K, b: seq<K>, x: K)
    requires Ordering(cmp) && Sorted(cmp, a + [k] + b)
    ensures cmp(x, k) >= 0 ==> AllBelow(cmp, a, x)
    ensures cmp(x, k) <= 0 ==> AllAbove(cmp, b, x)
  {
    var s := a + [k] + b;
    forall i {:trigger a[i]} | 0 <= i < |a|
      ensures cmp(x, k) >= 0 ==> cmp(x, a[i]) > 0
    {
      assert s[i] == a[i] && s[|a|] == k;
      assert cmp(a[i], k) < 0;
    }
    forall i {:trigger b[i]} | 0 <= i < |b|
      ensures cmp(x, k) <= 0 ==> cmp(x, b[i]) < 0
    {
      assert s[|a|] == k && s[|a| + 1 + i] == b[i];
      assert cmp(k, b[i]) < 0;
    }
  }

  lemma SortedPart<K>(cmp: (K, K) -> int, a: seq<K>, b: seq<K>, c: seq<K>)
    requires Sorted(cmp, a + b + c)
    ensures Sorted(cmp, b)
  {
    var s := a + b + c;
    forall i, j {:trigger b[i], b[j]} | 0 <= i < j < |b|
      ensures cmp(b[i], b[j]) < 0
    {
      assert s[|a| + i] == b[i] && s[|a| + j] == b[j];
    }
  }

  /** Insertion into a sorted list that keeps the item that is there already: what a sorted set does. */
  function Inserted<K>(cmp: (K, K) -> int, s: seq<K>, x: K): seq<K> {
    if s == [] then [x]
    else if cmp(x, s[0]) < 0 then [x] + s
    else if cmp(x, s[0]) == 0 then s
    else [s[0]] + Inserted(cmp, s[1..], x)
  }

  lemma BelowTail<K>(cmp: (K, K) -> int, a: seq<K>, x: K)
    requires AllBelow(cmp, a, x) && a != []
    ensures cmp(x, a[0]) > 0 && AllBelow(cmp, a[1..], x)
  {
    assert forall i {:trigger a[1..][i]} :: 0 <= i < |a| - 1 ==> a[1..][i] == a[i + 1];
  }

  lemma InsertedFurther<K>(cmp: (K, K) -> int, a: seq<K>, b: seq<K>, x: K)
    requires a != [] && cmp(x, a[0]) > 0
    ensures Inserted(cmp, a + b, x) == [a[0]] + Inserted(cmp, a[1..] + b, x)
  {
    assert (a + b)[0] == a[0] && (a + b)[1..] == a[1..] + b;
  }

  lemma {:induction false} InsertedBetween<K>(cmp: (K, K) -> int, a: seq<K>, x: K, b: seq<K>)
    requires AllBelow(cmp, a, x) && AllAbove(cmp, b, x)
    ensures Inserted(cmp, a + b, x) == a + [x] + b
  {
    if a == [] {
      assert a + b == b && a + [x] + b == [x] + b;
    } else {
      hide *;
      BelowTail(cmp, a, x);
      InsertedFurther(cmp, a, b, x);
      InsertedBetween(cmp, a[1..], x, b);
      assert [a[0]] + (a[1..] + [x] + b) == a + [x] + b;
    }
  }

  lemma {:induction false} InsertedThere<K>(cmp: (K, K) -> int, a: seq<K>, k: K, b: seq<K>, x: K)
    requires AllBelow(cmp, a, x) && cmp(x, k) == 0
    ensures Inserted(cmp, a + [k] + b, x) == a + [k] + b
  {
    if a == [] {
      assert (a + [k] + b)[0] == k;
    } else {
      hide *;
      BelowTail(cmp, a, x);
      assert a + [k] + b == a + ([k] + b) && a[1..] + [k] + b == a[1..] + ([k] + b);
      InsertedFurther(cmp, a, [k] + b, x);
      InsertedThere(cmp, a[1..], k, b, x);
      assert [a[0]] + (a[1..] + [k] + b) == a + [k] + b;
    }
  }

  lemma {:induction false} InsertedKeeps<K(!new)>(cmp: (K, K) -> int, s: seq<K>, x: K)
    ensures forall k {:trigger k in Inserted(cmp, s, x)} :: k in Inserted(cmp, s, x) ==> k in s || k == x
    ensures forall k {:trigger k in s} :: k in s ==> k in Inserted(cmp, s, x)
  {
    if s != [] && cmp(x, s[0]) > 0 {
      InsertedKeeps(cmp, s[1..], x);
      forall k {:trigger k in s} | k in s
        ensures k in Inserted(cmp, s, x)
      {
        assert k == s[0] || k in s[1..];
      }
    }
  }

  lemma {:induction false} InsertedHas<K(!new)>(cmp: (K, K) -> int, s: seq<K>, x: K) returns (k: K)
    requires cmp(x, x) == 0
    ensures k in Inserted(cmp, s, x) && cmp(x, k) == 0
  {
    if s == [] || cmp(x, s[0]) < 0 {
      k := x;
      assert Inserted(cmp, s, x)[0] == x;
    } else if cmp(x, s[0]) == 0 {
      k := s[0];
    } else {
      k := InsertedHas(cmp, s[1..], x);
    }
  }

  lemma HeadFirst<K>(cmp: (K, K) -> int, k: K, t: seq<K>)
    requires Sorted(cmp, t) && forall e {:trigger e in t} :: e in t ==> cmp(k, e) < 0
    ensures Sorted(cmp, [k] + t)
  {
    var u := [k] + t;
    forall i, j {:trigger u[i], u[j]} | 0 <= i < j < |u|
      ensures cmp(u[i], u[j]) < 0
    {
      assert u[j] == t[j - 1] && t[j - 1] in t;
      assert i > 0 ==> u[i] == t[i - 1];
    }
  }

  lemma TailSorted<K>(cmp: (K, K) -> int, s: seq<K>)
    requires Sorted(cmp, s) && s != []
    ensures Sorted(cmp, s[1..]) && forall e {:trigger e in s[1..]} :: e in s[1..] ==> cmp(s[0], e) < 0
  {
    var r := s[1..];
    forall i, j {:trigger r[i], r[j]} | 0 <= i < j < |r|
      ensures cmp(r[i], r[j]) < 0
    {
      assert s[i + 1] == r[i] && s[j + 1] == r[j];
    }
    forall e {:trigger e in r} | e in r
      ensures cmp(s[0], e) < 0
    {
      var i :| 0 <= i < |r| && r[i] == e;
      assert s[i + 1] == e;
    }
  }

  /** The list stays sorted. */
  lemma {:induction false} InsertedSorted<K(!new)>(cmp: (K, K) -> int, s: seq<K>, x: K)
    requires Ordering(cmp) && Sorted(cmp, s)
    ensures Sorted(cmp, Inserted(cmp, s, x))
  {
    if s != [] {
      var r, k := s[1..], s[0];
      TailSorted(cmp, s);
      if cmp(x, k) < 0 {
        forall e {:trigger e in s} | e in s
          ensures cmp(x, e) < 0
        {
          if e != k {
            assert e in r;
            assert cmp(x, k) < 0 && cmp(k, e) < 0;
          }
        }
        HeadFirst(cmp, x, s);
      } else if cmp(x, k) > 0 {
        InsertedSorted(cmp, r, x);
        InsertedKeeps(cmp, r, x);
        assert cmp(k, x) < 0;
        HeadFirst(cmp, k, Inserted(cmp, r, x));
      }
    }
  }

  // ---- definitions one level down ----

  lemma TreeIs<K>(m: Memory<K>, t: Tree<K>)
    requires t.Fork?
    ensures Laid(m, t) <==> t.id in m && m[t.id] == Node(t.data, Ptr(t.left), Ptr(t.right)) && Laid(m, t.left) && Laid(m, t.right)
    ensures Ptr(t) == t.id
  {
  }

  lemma DistinctIs<K>(t: Tree<K>)
    requires t.Fork?
    ensures Ids(t) == {t.id} + Ids(t.left) + Ids(t.right)
    ensures Distinct(t) <==> t.id != NIL && t.id !in Ids(t.left) && t.id !in Ids(t.right) && Ids(t.left) !! Ids(t.right) && Distinct(t.left) && Distinct(t.right)
  {
  }

  lemma ItemsIs<K>(t: Tree<K>)
    requires t.Fork?
    ensures Items(t) == Items(t.left) + [t.data] + Items(t.right)
  {
  }

  lemma LessIs<K>(m: Memory<K>, n: int, s: Side<K>)
    ensures s.Link? ==> (LaidLess(m, n, s) <==> s.id in m && m[s.id].data == s.data && m[s.id].left == Ptr(s.sub) && Laid(m, s.sub) && EndLess(m, n, s.up) == s.id && LaidLess(m, n, s.up))
    ensures s.Link? && s.id in m ==> EndLess(m, n, s) == m[s.id].right
    ensures s.Top? ==> LaidLess(m, n, s) && EndLess(m, n, s) == n
  {
  }

  lemma MoreIs<K>(m: Memory<K>, n: int, s: Side<K>)
    ensures s.Link? ==> (LaidMore(m, n, s) <==> s.id in m && m[s.id].data == s.data && m[s.id].right == Ptr(s.sub) && Laid(m, s.sub) && EndMore(m, n, s.up) == s.id && LaidMore(m, n, s.up))
    ensures s.Link? && s.id in m ==> EndMore(m, n, s) == m[s.id].left
    ensures s.Top? ==> LaidMore(m, n, s) && EndMore(m, n, s) == n
  {
  }

  lemma SideIs<K>(s: Side<K>)
    ensures s.Link? ==> IdsOf(s) == {s.id} + Ids(s.sub) + IdsOf(s.up)
    ensures s.Link? ==> (DistinctSide(s) <==> s.id != NIL && s.id !in Ids(s.sub) && s.id !in IdsOf(s.up) && Ids(s.sub) !! IdsOf(s.up) && Distinct(s.sub) && DistinctSide(s.up))
    ensures s.Top? ==> IdsOf(s) == {} && DistinctSide(s)
  {
  }

  lemma SideItems<K>(s: Side<K>)
    ensures s.Link? ==> ItemsLess(s) == ItemsLess(s.up) + (Items(s.sub) + [s.data])
    ensures s.Link? ==> ItemsMore(s) == [s.data] + Items(s.sub) + ItemsMore(s.up)
    ensures s.Top? ==> ItemsLess(s) == [] && ItemsMore(s) == []
  {
  }

  /** One node is written. */
  lemma WriteAgrees<K>(m: Memory<K>, id: int, n: Node<K>, ids: set<int>)
    requires id !in ids
    ensures Agree(m, m[id := n], ids)
  {
  }

  // ---- the three trees of the loop ----

  /** The tree being searched, between the tree of smaller and the tree of larger nodes; nr and nl are the header's pointers. */
  ghost predicate Parted<K>(m: Memory<K>, nr: int, nl: int, l: Side<K>, t: Tree<K>, r: Side<K>) {
    LaidLess(m, nr, l) && Laid(m, t) && LaidMore(m, nl, r)
  }

  ghost predicate Separate<K>(l: Side<K>, t: Tree<K>, r: Side<K>) {
    && DistinctSide(l) && Distinct(t) && DistinctSide(r)
    && IdsOf(l) !! Ids(t) && IdsOf(l) !! IdsOf(r) && Ids(t) !! IdsOf(r)
  }

  function Whole<K>(l: Side<K>, t: Tree<K>, r: Side<K>): seq<K> {
    ItemsLess(l) + Items(t) + ItemsMore(r)
  }

  function WholeIds<K>(l: Side<K>, t: Tree<K>, r: Side<K>): set<int> {
    IdsOf(l) + Ids(t) + IdsOf(r)
  }

  /** Only nodes among ids have been written, and none came or went. */
  ghost predicate Rewired<K>(m: Memory<K>, m': Memory<K>, ids: set<int>) {
    && m'.Keys == m.Keys
    && forall i {:trigger m'[i]} :: i in m && i !in ids ==> m'[i] == m[i]
  }

  function SideEnd<K>(s: Side<K>): int {
    if s.Top? then NIL else s.id
  }

  /** The tree one step to the left or right, with the node passed on the other side. */
  function PassedRight<K>(t: Tree<K>, r: Side<K>): Side<K>
    requires t.Fork?
  {
    Link(r, t.id, t.data, t.right)
  }

  function PassedLeft<K>(l: Side<K>, t: Tree<K>): Side<K>
    requires t.Fork?
  {
    Link(l, t.id, t.data, t.left)
  }

  lemma PassedRightWhole<K>(l: Side<K>, t: Tree<K>, r: Side<K>)
    requires t.Fork?
    ensures Separate(l, t, r) ==> Separate(l, t.left, PassedRight(t, r))
    ensures Whole(l, t.left, PassedRight(t, r)) == Whole(l, t, r)
    ensures WholeIds(l, t.left, PassedRight(t, r)) == WholeIds(l, t, r)
  {
    hide Items, ItemsLess, ItemsMore, Ids, IdsOf, Distinct, DistinctSide;
    var r' := PassedRight(t, r);
    DistinctIs(t);
    SideIs(r');
    ItemsIs(t);
    SideItems(r');
    assert ItemsLess(l) + Items(t.left) + ([t.data] + Items(t.right) + ItemsMore(r)) == ItemsLess(l) + (Items(t.left) + [t.data] + Items(t.right)) + ItemsMore(r);
  }

  lemma PassedLeftWhole<K>(l: Side<K>, t: Tree<K>, r: Side<K>)
    requires t.Fork?
    ensures Separate(l, t, r) ==> Separate(PassedLeft(l, t), t.right, r)
    ensures Whole(PassedLeft(l, t), t.right, r) == Whole(l, t, r)
    ensures WholeIds(PassedLeft(l, t), t.right, r) == WholeIds(l, t, r)
  {
    hide Items, ItemsLess, ItemsMore, Ids, IdsOf, Distinct, DistinctSide;
    var l' := PassedLeft(l, t);
    DistinctIs(t);
    SideIs(l');
    ItemsIs(t);
    SideItems(l');
    assert ItemsLess(l) + (Items(t.left) + [t.data]) + Items(t.right) + ItemsMore(r) == ItemsLess(l) + (Items(t.left) + [t.data] + Items(t.right)) + ItemsMore(r);
  }

  /** The open end of one side is written. */
  ghost predicate LessWritten<K>(m: Memory<K>, m': Memory<K>, n: int, n': int, s: Side<K>, child: int) {
    if s.Top? then m' == m && n' == child else n' == n && s.id in m && m' == m[s.id := m[s.id].(right := child)]
  }

  ghost predicate MoreWritten<K>(m: Memory<K>, m': Memory<K>, n: int, n': int, s: Side<K>, child: int) {
    if s.Top? then m' == m && n' == child else n' == n && s.id in m && m' == m[s.id := m[s.id].(left := child)]
  }

  lemma LessWrittenAgrees<K>(m: Memory<K>, m': Memory<K>, n: int, n': int, s: Side<K>, child: int, ids: set<int>)
    requires LessWritten(m, m', n, n', s, child) && ids !! IdsOf(s)
    ensures Agree(m, m', ids)
  {
    hide IdsOf;
    SideIs(s);
  }

  lemma MoreWrittenAgrees<K>(m: Memory<K>, m': Memory<K>, n: int, n': int, s: Side<K>, child: int, ids: set<int>)
    requires MoreWritten(m, m', n, n', s, child) && ids !! IdsOf(s)
    ensures Agree(m, m', ids)
  {
    hide IdsOf;
    SideIs(s);
  }

  lemma LinkedRight<K>(m: Memory<K>, m': Memory<K>, nr: int, nl: int, nl': int, l: Side<K>, t: Tree<K>, r: Side<K>)
    requires Parted(m, nr, nl, l, t, r) && Separate(l, t, r) && t.Fork?
    requires MoreWritten(m, m', nl, nl', r, t.id)
    ensures Parted(m', nr, nl', l, t.left, PassedRight(t, r))
    ensures Rewired(m, m', WholeIds(l, t, r))
  {
    hide Laid, LaidLess, LaidMore, EndLess, EndMore, Ids, IdsOf, Distinct, DistinctSide, Agree;
    MoreOpen(m, m', nl, nl', r, t.id);
    MoreWrittenAgrees(m, m', nl, nl', r, t.id, Ids(t));
    MoreWrittenAgrees(m, m', nl, nl', r, t.id, IdsOf(l));
    LaidFrame(m, m', t);
    LessFrame(m, m', nr, l);
    TreeIs(m', t);
    MoreIs(m', nl', PassedRight(t, r));
    SideIs(r);
  }

  lemma LinkedLeft<K>(m: Memory<K>, m': Memory<K>, nr: int, nr': int, nl: int, l: Side<K>, t: Tree<K>, r: Side<K>)
    requires Parted(m, nr, nl, l, t, r) && Separate(l, t, r) && t.Fork?
    requires LessWritten(m, m', nr, nr', l, t.id)
    ensures Parted(m', nr', nl, PassedLeft(l, t), t.right, r)
    ensures Rewired(m, m', WholeIds(l, t, r))
  {
    hide Laid, LaidLess, LaidMore, EndLess, EndMore, Ids, IdsOf, Distinct, DistinctSide, Agree;
    LessOpen(m, m', nr, nr', l, t.id);
    LessWrittenAgrees(m, m', nr, nr', l, t.id, Ids(t));
    LessWrittenAgrees(m, m', nr, nr', l, t.id, IdsOf(r));
    LaidFrame(m, m', t);
    MoreFrame(m, m', nl, r);
    TreeIs(m', t);
    LessIs(m', nr', PassedLeft(l, t));
    SideIs(l);
  }

  function RotateRight<K>(t: Tree<K>): Tree<K>
    requires t.Fork? && t.left.Fork?
  {
    Fork(t.left.id, t.left.data, t.left.left, Fork(t.id, t.data, t.left.right, t.right))
  }

  function RotateLeft<K>(t: Tree<K>): Tree<K>
    requires t.Fork? && t.right.Fork?
  {
    Fork(t.right.id, t.right.data, Fork(t.id, t.data, t.left, t.right.left), t.right.right)
  }

  lemma RotatedRightSame<K>(t: Tree<K>)
    requires t.Fork? && t.left.Fork?
    ensures Items(RotateRight(t)) == Items(t) && Ids(RotateRight(t)) == Ids(t) && (Distinct(t) ==> Distinct(RotateRight(t)))
  {
    hide Items, Ids, Distinct;
    var u := RotateRight(t);
    RotatedItems(t, t.left, u, u.right);
    DistinctIs(t);
    DistinctIs(t.left);
    DistinctIs(u.right);
    DistinctIs(u);
  }

  lemma RotatedLeftSame<K>(t: Tree<K>)
    requires t.Fork? && t.right.Fork?
    ensures Items(RotateLeft(t)) == Items(t) && Ids(RotateLeft(t)) == Ids(t) && (Distinct(t) ==> Distinct(RotateLeft(t)))
  {
    hide Items, Ids, Distinct;
    var u := RotateLeft(t);
    RotatedItems(u, u.left, t, t.right);
    DistinctIs(t);
    DistinctIs(t.right);
    DistinctIs(u.left);
    DistinctIs(u);
  }

  lemma RotatedItems<K>(t: Tree<K>, y: Tree<K>, u: Tree<K>, z: Tree<K>)
    requires t.Fork? && t.left == y && y.Fork? && u.Fork? && u.right == z && z.Fork?
    requires u.data == y.data && u.left == y.left && z.data == t.data && z.left == y.right && z.right == t.right
    ensures Items(t) == Items(u)
  {
    hide Items;
    ItemsIs(t);
    ItemsIs(y);
    ItemsIs(u);
    ItemsIs(z);
    assert Items(y.left) + [y.data] + (Items(y.right) + [t.data] + Items(t.right)) == Items(y.left) + [y.data] + Items(y.right) + [t.data] + Items(t.right);
  }

  lemma RotatedRight<K>(m: Memory<K>, m1: Memory<K>, m': Memory<K>, t: Tree<K>)
    requires Laid(m, t) && Distinct(t) && t.Fork? && t.left.Fork? && t.id in m && t.left.id in m
    requires m1 == m[t.id := m[t.id].(left := Ptr(t.left.right))] && t.left.id in m1 && m' == m1[t.left.id := m1[t.left.id].(right := t.id)]
    ensures Laid(m', RotateRight(t))
  {
    hide Laid, Ids, Distinct, Agree, Ptr;
    var y, u := t.left, RotateRight(t);
    TreeIs(m, t);
    TreeIs(m, y);
    DistinctIs(t);
    DistinctIs(y);
    TwoWrites(m, m1, m', t.id, y.id, y.left);
    TwoWrites(m, m1, m', t.id, y.id, y.right);
    TwoWrites(m, m1, m', t.id, y.id, t.right);
    TreeIs(m', u);
    TreeIs(m', u.right);
  }

  lemma RotatedLeft<K>(m: Memory<K>, m1: Memory<K>, m': Memory<K>, t: Tree<K>)
    requires Laid(m, t) && Distinct(t) && t.Fork? && t.right.Fork? && t.id in m && t.right.id in m
    requires m1 == m[t.id := m[t.id].(right := Ptr(t.right.left))] && t.right.id in m1 && m' == m1[t.right.id := m1[t.right.id].(left := t.id)]
    ensures Laid(m', RotateLeft(t))
  {
    hide Laid, Ids, Distinct, Agree, Ptr;
    var y, u := t.right, RotateLeft(t);
    TreeIs(m, t);
    TreeIs(m, y);
    DistinctIs(t);
    DistinctIs(y);
    TwoWrites(m, m1, m', t.id, y.id, y.left);
    TwoWrites(m, m1, m', t.id, y.id, y.right);
    TwoWrites(m, m1, m', t.id, y.id, t.left);
    TreeIs(m', u);
    TreeIs(m', u.left);
  }

  lemma TwoWrites<K>(m: Memory<K>, m1: Memory<K>, m2: Memory<K>, a: int, b: int, t: Tree<K>)
    requires a in m && a in m1 && b in m1 && b in m2 && a !in Ids(t) && b !in Ids(t) && Laid(m, t)
    requires m1 == m[a := m1[a]] && m2 == m1[b := m2[b]]
    ensures Laid(m2, t)
  {
    hide Laid, Ids;
    LaidFrame(m, m2, t);
  }

  /** Writes among the nodes of the searched tree leave the sides alone. */
  lemma SidesKept<K>(m: Memory<K>, m': Memory<K>, nr: int, nl: int, l: Side<K>, t: Tree<K>, u: Tree<K>, r: Side<K>)
    requires Parted(m, nr, nl, l, t, r) && Separate(l, t, r) && Rewired(m, m', Ids(t)) && Laid(m', u)
    ensures Parted(m', nr, nl, l, u, r)
  {
    hide Laid, LaidLess, LaidMore, EndLess, EndMore, Ids, IdsOf, Distinct, DistinctSide;
    LessFrame(m, m', nr, l);
    MoreFrame(m, m', nl, r);
  }

  /** The searched item lies between the two side trees. */
  ghost predicate Narrowed<K(!new)>(cmp: (K, K) -> int, x: K, l: Side<K>, r: Side<K>) {
    AllBelow(cmp, ItemsLess(l), x) && AllAbove(cmp, ItemsMore(r), x)
  }

  /** The items to the left are below the item searched, those to the right above it. */
  ghost predicate Around<K(!new)>(cmp: (K, K) -> int, x: K, t: Tree<K>) {
    t.Fork? && AllBelow(cmp, Items(t.left), x) && AllAbove(cmp, Items(t.right), x)
  }

  lemma NarrowedRight<K(!new)>(cmp: (K, K) -> int, x: K, l: Side<K>, t: Tree<K>, r: Side<K>)
    requires Ordering(cmp) && Sorted(cmp, Whole(l, t, r)) && Narrowed(cmp, x, l, r) && t.Fork? && cmp(x, t.data) < 0
    ensures Narrowed(cmp, x, l, PassedRight(t, r))
  {
    SortedPart(cmp, ItemsLess(l), Items(t), ItemsMore(r));
    SortedAround(cmp, Items(t.left), t.data, Items(t.right), x);
    AboveJoined(cmp, [t.data] + Items(t.right), ItemsMore(r), x);
  }

  lemma NarrowedLeft<K(!new)>(cmp: (K, K) -> int, x: K, l: Side<K>, t: Tree<K>, r: Side<K>)
    requires Ordering(cmp) && Sorted(cmp, Whole(l, t, r)) && Narrowed(cmp, x, l, r) && t.Fork? && cmp(x, t.data) > 0
    ensures Narrowed(cmp, x, PassedLeft(l, t), r)
  {
    SortedPart(cmp, ItemsLess(l), Items(t), ItemsMore(r));
    SortedAround(cmp, Items(t.left), t.data, Items(t.right), x);
    BelowJoined(cmp, ItemsLess(l), Items(t.left) + [t.data], x);
  }

  lemma JoinedAround<K(!new)>(cmp: (K, K) -> int, x: K, l: Side<K>, t: Tree<K>, r: Side<K>)
    requires Ordering(cmp) && Sorted(cmp, Whole(l, t, r)) && Narrowed(cmp, x, l, r) && Separate(l, t, r) && t.Fork?
    requires (cmp(x, t.data) < 0 ==> t.left.Empty?) && (cmp(x, t.data) > 0 ==> t.right.Empty?)
    ensures Around(cmp, x, Joined(l, t, r))
  {
    hide Sorted, AllBelow, AllAbove, Ids, IdsOf, Distinct, DistinctSide, Separate, CloseLess, CloseMore, ItemsLess, ItemsMore, Ordering;
    SortedPart(cmp, ItemsLess(l), Items(t), ItemsMore(r));
    SortedAround(cmp, Items(t.left), t.data, Items(t.right), x);
    JoinedWhole(l, t, r);
    NoneAround(cmp, x);
    BelowJoined(cmp, ItemsLess(l), Items(t.left), x);
    AboveJoined(cmp, Items(t.right), ItemsMore(r), x);
  }

  lemma NoneAround<K(!new)>(cmp: (K, K) -> int, x: K)
    ensures AllBelow(cmp, [], x) && AllAbove(cmp, [], x)
  {
  }

  /** The tree put together at the end of a search. */
  function Joined<K>(l: Side<K>, t: Tree<K>, r: Side<K>): Tree<K>
    requires t.Fork?
  {
    Fork(t.id, t.data, CloseLess(l, t.left), CloseMore(r, t.right))
  }

  /** Writing the two open ends with the subtrees of the top node, and the top node with the header's pointers. */
  lemma Assembled<K>(m: Memory<K>, m1: Memory<K>, m2: Memory<K>, m3: Memory<K>, nr: int, nr': int, nl: int, nl': int,
      l: Side<K>, t: Tree<K>, r: Side<K>)
    requires Parted(m, nr, nl, l, t, r) && Separate(l, t, r) && t.Fork?
    requires LessWritten(m, m1, nr, nr', l, Ptr(t.left)) && MoreWritten(m1, m2, nl, nl', r, Ptr(t.right))
    requires t.id in m2 && m3 == m2[t.id := Node(t.data, nr', nl')]
    ensures Laid(m3, Joined(l, t, r)) && Rewired(m, m3, WholeIds(l, t, r))
  {
    hide Laid, LaidLess, LaidMore, EndLess, EndMore, Ids, IdsOf, Distinct, DistinctSide, Agree, LessWritten, MoreWritten, Ptr, Items, ItemsLess, ItemsMore;
    LessOpen(m, m1, nr, nr', l, Ptr(t.left));
    LessWrittenAgrees(m, m1, nr, nr', l, Ptr(t.left), Ids(t));
    LessWrittenAgrees(m, m1, nr, nr', l, Ptr(t.left), IdsOf(r));
    LaidFrame(m, m1, t);
    MoreFrame(m, m1, nl, r);
    MoreOpen(m1, m2, nl, nl', r, Ptr(t.right));
    MoreWrittenAgrees(m1, m2, nl, nl', r, Ptr(t.right), Ids(t));
    MoreWrittenAgrees(m1, m2, nl, nl', r, Ptr(t.right), IdsOf(l));
    LaidFrame(m1, m2, t);
    LessFrame(m1, m2, nr', l);
    AssembledTop(m2, m3, nr', nl', l, t, r);
    AssembledWrites(m, m1, m2, m3, nr, nr', nl, nl', l, t, r);
  }

  lemma AssembledWrites<K>(m: Memory<K>, m1: Memory<K>, m2: Memory<K>, m3: Memory<K>, nr: int, nr': int, nl: int, nl': int,
      l: Side<K>, t: Tree<K>, r: Side<K>)
    requires t.Fork?
    requires LessWritten(m, m1, nr, nr', l, Ptr(t.left)) && MoreWritten(m1, m2, nl, nl', r, Ptr(t.right))
    requires t.id in m2 && m3 == m2[t.id := Node(t.data, nr', nl')]
    ensures Rewired(m, m3, WholeIds(l, t, r))
  {
    hide Ids, IdsOf, Ptr;
    SideIs(l);
    SideIs(r);
    DistinctIs(t);
  }

  lemma AssembledTop<K>(m: Memory<K>, m': Memory<K>, nr: int, nl: int, l: Side<K>, t: Tree<K>, r: Side<K>)
    requires Parted(m, nr, nl, l, t, r) && Separate(l, t, r) && t.Fork?
    requires EndLess(m, nr, l) == Ptr(t.left) && EndMore(m, nl, r) == Ptr(t.right)
    requires m' == m[t.id := Node(t.data, nr, nl)]
    ensures Laid(m', Joined(l, t, r))
  {
    hide Laid, LaidLess, LaidMore, EndLess, EndMore, Ids, IdsOf, Distinct, DistinctSide, Agree, Ptr, Items, ItemsLess, ItemsMore, CloseLess, CloseMore;
    var a, b := CloseLess(l, t.left), CloseMore(r, t.right);
    TreeIs(m, t);
    DistinctIs(t);
    LessClosed(m, nr, l, t.left);
    MoreClosed(m, nl, r, t.right);
    LessClosedItems(l, t.left);
    MoreClosedItems(r, t.right);
    WriteAgrees(m, t.id, m'[t.id], Ids(a));
    WriteAgrees(m, t.id, m'[t.id], Ids(b));
    LaidFrame(m, m', a);
    LaidFrame(m, m', b);
    TreeIs(m', Joined(l, t, r));
  }

  lemma {:induction false} LessClosedItems<K>(s: Side<K>, t: Tree<K>)
    ensures Items(CloseLess(s, t)) == ItemsLess(s) + Items(t) && Ids(CloseLess(s, t)) == IdsOf(s) + Ids(t)
    decreases s
  {
    hide Items, Ids, IdsOf, ItemsLess, ItemsMore;
    SideItems(s);
    SideIs(s);
    if s.Link? {
      var u := Fork(s.id, s.data, s.sub, t);
      LessClosedItems(s.up, u);
      ItemsIs(u);
      DistinctIs(u);
      assert ItemsLess(s.up) + (Items(s.sub) + [s.data] + Items(t)) == ItemsLess(s.up) + (Items(s.sub) + [s.data]) + Items(t);
    }
  }

  lemma {:induction false} MoreClosedItems<K>(s: Side<K>, t: Tree<K>)
    ensures Items(CloseMore(s, t)) == Items(t) + ItemsMore(s) && Ids(CloseMore(s, t)) == IdsOf(s) + Ids(t)
    decreases s
  {
    hide Items, Ids, IdsOf, ItemsLess, ItemsMore;
    SideItems(s);
    SideIs(s);
    if s.Link? {
      var u := Fork(s.id, s.data, t, s.sub);
      MoreClosedItems(s.up, u);
      ItemsIs(u);
      DistinctIs(u);
      assert Items(t) + [s.data] + Items(s.sub) + ItemsMore(s.up) == Items(t) + ([s.data] + Items(s.sub) + ItemsMore(s.up));
    }
  }

  lemma JoinedIs<K>(l: Side<K>, t: Tree<K>, r: Side<K>)
    requires t.Fork?
    ensures Joined(l, t, r).Fork? && Joined(l, t, r).data == t.data && Ptr(Joined(l, t, r)) == t.id
  {
  }

  lemma JoinedWhole<K>(l: Side<K>, t: Tree<K>, r: Side<K>)
    requires Separate(l, t, r) && t.Fork?
    ensures Distinct(Joined(l, t, r)) && Ids(Joined(l, t, r)) == WholeIds(l, t, r)
    ensures Items(Joined(l, t, r).left) == ItemsLess(l) + Items(t.left)
    ensures Items(Joined(l, t, r).right) == Items(t.right) + ItemsMore(r)
    ensures Items(Joined(l, t, r)) == Whole(l, t, r)
  {
    hide Ids, IdsOf, Distinct, DistinctSide, Items, ItemsLess, ItemsMore, CloseLess, CloseMore;
    DistinctIs(t);
    ItemsIs(t);
    LessClosedItems(l, t.left);
    MoreClosedItems(r, t.right);
    LessDistinct(l, t.left);
    MoreDistinct(r, t.right);
    DistinctIs(Joined(l, t, r));
    ItemsIs(Joined(l, t, r));
    assert ItemsLess(l) + Items(t.left) + [t.data] + (Items(t.right) + ItemsMore(r)) == ItemsLess(l) + (Items(t.left) + [t.data] + Items(t.right)) + ItemsMore(r);
  }

  lemma RewiredMore<K>(m: Memory<K>, m1: Memory<K>, m2: Memory<K>, ids: set<int>)
    requires Rewired(m, m1, ids) && Rewired(m1, m2, ids)
    ensures Rewired(m, m2, ids)
  {
    forall i {:trigger m2[i]} | i in m && i !in ids
      ensures m2[i] == m[i]
    {
      assert m1[i] == m[i];
    }
  }

  lemma LaidTop<K>(m: Memory<K>, t: Tree<K>)
    requires Laid(m, t) && Distinct(t)
    ensures t.Fork? <==> Ptr(t) != NIL
    ensures t.Fork? ==> Ptr(t) == t.id && t.id in m && m[t.id] == Node(t.data, Ptr(t.left), Ptr(t.right)) && Laid(m, t.left) && Laid(m, t.right)
    ensures t.Fork? ==> t.id in Ids(t) && Distinct(t.left) && Distinct(t.right) && t.id !in Ids(t.left) && t.id !in Ids(t.right)
  {
  }

  lemma PartedEnds<K>(m: Memory<K>, nr: int, nl: int, l: Side<K>, t: Tree<K>, r: Side<K>)
    requires Parted(m, nr, nl, l, t, r) && Separate(l, t, r)
    ensures Laid(m, t) && Distinct(t)
    ensures l.Top? <==> SideEnd(l) == NIL
    ensures r.Top? <==> SideEnd(r) == NIL
    ensures l.Link? ==> SideEnd(l) == l.id && l.id in m && l.id in IdsOf(l)
    ensures r.Link? ==> SideEnd(r) == r.id && r.id in m && r.id in IdsOf(r)
    ensures IdsOf(l) !! Ids(t) && IdsOf(r) !! Ids(t) && IdsOf(l) !! IdsOf(r)
  {
    hide Laid, LaidLess, LaidMore, EndLess, EndMore, Ids, IdsOf, Distinct, DistinctSide;
    LessIs(m, nr, l);
    MoreIs(m, nl, r);
    SideIs(l);
    SideIs(r);
  }

  lemma HoldsIs<K>(m: Memory<K>, top: int, t: Tree<K>)
    requires Held(m, top, t)
    ensures Laid(m, t) && Distinct(t) && Ptr(t) == top && (t.Fork? <==> top != NIL) && (t.Fork? ==> top == t.id && t.id in m && t.id in Ids(t))
  {
    hide Laid, Distinct;
    LaidTop(m, t);
  }

  lemma HoldsFrom<K>(m: Memory<K>, top: int, t: Tree<K>)
    requires Laid(m, t) && Distinct(t) && Ptr(t) == top
    ensures Held(m, top, t)
  {
  }

  lemma RotateRightIs<K>(t: Tree<K>)
    requires t.Fork? && t.left.Fork?
    ensures RotateRight(t).Fork? && RotateRight(t).id == t.left.id && RotateRight(t).data == t.left.data && RotateRight(t).left == t.left.left
  {
  }

  lemma RotateLeftIs<K>(t: Tree<K>)
    requires t.Fork? && t.right.Fork?
    ensures RotateLeft(t).Fork? && RotateLeft(t).id == t.right.id && RotateLeft(t).data == t.right.data && RotateLeft(t).right == t.right.right
  {
  }

  lemma PassedIs<K>(l: Side<K>, t: Tree<K>, r: Side<K>)
    requires t.Fork?
    ensures SideEnd(PassedLeft(l, t)) == t.id && SideEnd(PassedRight(t, r)) == t.id
    ensures (t.left.Fork? ==> Ptr(t.left) == t.left.id) && (t.right.Fork? ==> Ptr(t.right) == t.right.id)
  {
  }

  lemma TurnStart<K>(m: Memory<K>, nr: int, nl: int, l: Side<K>, t: Tree<K>, r: Side<K>)
    requires Parted(m, nr, nl, l, t, r) && Separate(l, t, r) && t.Fork?
    ensures Laid(m, t) && Distinct(t) && t.id in m && m[t.id] == Node(t.data, Ptr(t.left), Ptr(t.right))
    ensures (t.left.Fork? <==> Ptr(t.left) != NIL) && (t.right.Fork? <==> Ptr(t.right) != NIL)
    ensures t.left.Fork? ==> Ptr(t.left) == t.left.id && t.left.id in m && t.left.id != t.id && m[t.left.id].right == Ptr(t.left.right) && m[t.left.id].data == t.left.data
    ensures t.right.Fork? ==> Ptr(t.right) == t.right.id && t.right.id in m && t.right.id != t.id && m[t.right.id].left == Ptr(t.right.left) && m[t.right.id].data == t.right.data
  {
    hide *;
    PartedEnds(m, nr, nl, l, t, r);
    LaidTop(m, t);
    LaidTop(m, t.left);
    LaidTop(m, t.right);
  }

  lemma TurnEnd<K>(m: Memory<K>, m1: Memory<K>, m': Memory<K>, nr: int, nl: int, l: Side<K>, t: Tree<K>, u: Tree<K>, r: Side<K>, a: int, b: int)
    requires Parted(m, nr, nl, l, t, r) && Separate(l, t, r) && t.Fork? && Laid(m', u)
    requires (t.left.Fork? && u == RotateRight(t) && b == t.left.id) || (t.right.Fork? && u == RotateLeft(t) && b == t.right.id)
    requires a == t.id && a in m && a in m1 && b in m && b in m' && m1 == m[a := m1[a]] && m' == m1[b := m'[b]]
    ensures Parted(m', nr, nl, l, u, r) && Separate(l, u, r)
    ensures Whole(l, u, r) == Whole(l, t, r) && WholeIds(l, u, r) == WholeIds(l, t, r)
    ensures Rewired(m, m', WholeIds(l, t, r))
  {
    hide *;
    TurnSame(t, u);
    DistinctIs(t);
    if t.left.Fork? { DistinctIs(t.left); }
    if t.right.Fork? { DistinctIs(t.right); }
    TwoRewired(m, m1, m', Ids(t), a, b);
    SidesKept(m, m', nr, nl, l, t, u, r);
    SeparateIs(l, t, r);
    SeparateIs(l, u, r);
    WholeIs(l, t, r);
    WholeIs(l, u, r);
    RewiredWider(m, m', Ids(t), WholeIds(l, t, r));
  }

  lemma TurnSame<K>(t: Tree<K>, u: Tree<K>)
    requires t.Fork? && ((t.left.Fork? && u == RotateRight(t)) || (t.right.Fork? && u == RotateLeft(t)))
    ensures Items(u) == Items(t) && Ids(u) == Ids(t) && (Distinct(t) ==> Distinct(u))
  {
    hide *;
    if t.left.Fork? { RotatedRightSame(t); }
    if t.right.Fork? { RotatedLeftSame(t); }
  }

  lemma TwoRewired<K>(m: Memory<K>, m1: Memory<K>, m2: Memory<K>, ids: set<int>, a: int, b: int)
    requires a in m && a in m1 && b in m && b in m2 && a in ids && b in ids
    requires m1 == m[a := m1[a]] && m2 == m1[b := m2[b]]
    ensures Rewired(m, m2, ids)
  {
  }

  lemma RewiredWider<K>(m: Memory<K>, m': Memory<K>, ids: set<int>, more: set<int>)
    requires Rewired(m, m', ids) && ids <= more
    ensures Rewired(m, m', more)
  {
  }

  lemma RewiredSelf<K>(m: Memory<K>, ids: set<int>)
    ensures Rewired(m, m, ids)
  {
  }

  lemma SeparateIs<K>(l: Side<K>, t: Tree<K>, r: Side<K>)
    ensures Separate(l, t, r) <==> DistinctSide(l) && Distinct(t) && DistinctSide(r) && IdsOf(l) !! Ids(t) && IdsOf(l) !! IdsOf(r) && Ids(t) !! IdsOf(r)
  {
    hide DistinctSide, Distinct, Ids, IdsOf;
  }

  lemma WholeIs<K>(l: Side<K>, t: Tree<K>, r: Side<K>)
    ensures Whole(l, t, r) == ItemsLess(l) + Items(t) + ItemsMore(r) && WholeIds(l, t, r) == IdsOf(l) + Ids(t) + IdsOf(r)
  {
    hide Items, ItemsLess, ItemsMore, Ids, IdsOf;
  }

  lemma LessWrittenIs<K>(m: Memory<K>, m': Memory<K>, n: int, n': int, s: Side<K>, child: int)
    requires if s.Top? then m' == m && n' == child else n' == n && s.id in m && m' == m[s.id := m[s.id].(right := child)]
    ensures LessWritten(m, m', n, n', s, child)
  {
  }

  lemma MoreWrittenIs<K>(m: Memory<K>, m': Memory<K>, n: int, n': int, s: Side<K>, child: int)
    requires if s.Top? then m' == m && n' == child else n' == n && s.id in m && m' == m[s.id := m[s.id].(left := child)]
    ensures MoreWritten(m, m', n, n', s, child)
  {
  }

  lemma Started<K(!new)>(cmp: (K, K) -> int, x: K, m: Memory<K>, t: Tree<K>)
    requires Laid(m, t) && Distinct(t)
    ensures Parted(m, NIL, NIL, Top, t, Top) && Separate(Top, t, Top)
    ensures Whole(Top, t, Top) == Items(t) && WholeIds(Top, t, Top) == Ids(t)
    ensures Narrowed(cmp, x, Top, Top) && SideEnd<K>(Top) == NIL
  {
    hide Laid, Distinct, Items, Ids;
  }

  ghost predicate Held<K>(m: Memory<K>, top: int, t: Tree<K>) {
    Laid(m, t) && Distinct(t) && Ptr(t) == top
  }

  // ---- insertion at the root ----

  /** The new node above the splayed tree, with what is smaller at its left; and the mirror image. */
  function Before<K>(id: int, x: K, u: Tree<K>): Tree<K>
    requires u.Fork?
  {
    Fork(id, x, u.left, Fork(u.id, u.data, Empty, u.right))
  }

  function After<K>(id: int, x: K, u: Tree<K>): Tree<K>
    requires u.Fork?
  {
    Fork(id, x, Fork(u.id, u.data, u.left, Empty), u.right)
  }

  lemma {:induction false} LaidIds<K>(m: Memory<K>, t: Tree<K>)
    requires Laid(m, t)
    ensures Ids(t) <= m.Keys
    decreases t
  {
    if t.Fork? {
      LaidIds(m, t.left);
      LaidIds(m, t.right);
    }
  }

  lemma HeldWith<K>(m: Memory<K>, top: int, t: Tree<K>, id: int, n: Node<K>)
    requires Held(m, top, t) && id !in m
    ensures Held(m[id := n], top, t) && id !in Ids(t)
  {
    hide Laid, Ids, Distinct, Ptr, Agree;
    LaidIds(m, t);
    WriteAgrees(m, id, n, Ids(t));
    LaidFrame(m, m[id := n], t);
  }

  lemma HeldWithout<K>(m: Memory<K>, top: int, t: Tree<K>, id: int)
    requires Held(m, top, t) && id !in Ids(t)
    ensures Held(m - {id}, top, t)
  {
    hide Laid, Ids, Distinct, Ptr;
    LaidFrame(m, m - {id}, t);
  }

  lemma RewiredParts<K>(m: Memory<K>, m': Memory<K>, ids: set<int>)
    requires Rewired(m, m', ids)
    ensures m'.Keys == m.Keys && forall i {:trigger m'[i]} :: i in m && i !in ids ==> m'[i] == m[i]
  {
  }

  lemma FirstHeld<K(!new)>(cmp: (K, K) -> int, m: Memory<K>, t: Tree<K>, id: int, x: K)
    requires t.Empty? && id != NIL && id in m && m[id] == Node(x, NIL, NIL)
    ensures Held(m, id, Fork(id, x, Empty, Empty)) && Ids(Fork(id, x, Empty, Empty)) == Ids(t) + {id}
    ensures Items(Fork(id, x, Empty, Empty)) == Inserted(cmp, Items(t), x) && Sorted(cmp, Items(Fork(id, x, Empty, Empty)))
  {
  }

  lemma HeldBefore<K>(m: Memory<K>, m': Memory<K>, u: Tree<K>, id: int, x: K)
    requires Laid(m, u) && Distinct(u) && u.Fork? && id != NIL && id !in Ids(u) && id in m && u.id in m && m[id].data == x
    requires m' == m[id := Node(x, m[u.id].left, u.id)][u.id := m[u.id].(left := NIL)]
    ensures Before(id, x, u).Fork? && Held(m', id, Before(id, x, u)) && Ids(Before(id, x, u)) == Ids(u) + {id}
  {
    hide Laid, Ids, Distinct, Agree;
    var t := Before(id, x, u);
    TreeIs(m, u);
    DistinctIs(u);
    BothAgree(m, m', id, u.id, Ids(u.left));
    BothAgree(m, m', id, u.id, Ids(u.right));
    LaidFrame(m, m', u.left);
    LaidFrame(m, m', u.right);
    TreeIs(m', t);
    TreeIs(m', t.right);
    DistinctIs(t);
    DistinctIs(t.right);
    NoneHeld(m');
  }

  lemma HeldAfter<K>(m: Memory<K>, m': Memory<K>, u: Tree<K>, id: int, x: K)
    requires Laid(m, u) && Distinct(u) && u.Fork? && id != NIL && id !in Ids(u) && id in m && u.id in m && m[id].data == x
    requires m' == m[id := Node(x, u.id, m[u.id].right)][u.id := m[u.id].(right := NIL)]
    ensures After(id, x, u).Fork? && Held(m', id, After(id, x, u)) && Ids(After(id, x, u)) == Ids(u) + {id}
  {
    hide Laid, Ids, Distinct, Agree;
    var t := After(id, x, u);
    TreeIs(m, u);
    DistinctIs(u);
    BothAgree(m, m', id, u.id, Ids(u.left));
    BothAgree(m, m', id, u.id, Ids(u.right));
    LaidFrame(m, m', u.left);
    LaidFrame(m, m', u.right);
    TreeIs(m', t);
    TreeIs(m', t.left);
    DistinctIs(t);
    DistinctIs(t.left);
    NoneHeld(m');
  }

  lemma NoneHeld<K>(m: Memory<K>)
    ensures Laid(m, Empty) && Distinct<K>(Empty) && Ids<K>(Empty) == {}
  {
  }

  lemma BothAgree<K>(m: Memory<K>, m': Memory<K>, a: int, b: int, ids: set<int>)
    requires m'.Keys == m.Keys && (forall i {:trigger m'[i]} :: i in m && i != a && i != b ==> m'[i] == m[i]) && a !in ids && b !in ids
    ensures Agree(m, m', ids)
  {
  }

  lemma ItemsBefore<K(!new)>(cmp: (K, K) -> int, u: Tree<K>, id: int, x: K, s: seq<K>)
    requires u.Fork? && Items(u) == s && cmp(x, u.data) < 0 && (Ordering(cmp) && Sorted(cmp, s) ==> Around(cmp, x, u))
    ensures Ordering(cmp) && Sorted(cmp, s) ==> Items(Before(id, x, u)) == Inserted(cmp, s, x) && Sorted(cmp, Items(Before(id, x, u)))
  {
    hide Sorted, Ordering, Items, Inserted, AllBelow, AllAbove;
    if Ordering(cmp) && Sorted(cmp, s) {
      var t, b := Before(id, x, u), [u.data] + Items(u.right);
      ItemsIs(u);
      ItemsIs(t);
      ItemsIs(t.right);
      NoneItems<K>();
      OneAround(cmp, x, u.data);
      AboveJoined(cmp, [u.data], Items(u.right), x);
      InsertedBetween(cmp, Items(u.left), x, b);
      assert s == Items(u.left) + b && Items(t) == Items(u.left) + [x] + b;
      InsertedSorted(cmp, s, x);
    }
  }

  lemma ItemsAfter<K(!new)>(cmp: (K, K) -> int, u: Tree<K>, id: int, x: K, s: seq<K>)
    requires u.Fork? && Items(u) == s && cmp(x, u.data) > 0 && (Ordering(cmp) && Sorted(cmp, s) ==> Around(cmp, x, u))
    ensures Ordering(cmp) && Sorted(cmp, s) ==> Items(After(id, x, u)) == Inserted(cmp, s, x) && Sorted(cmp, Items(After(id, x, u)))
  {
    hide Sorted, Ordering, Items, Inserted, AllBelow, AllAbove;
    if Ordering(cmp) && Sorted(cmp, s) {
      var t, a := After(id, x, u), Items(u.left) + [u.data];
      ItemsIs(u);
      ItemsIs(t);
      ItemsIs(t.left);
      NoneItems<K>();
      OneAround(cmp, x, u.data);
      BelowJoined(cmp, Items(u.left), [u.data], x);
      InsertedBetween(cmp, a, x, Items(u.right));
      assert s == a + Items(u.right) && Items(t) == a + [x] + Items(u.right);
      InsertedSorted(cmp, s, x);
    }
  }

  lemma ItemsThere<K(!new)>(cmp: (K, K) -> int, u: Tree<K>, x: K, s: seq<K>)
    requires u.Fork? && Items(u) == s && cmp(x, u.data) == 0 && (Ordering(cmp) && Sorted(cmp, s) ==> Around(cmp, x, u))
    ensures Ordering(cmp) && Sorted(cmp, s) ==> Items(u) == Inserted(cmp, s, x) && Sorted(cmp, Items(u))
  {
    hide Sorted, Ordering, Items, Inserted, AllBelow, AllAbove;
    if Ordering(cmp) && Sorted(cmp, s) {
      ItemsIs(u);
      InsertedThere(cmp, Items(u.left), u.data, Items(u.right), x);
    }
  }

  lemma NoneItems<K>()
    ensures Items<K>(Empty) == []
  {
  }

  lemma OneAround<K(!new)>(cmp: (K, K) -> int, x: K, k: K)
    ensures (cmp(x, k) > 0 ==> AllBelow(cmp, [k], x)) && (cmp(x, k) < 0 ==> AllAbove(cmp, [k], x))
  {
  }

  // ---- walking and freeing ----

  lemma HeldBelow<K>(m: Memory<K>, top: int, t: Tree<K>)
    requires Held(m, top, t) && t.Fork?
    ensures t.id in m && m[t.id] == Node(t.data, Ptr(t.left), Ptr(t.right))
    ensures Held(m, m[t.id].left, t.left) && Held(m, m[t.id].right, t.right)
    ensures m[t.id].left == NIL ==> Items(t.left) == [] && Ids(t.left) == {}
    ensures m[t.id].right == NIL ==> Items(t.right) == [] && Ids(t.right) == {}
    ensures Distinct(t)
  {
    hide Laid, Distinct;
    LaidTop(m, t);
    LaidTop(m, t.left);
    LaidTop(m, t.right);
  }

  lemma FreedNone<K>(m: Memory<K>, m': Memory<K>, t: Tree<K>, freed: seq<K>)
    requires (Items(t) == [] && Ids(t) == {} && m' == m && freed == []) || (m' == m - Ids(t) && multiset(freed) == multiset(Items(t)))
    ensures m' == m - Ids(t) && multiset(freed) == multiset(Items(t))
  {
    hide Items, Ids;
  }

  lemma HeldLast<K>(m: Memory<K>, m': Memory<K>, top: int, t: Tree<K>)
    requires t.Fork? && Distinct(t) && top == t.id && top in m && m' == m - Ids(t.right)
    ensures top in m' && m'[top] == m[top]
  {
    hide Ids;
  }

  lemma FreedAll<K>(m: Memory<K>, m': Memory<K>, t: Tree<K>, less: seq<K>, more: seq<K>)
    requires t.Fork? && m' == m - Ids(t.left) - Ids(t.right) - {t.id}
    requires multiset(less) == multiset(Items(t.left)) && multiset(more) == multiset(Items(t.right))
    ensures m' == m - Ids(t) && multiset(less + more + [t.data]) == multiset(Items(t))
  {
    hide Ids, Items;
    ItemsIs(t);
    DistinctIs(t);
    assert m - Ids(t.left) - Ids(t.right) - {t.id} == m - Ids(t);
  }

  /** What is left once the left subtree is freed. */
  lemma HeldRest<K>(m: Memory<K>, m': Memory<K>, top: int, t: Tree<K>)
    requires Held(m, top, t) && t.Fork? && m' == m - Ids(t.left)
    ensures top in m' && top in m && m'[top] == m[top] && Held(m', m[top].right, t.right)
  {
    hide Laid, Distinct, Ids;
    LaidTop(m, t);
    DistinctIs(t);
    LaidTop(m, t.right);
    LaidFrame(m, m', t.right);
  }

  /** The nodes of all trees, and the global splayLastResult. */
  class Forest<K(!new)> {
    var nodes: Memory<K>
    var lastResult: int
    const compare: (K, K) -> int

    constructor (cmp: (K, K) -> int)
      ensures compare == cmp && nodes == map[] && lastResult == 0
    {
      compare, nodes, lastResult := cmp, map[], 0;
    }

    method TurnRight(top: int, nr: int, nl: int, ghost l: Side<K>, ghost t: Tree<K>, ghost r: Side<K>) returns (top': int, ghost t': Tree<K>)
      requires Parted(nodes, nr, nl, l, t, r) && Separate(l, t, r) && t.Fork? && t.left.Fork? && top == t.id
      modifies this`nodes
      ensures t' == RotateRight(t) && t'.Fork? && t'.data == t.left.data && t'.left == t.left.left && top' == t'.id && Parted(nodes, nr, nl, l, t', r) && Separate(l, t', r)
      ensures Whole(l, t', r) == Whole(l, t, r) && WholeIds(l, t', r) == WholeIds(l, t, r)
      ensures Rewired(old(nodes), nodes, WholeIds(l, t, r))
    {
      hide *;
      ghost var m := nodes;
      TurnStart(m, nr, nl, l, t, r);
      var y := nodes[top].left;
      nodes := nodes[top := nodes[top].(left := nodes[y].right)];
      ghost var m1 := nodes;
      nodes := nodes[y := nodes[y].(right := top)];
      top', t' := y, RotateRight(t);
      RotatedRight(m, m1, nodes, t);
      RotateRightIs(t);
      TurnEnd(m, m1, nodes, nr, nl, l, t, t', r, top, y);
    }

    method TurnLeft(top: int, nr: int, nl: int, ghost l: Side<K>, ghost t: Tree<K>, ghost r: Side<K>) returns (top': int, ghost t': Tree<K>)
      requires Parted(nodes, nr, nl, l, t, r) && Separate(l, t, r) && t.Fork? && t.right.Fork? && top == t.id
      modifies this`nodes
      ensures t' == RotateLeft(t) && t'.Fork? && t'.data == t.right.data && t'.right == t.right.right && top' == t'.id && Parted(nodes, nr, nl, l, t', r) && Separate(l, t', r)
      ensures Whole(l, t', r) == Whole(l, t, r) && WholeIds(l, t', r) == WholeIds(l, t, r)
      ensures Rewired(old(nodes), nodes, WholeIds(l, t, r))
    {
      hide *;
      ghost var m := nodes;
      TurnStart(m, nr, nl, l, t, r);
      var y := nodes[top].right;
      nodes := nodes[top := nodes[top].(right := nodes[y].left)];
      ghost var m1 := nodes;
      nodes := nodes[y := nodes[y].(left := top)];
      top', t' := y, RotateLeft(t);
      RotatedLeft(m, m1, nodes, t);
      RotateLeftIs(t);
      TurnEnd(m, m1, nodes, nr, nl, l, t, t', r, top, y);
    }

    method LinkRight(top: int, r: int, nr: int, nl: int, ghost sl: Side<K>, ghost t: Tree<K>, ghost sr: Side<K>)
        returns (r': int, top': int, nl': int, ghost t': Tree<K>, ghost sr': Side<K>)
      requires Parted(nodes, nr, nl, sl, t, sr) && Separate(sl, t, sr) && t.Fork? && top == t.id && r == SideEnd(sr)
      modifies this`nodes
      ensures t' == t.left && sr' == PassedRight(t, sr) && top' == Ptr(t') && r' == SideEnd(sr') && (t'.Fork? ==> top' == t'.id)
      ensures Parted(nodes, nr, nl', sl, t', sr') && Separate(sl, t', sr')
      ensures Whole(sl, t', sr') == Whole(sl, t, sr) && WholeIds(sl, t', sr') == WholeIds(sl, t, sr)
      ensures Rewired(old(nodes), nodes, WholeIds(sl, t, sr))
    {
      hide *;
      ghost var m := nodes;
      PartedEnds(m, nr, nl, sl, t, sr);
      LaidTop(m, t);
      nl' := nl;
      if r == NIL {
        nl' := top;
      } else {
        nodes := nodes[r := nodes[r].(left := top)];
      }
      MoreWrittenIs(m, nodes, nl, nl', sr, top);
      LinkedRight(m, nodes, nr, nl, nl', sl, t, sr);
      PassedRightWhole(sl, t, sr);
      PassedIs(sl, t, sr);
      r', top', t', sr' := top, nodes[top].left, t.left, PassedRight(t, sr);
    }

    method LinkLeft(top: int, l: int, nr: int, nl: int, ghost sl: Side<K>, ghost t: Tree<K>, ghost sr: Side<K>)
        returns (l': int, top': int, nr': int, ghost sl': Side<K>, ghost t': Tree<K>)
      requires Parted(nodes, nr, nl, sl, t, sr) && Separate(sl, t, sr) && t.Fork? && top == t.id && l == SideEnd(sl)
      modifies this`nodes
      ensures t' == t.right && sl' == PassedLeft(sl, t) && top' == Ptr(t') && l' == SideEnd(sl') && (t'.Fork? ==> top' == t'.id)
      ensures Parted(nodes, nr', nl, sl', t', sr) && Separate(sl', t', sr)
      ensures Whole(sl', t', sr) == Whole(sl, t, sr) && WholeIds(sl', t', sr) == WholeIds(sl, t, sr)
      ensures Rewired(old(nodes), nodes, WholeIds(sl, t, sr))
    {
      hide *;
      ghost var m := nodes;
      PartedEnds(m, nr, nl, sl, t, sr);
      LaidTop(m, t);
      nr' := nr;
      if l == NIL {
        nr' := top;
      } else {
        nodes := nodes[l := nodes[l].(right := top)];
      }
      LessWrittenIs(m, nodes, nr, nr', sl, top);
      LinkedLeft(m, nodes, nr, nr', nl, sl, t, sr);
      PassedLeftWhole(sl, t, sr);
      PassedIs(sl, t, sr);
      l', top', t', sl' := top, nodes[top].right, t.right, PassedLeft(sl, t);
    }

    method Assemble(top: int, l: int, r: int, nr: int, nl: int, ghost sl: Side<K>, ghost t: Tree<K>, ghost sr: Side<K>)
        returns (ghost t': Tree<K>)
      requires Parted(nodes, nr, nl, sl, t, sr) && Separate(sl, t, sr) && t.Fork? && top == t.id && l == SideEnd(sl) && r == SideEnd(sr)
      modifies this`nodes
      ensures t' == Joined(sl, t, sr) && t'.Fork? && t'.data == t.data && Ptr(t') == top && Laid(nodes, t') && Rewired(old(nodes), nodes, WholeIds(sl, t, sr))
    {
      hide *;
      ghost var m := nodes;
      PartedEnds(m, nr, nl, sl, t, sr);
      LaidTop(m, t);
      var nr', nl' := nr, nl;
      if l == NIL {
        nr' := nodes[top].left;
      } else {
        nodes := nodes[l := nodes[l].(right := nodes[top].left)];
      }
      ghost var m1 := nodes;
      LessWrittenIs(m, m1, nr, nr', sl, Ptr(t.left));
      if r == NIL {
        nl' := nodes[top].right;
      } else {
        nodes := nodes[r := nodes[r].(left := nodes[top].right)];
      }
      ghost var m2 := nodes;
      MoreWrittenIs(m1, m2, nl, nl', sr, Ptr(t.right));
      nodes := nodes[top := nodes[top].(left := nr', right := nl')];
      Assembled(m, m1, m2, nodes, nr, nr', nl, nl', sl, t, sr);
      JoinedIs(sl, t, sr);
      t' := Joined(sl, t, sr);
    }

    /** Whatever the comparison does, no node is lost or gained and the order of the items stays. */
    method Splay(x: K, top: int, ghost t: Tree<K>) returns (top': int, ghost t': Tree<K>)
      requires Held(nodes, top, t)
      modifies this
      ensures Held(nodes, top', t') && Items(t') == Items(t) && Ids(t') == Ids(t) && Rewired(old(nodes), nodes, Ids(t))
      ensures t.Empty? <==> t'.Empty?
      ensures t'.Empty? ==> lastResult == -1
      ensures t'.Fork? ==> lastResult == compare(x, t'.data)
      ensures t'.Fork? && Ordering(compare) && Sorted(compare, Items(t)) ==> Around(compare, x, t')
    {
      hide *;
      HoldsIs(nodes, top, t);
      RewiredSelf(nodes, Ids(t));
      if top == NIL {
        lastResult := -1;
        return top, t;
      }
      var nl, nr, l, r, cur := NIL, NIL, NIL, NIL, top;
      ghost var sl: Side<K>, sr: Side<K>, s := Top, Top, t;
      ghost var keen := Ordering(compare) && Sorted(compare, Items(t));
      Started(compare, x, nodes, t);
      while true
        invariant Parted(nodes, nr, nl, sl, s, sr) && Separate(sl, s, sr) && s.Fork? && s.id == cur && l == SideEnd(sl) && r == SideEnd(sr)
        invariant Whole(sl, s, sr) == Items(t) && WholeIds(sl, s, sr) == Ids(t)
        invariant Rewired(old(nodes), nodes, Ids(t))
        invariant keen ==> Narrowed(compare, x, sl, sr)
        decreases s
      {
        TurnStart(nodes, nr, nl, sl, s, sr);
        lastResult := compare(x, nodes[cur].data);
        if lastResult < 0 {
          if nodes[cur].left == NIL { break; }
          lastResult := compare(x, nodes[nodes[cur].left].data);
          if lastResult < 0 {
            ghost var m := nodes;
            cur, s := TurnRight(cur, nr, nl, sl, s, sr);
            RewiredMore(old(nodes), m, nodes, Ids(t));
            TurnStart(nodes, nr, nl, sl, s, sr);
            if nodes[cur].left == NIL { break; }
          }
          if keen { NarrowedRight(compare, x, sl, s, sr); }
          ghost var m := nodes;
          r, cur, nl, s, sr := LinkRight(cur, r, nr, nl, sl, s, sr);
          RewiredMore(old(nodes), m, nodes, Ids(t));
        } else if lastResult > 0 {
          if nodes[cur].right == NIL { break; }
          lastResult := compare(x, nodes[nodes[cur].right].data);
          if lastResult > 0 {
            ghost var m := nodes;
            cur, s := TurnLeft(cur, nr, nl, sl, s, sr);
            RewiredMore(old(nodes), m, nodes, Ids(t));
            TurnStart(nodes, nr, nl, sl, s, sr);
            if nodes[cur].right == NIL { break; }
          }
          if keen { NarrowedLeft(compare, x, sl, s, sr); }
          ghost var m := nodes;
          l, cur, nr, sl, s := LinkLeft(cur, l, nr, nl, sl, s, sr);
          RewiredMore(old(nodes), m, nodes, Ids(t));
        } else {
          break;
        }
      }
      ghost var m := nodes;
      t' := Assemble(cur, l, r, nr, nl, sl, s, sr);
      top' := cur;
      RewiredMore(old(nodes), m, nodes, Ids(t));
      JoinedWhole(sl, s, sr);
      HoldsFrom(nodes, top', t');
      if keen { JoinedAround(compare, x, sl, s, sr); }
    }

    /** Sorted-set insertion; id is the node that xcalloc hands out. */
    method Insert(x: K, top: int, id: int, ghost t: Tree<K>) returns (top': int, kept: bool, ghost t': Tree<K>)
      requires Held(nodes, top, t) && id != NIL && id !in nodes
      modifies this
      ensures Held(nodes, top', t') && t'.Fork?
      ensures Ids(t') == (if kept then Ids(t) + {id} else Ids(t)) && nodes.Keys == (if kept then old(nodes.Keys) + {id} else old(nodes.Keys))
      ensures forall i {:trigger nodes[i]} :: i in old(nodes) && i !in Ids(t) ==> nodes[i] == old(nodes[i])
      ensures Ordering(compare) && Sorted(compare, Items(t)) ==> Items(t') == Inserted(compare, Items(t), x) && Sorted(compare, Items(t'))
    {
      hide *;
      ghost var m := nodes;
      nodes := nodes[id := Node(x, NIL, NIL)];
      HeldWith(m, top, t, id, nodes[id]);
      HoldsIs(nodes, top, t);
      if top == NIL {
        t' := Fork(id, x, Empty, Empty);
        FirstHeld(compare, nodes, t, id, x);
        return id, true, t';
      }
      ghost var u, m1 := t, nodes;
      top', u := Splay(x, top, t);
      RewiredParts(m1, nodes, Ids(t));
      HoldsIs(nodes, top', u);
      ghost var m2 := nodes;
      if lastResult < 0 {
        nodes := nodes[id := nodes[id].(left := nodes[top'].left, right := top')];
        nodes := nodes[top' := nodes[top'].(left := NIL)];
        t', kept := Before(id, x, u), true;
        HeldBefore(m2, nodes, u, id, x);
        ItemsBefore(compare, u, id, x, Items(t));
        top' := id;
      } else if lastResult > 0 {
        nodes := nodes[id := nodes[id].(right := nodes[top'].right, left := top')];
        nodes := nodes[top' := nodes[top'].(right := NIL)];
        t', kept := After(id, x, u), true;
        HeldAfter(m2, nodes, u, id, x);
        ItemsAfter(compare, u, id, x, Items(t));
        top' := id;
      } else {
        nodes := nodes - {id};
        HeldWithout(m2, top', u, id);
        ItemsThere(compare, u, x, Items(t));
        t', kept := u, false;
      }
    }

    /** The items in ascending order. */
    method Walk(top: int, ghost t: Tree<K>) returns (visited: seq<K>)
      requires Held(nodes, top, t) && top != NIL
      ensures visited == Items(t)
      decreases t
    {
      hide *;
      HoldsIs(nodes, top, t);
      HeldBelow(nodes, top, t);
      ItemsIs(t);
      visited := [];
      if nodes[top].left != NIL {
        visited := Walk(nodes[top].left, t.left);
      }
      visited := visited + [nodes[top].data];
      if nodes[top].right != NIL {
        var rest := Walk(nodes[top].right, t.right);
        visited := visited + rest;
      }
    }

    /** Every node of the tree is freed, and the free function is called once for every item. */
    method Destroy(top: int, ghost t: Tree<K>) returns (freed: seq<K>)
      requires Held(nodes, top, t) && top != NIL
      modifies this`nodes
      ensures nodes == old(nodes) - Ids(t) && multiset(freed) == multiset(Items(t))
      decreases t
    {
      hide *;
      HoldsIs(nodes, top, t);
      HeldBelow(nodes, top, t);
      ItemsIs(t);
      DistinctIs(t);
      freed := [];
      ghost var m := nodes;
      if nodes[top].left != NIL {
        freed := Destroy(nodes[top].left, t.left);
      }
      FreedNone(m, nodes, t.left, freed);
      HeldRest(m, nodes, top, t);
      ghost var m1, less := nodes, freed;
      var rest := [];
      if nodes[top].right != NIL {
        rest := Destroy(nodes[top].right, t.right);
      }
      FreedNone(m1, nodes, t.right, rest);
      HeldLast(m1, nodes, top, t);
      freed := freed + rest + [nodes[top].data];
      nodes := nodes - {top};
      FreedAll(m, nodes, t, less, rest);
    }
  }

  // ---- a whole life of a tree ----

  /** The sorted set of the items inserted one after the other. */
  function InsertedAll<K>(cmp: (K, K) -> int, xs: seq<K>): seq<K> {
    if xs == [] then [] else Inserted(cmp, InsertedAll(cmp, xs[..|xs| - 1]), xs[|xs| - 1])
  }

  ghost predicate HasEqual<K>(cmp: (K, K) -> int, s: seq<K>, x: K) {
    exists k :: k in s && cmp(x, k) == 0
  }

  /** Sorted, one item for each of the inserted ones, and no other. */
  ghost predicate Represents<K>(cmp: (K, K) -> int, s: seq<K>, xs: seq<K>) {
    && Sorted(cmp, s)
    && (forall k {:trigger k in s} :: k in s ==> k in xs)
    && (forall x {:trigger x in xs} :: x in xs ==> HasEqual(cmp, s, x))
  }

  lemma {:induction false} InsertedAllRepresents<K(!new)>(cmp: (K, K) -> int, xs: seq<K>)
    requires Ordering(cmp)
    ensures Represents(cmp, InsertedAll(cmp, xs), xs)
  {
    if xs != [] {
      var ys, y := xs[..|xs| - 1], xs[|xs| - 1];
      InsertedAllRepresents(cmp, ys);
      RepresentsMore(cmp, InsertedAll(cmp, ys), ys, y);
      assert ys + [y] == xs;
    }
  }

  lemma EqualSelf<K(!new)>(cmp: (K, K) -> int, y: K)
    requires Ordering(cmp)
    ensures cmp(y, y) == 0
  {
  }

  lemma HasEqualMore<K(!new)>(cmp: (K, K) -> int, s: seq<K>, y: K, x: K)
    requires HasEqual(cmp, s, x)
    ensures HasEqual(cmp, Inserted(cmp, s, y), x)
  {
    hide Inserted;
    InsertedKeeps(cmp, s, y);
    var k :| k in s && cmp(x, k) == 0;
    assert k in Inserted(cmp, s, y);
  }

  lemma HasEqualNew<K(!new)>(cmp: (K, K) -> int, s: seq<K>, y: K)
    requires Ordering(cmp)
    ensures HasEqual(cmp, Inserted(cmp, s, y), y)
  {
    hide Inserted, Ordering;
    EqualSelf(cmp, y);
    var e := InsertedHas(cmp, s, y);
  }

  lemma RepresentsMore<K(!new)>(cmp: (K, K) -> int, s: seq<K>, ys: seq<K>, y: K)
    requires Ordering(cmp) && Represents(cmp, s, ys)
    ensures Represents(cmp, Inserted(cmp, s, y), ys + [y])
  {
    hide Inserted, Sorted, Ordering, HasEqual;
    InsertedSorted(cmp, s, y);
    InsertedKeeps(cmp, s, y);
    HasEqualNew(cmp, s, y);
    forall x {:trigger x in ys} | x in ys
      ensures HasEqual(cmp, Inserted(cmp, s, y), x)
    {
      HasEqualMore(cmp, s, y, x);
    }
  }

  /** Any items inserted in any order are walked in order, and every node that was kept is freed; ids are what xcalloc hands out. */
  method Run<K(!new)>(cmp: (K, K) -> int, xs: seq<K>, ids: seq<int>) returns (visited: seq<K>, freed: seq<K>)
    requires Ordering(cmp) && xs != [] && |ids| == |xs|
    requires NIL !in ids && forall i, j {:trigger ids[i], ids[j]} :: 0 <= i < j < |ids| ==> ids[i] != ids[j]
    ensures visited == InsertedAll(cmp, xs) && Represents(cmp, visited, xs) && multiset(freed) == multiset(visited)
  {
    hide *;
    var forest := new Forest(cmp);
    var top, i := NIL, 0;
    ghost var t: Tree<K> := Empty;
    NoneYet(forest.nodes, cmp, xs);
    while i < |xs|
      invariant 0 <= i <= |xs| && fresh(forest) && forest.compare == cmp
      invariant Held(forest.nodes, top, t) && forest.nodes.Keys == Ids(t) && Sorted(cmp, Items(t))
      invariant Items(t) == InsertedAll(cmp, xs[..i]) && (i > 0 ==> t.Fork?)
      invariant forall j {:trigger ids[j]} :: i <= j < |ids| ==> ids[j] !in forest.nodes
    {
      InsertedAllNext(cmp, xs, i);
      assert ids[i] in ids;
      var kept;
      top, kept, t := forest.Insert(xs[i], top, ids[i], t);
      i := i + 1;
    }
    assert xs[..i] == xs;
    InsertedAllRepresents(cmp, xs);
    HoldsIs(forest.nodes, top, t);
    visited := forest.Walk(top, t);
    freed := forest.Destroy(top, t);
  }

  lemma NoneYet<K>(m: Memory<K>, cmp: (K, K) -> int, xs: seq<K>)
    requires m == map[]
    ensures Held(m, NIL, Empty) && m.Keys == Ids<K>(Empty) && Sorted(cmp, Items<K>(Empty)) && Items<K>(Empty) == InsertedAll(cmp, xs[..0])
  {
  }

  lemma InsertedAllNext<K>(cmp: (K, K) -> int, xs: seq<K>, i: nat)
    requires i < |xs|
    ensures InsertedAll(cmp, xs[..i + 1]) == Inserted(cmp, InsertedAll(cmp, xs[..i]), xs[i])
  {
    hide Inserted;
    assert xs[..i + 1][..i] == xs[..i];
  }
}
