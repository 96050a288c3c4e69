/** heap.c: a priority queue in an array of nodes, each of which knows its own index. */
module Heaps {
  import opened Wrappers

  // ---- the order, as a property of the keys in the array ----

  function Parent(i: nat): nat {
    if i == 0 then 0 else (i - 1) / 2
  }

  /** No key is smaller than its parent's. */
  ghost predicate Ordered(s: seq<real>) {
    forall i {:trigger s[i]} :: 0 < i < |s| ==> s[Parent(i)] <= s[i]
  }

  /** All is in order but the key at p, and what is below p is in order with what is above it. */
  ghost predicate AlmostAt(s: seq<real>, p: nat) {
    && p < |s|
    && (forall i {:trigger s[i]} :: 0 < i < |s| && i != p && Parent(i) != p ==> s[Parent(i)] <= s[i])
    && forall i {:trigger s[i]} :: 0 < i < |s| && Parent(i) == p && p > 0 ==> s[Parent(p)] <= s[i]
  }

  /** The key at p may be too small for its place, but not too large. */
  ghost predicate AboveOnly(s: seq<real>, p: nat) {
    AlmostAt(s, p) && forall i {:trigger s[i]} :: 0 < i < |s| && Parent(i) == p ==> s[p] <= s[i]
  }

  /** The key at p may be too large for its place, but not too small. */
  ghost predicate BelowOnly(s: seq<real>, p: nat) {
    AlmostAt(s, p) && (p > 0 ==> s[Parent(p)] <= s[p])
  }

  lemma ParentLess(i: nat)
    requires i > 0
    ensures Parent(i) < i
  {
  }

  lemma Children(i: nat, p: nat)
    ensures i > 0 ==> (Parent(i) == p <==> i == 2 * p + 1 || i == 2 * p + 2)
  {
  }

  lemma {:induction false} RootIsLeast(s: seq<real>, i: nat)
    requires Ordered(s) && i < |s|
    ensures s[0] <= s[i]
    decreases i
  {
    if i > 0 {
      ParentLess(i);
      RootIsLeast(s, Parent(i));
    }
  }

  lemma InOrderEverywhere(s: seq<real>, p: nat)
    requires Ordered(s) && p < |s|
    ensures AboveOnly(s, p) && BelowOnly(s, p)
  {
    hide Parent;
    if p > 0 {
      ParentLess(p);
    }
    forall i {:trigger s[i]} | 0 < i < |s| && Parent(i) == p && p > 0
      ensures s[Parent(p)] <= s[i]
    {
      assert s[p] <= s[i] && s[Parent(p)] <= s[p];
    }
  }

  lemma UpDone(s: seq<real>, p: nat)
    requires AboveOnly(s, p) && (p == 0 || s[Parent(p)] <= s[p])
    ensures Ordered(s)
  {
    hide Parent;
  }

  lemma DownDone(s: seq<real>, p: nat)
    requires BelowOnly(s, p) && forall i {:trigger s[i]} :: 0 < i < |s| && Parent(i) == p ==> s[p] <= s[i]
    ensures Ordered(s)
  {
    hide Parent;
  }

  /** Two keys change places. */
  function Swapped<T>(s: seq<T>, i: nat, j: nat): seq<T>
    requires i < |s| && j < |s|
  {
    s[i := s[j]][j := s[i]]
  }

  lemma UpStep(s: seq<real>, p: nat)
    requires AboveOnly(s, p) && p > 0 && s[Parent(p)] > s[p]
    ensures Parent(p) < |s| && AboveOnly(Swapped(s, Parent(p), p), Parent(p))
  {
    ParentLess(p);
    var q, s' := Parent(p), Swapped(s, Parent(p), p);
    forall i {:trigger s'[i]} | 0 < i < |s'|
      ensures i != q && Parent(i) != q ==> s'[Parent(i)] <= s'[i]
      ensures Parent(i) == q && q > 0 ==> s'[Parent(q)] <= s'[i]
      ensures Parent(i) == q ==> s'[q] <= s'[i]
    {
      ParentLess(i);
      assert s[i] == s[i] && s[q] == s[q] && s[p] == s[p];
    }
  }

  lemma DownStep(s: seq<real>, p: nat, k: nat)
    requires BelowOnly(s, p) && 0 < k < |s| && Parent(k) == p && s[p] > s[k]
    requires forall i {:trigger s[i]} :: 0 < i < |s| && Parent(i) == p ==> s[k] <= s[i]
    ensures BelowOnly(Swapped(s, k, p), k)
  {
    ParentLess(k);
    var s' := Swapped(s, k, p);
    forall i {:trigger s'[i]} | 0 < i < |s'|
      ensures i != k && Parent(i) != k ==> s'[Parent(i)] <= s'[i]
      ensures Parent(i) == k ==> s'[Parent(k)] <= s'[i]
    {
      ParentLess(i);
      assert s[i] == s[i] && s[k] == s[k] && s[p] == s[p];
    }
  }

  /** What is left of the array without its last place is still in order. */
  lemma PrefixOrdered(s: seq<real>, n: nat)
    requires Ordered(s) && n <= |s|
    ensures Ordered(s[..n])
  {
    forall i {:trigger s[..n][i]} | 0 < i < n
      ensures s[..n][Parent(i)] <= s[..n][i]
    {
      ParentLess(i);
      assert s[i] == s[..n][i];
    }
  }

  /** Another key in one place. */
  lemma ReplacedAlmost(s: seq<real>, p: nat, k: real)
    requires Ordered(s) && p < |s|
    ensures AlmostAt(s[p := k], p)
  {
    var s' := s[p := k];
    forall i {:trigger s'[i]} | 0 < i < |s'|
      ensures i != p && Parent(i) != p ==> s'[Parent(i)] <= s'[i]
      ensures Parent(i) == p && p > 0 ==> s'[Parent(p)] <= s'[i]
    {
      ParentLess(i);
      if p > 0 {
        ParentLess(p);
      }
      assert s[i] == s[i] && s[p] == s[p];
    }
  }

  lemma OneSided(s: seq<real>, p: nat)
    requires AlmostAt(s, p)
    ensures p > 0 && s[p] < s[Parent(p)] ==> AboveOnly(s, p)
    ensures p == 0 || s[p] >= s[Parent(p)] ==> BelowOnly(s, p)
  {
  }

  // ---- the nodes ----

  class HeapNode<T> {
    var key: real
    var id: nat
    var data: T

    constructor (key: real, data: T)
      ensures this.key == key && this.data == data
    {
      this.key, this.data, id := key, data, 0;
    }
  }

  ghost function KeysOf<T>(s: seq<HeapNode<T>>): (k: seq<real>)
    reads (set e | e in s)`key
    ensures |k| == |s| && forall i {:trigger k[i]} :: 0 <= i < |s| ==> k[i] == s[i].key
  {
    if s == [] then [] else [s[0].key] + KeysOf(s[1..])
  }

  /** What the heap holds: keys and data, as often as they are there. */
  ghost function Items<T>(s: seq<HeapNode<T>>): multiset<(real, T)>
    reads (set e | e in s)`key, (set e | e in s)`data
  {
    if s == [] then multiset{} else Items(s[1..]) + multiset{(s[0].key, s[0].data)}
  }

  /** No key is smaller. */
  ghost predicate Least<T(!new)>(k: real, m: multiset<(real, T)>) {
    forall x :: x in m ==> k <= x.0
  }

  lemma {:induction false} ItemsAppend<T>(a: seq<HeapNode<T>>, b: seq<HeapNode<T>>)
    ensures Items(a + b) == Items(a) + Items(b)
    decreases |a|
  {
    if a == [] {
      assert a + b == b;
    } else {
      assert (a + b)[1..] == a[1..] + b;
      ItemsAppend(a[1..], b);
    }
  }

  lemma ItemsSplit<T>(s: seq<HeapNode<T>>, i: nat)
    requires i < |s|
    ensures Items(s) == Items(s[..i]) + multiset{(s[i].key, s[i].data)} + Items(s[i + 1..])
  {
    assert s == s[..i] + s[i..];
    ItemsAppend(s[..i], s[i..]);
    assert s[i..][1..] == s[i + 1..];
  }

  /** The items are told by the nodes, in whatever order. */
  lemma {:induction false} ItemsPermuted<T>(a: seq<HeapNode<T>>, b: seq<HeapNode<T>>)
    requires multiset(a) == multiset(b)
    ensures Items(a) == Items(b)
    decreases |a|
  {
    if a == [] {
      assert |multiset(b)| == 0;
      assert b == [];
    } else {
      assert a[0] in multiset(b);
      var i :| 0 <= i < |b| && b[i] == a[0];
      var c := b[..i] + b[i + 1..];
      Without(b, i);
      assert a == [a[0]] + a[1..];
      assert multiset(a[1..]) == multiset(a) - multiset{a[0]};
      ItemsPermuted(a[1..], c);
      ItemsSplit(b, i);
      ItemsAppend(b[..i], b[i + 1..]);
    }
  }

  lemma Without<T>(b: seq<T>, i: nat)
    requires i < |b|
    ensures multiset(b[..i] + b[i + 1..]) == multiset(b) - multiset{b[i]}
  {
    assert b == b[..i] + [b[i]] + b[i + 1..];
  }

  lemma SwappedKeys<T>(s: seq<HeapNode<T>>, i: nat, j: nat)
    requires i < |s| && j < |s|
    ensures KeysOf(Swapped(s, i, j)) == Swapped(KeysOf(s), i, j)
  {
    hide KeysOf;
    var a, b := KeysOf(Swapped(s, i, j)), Swapped(KeysOf(s), i, j);
    forall x | 0 <= x < |s|
      ensures a[x] == b[x]
    {
    }
  }

  lemma SwappedSame<T>(s: seq<T>, i: nat, j: nat)
    requires i < |s| && j < |s|
    ensures multiset(Swapped(s, i, j)) == multiset(s)
  {
  }

  lemma SameMembers<T>(a: seq<T>, b: seq<T>, x: T)
    requires multiset(a) == multiset(b)
    ensures x in a <==> x in b
  {
    assert x in a <==> x in multiset(a);
    assert x in b <==> x in multiset(b);
  }

  // ---- the heap ----

  class Heap<T(!new)> {
    var nodes: array<HeapNode?<T>>
    var last: nat
    var age: real
    const genKey: (T, real) -> real
    ghost var elems: seq<HeapNode<T>>

    /** Every node knows where it is. */
    ghost predicate Linked()
      reads this, nodes, (set e | e in elems)`id
    {
      && |elems| == last <= nodes.Length && 0 < nodes.Length
      && forall i {:trigger elems[i]} {:trigger nodes[i]} :: 0 <= i < last ==> nodes[i] == elems[i] && elems[i].id == i
    }

    ghost predicate Valid()
      reads this, nodes, (set e | e in elems)`id, (set e | e in elems)`key
    {
      Linked() && Ordered(KeysOf(elems))
    }

    /** `new_heap` */
    constructor (initSize: int, genKey: (T, real) -> real)
      ensures Valid() && elems == [] && fresh(nodes) && this.genKey == genKey
    {
      this.genKey := genKey;
      nodes := new HeapNode?<T>[if initSize <= 0 then 32 else initSize](i => null);
      last := 0;
      age := 0.0;
      elems := [];
    }

    lemma At(elm: HeapNode<T>)
      requires Linked() && elm in elems
      ensures elm.id < last && elems[elm.id] == elm && nodes[elm.id] == elm
      ensures forall i {:trigger elems[i]} :: 0 <= i < last && elems[i] == elm ==> i == elm.id
    {
    }

    /** `_heap_swap_element` */
    method Swap(elm1: HeapNode<T>, elm2: HeapNode<T>)
      requires Linked() && elm1 in elems && elm2 in elems
      modifies nodes, this`elems, elm1`id, elm2`id
      ensures Linked() && old(elm1.id) < last && old(elm2.id) < last && elems == Swapped(old(elems), old(elm1.id), old(elm2.id))
      ensures elm1.id == old(elm2.id) && elm2.id == old(elm1.id)
    {
      At(elm1);
      At(elm2);
      var elm1Id := elm1.id;
      elm1.id := elm2.id;
      elm2.id := elm1Id;
      nodes[elm1.id] := elm1;
      nodes[elm2.id] := elm2;
      elems := Swapped(elems, old(elm1.id), old(elm2.id));
    }

    lemma In(i: nat)
      requires Linked() && i < last
      ensures i < nodes.Length && nodes[i] == elems[i] && elems[i].id == i && |elems| == last && elems[i] in elems
    {
    }

    lemma ValidFrom()
      requires Linked() && Ordered(KeysOf(elems))
      ensures Valid()
    {
    }

    /** `_heap_ify_up` */
    method IfyUp(elm: HeapNode<T>)
      requires Linked() && elm in elems && AboveOnly(KeysOf(elems), elm.id)
      modifies nodes, this`elems, (set e | e in elems)`id
      ensures Valid() && multiset(elems) == old(multiset(elems))
    {
      hide *;
      At(elm);
      while elm.id > 0
        invariant Linked() && elm in elems && elm.id < last && AboveOnly(KeysOf(elems), elm.id)
        invariant multiset(elems) == old(multiset(elems))
        decreases elm.id
      {
        At(elm);
        ParentLess(elm.id);
        In(elm.id);
        In(Parent(elm.id));
        var parentNode := nodes[Parent(elm.id)];
        if parentNode.key <= elm.key {
          break;
        }
        UpSwap(elems, elm.id);
        SameMembers(elems, old(elems), parentNode);
        SameMembers(elems, old(elems), elm);
        ghost var s1, p1 := Swapped(elems, Parent(elm.id), elm.id), Parent(elm.id);
        ghost var k1 := KeysOf(s1);
        Swap(parentNode, elm);
        assert elm.id == p1;
        assert elems == s1;
        assert KeysOf(elems) == k1;
      }
      At(elm);
      In(elm.id);
      UpEnd(elems, elm.id);
      ValidFrom();
    }

    /** `_heap_ify_down` */
    method IfyDown(elm: HeapNode<T>)
      requires Linked() && elm in elems && BelowOnly(KeysOf(elems), elm.id)
      modifies nodes, this`elems, (set e | e in elems)`id
      ensures Valid() && multiset(elems) == old(multiset(elems))
    {
      hide *;
      At(elm);
      while true
        invariant Linked() && elm in elems && elm.id < last && BelowOnly(KeysOf(elems), elm.id)
        invariant multiset(elems) == old(multiset(elems))
        decreases last - elm.id
      {
        At(elm);
        In(elm.id);
        var left, right := 2 * elm.id + 1, 2 * elm.id + 2;
        if left >= last {
          DownEnd(elems, elm.id);
          break;
        }
        In(left);
        var kid := nodes[left];
        if right < last {
          In(right);
          if nodes[right].key < nodes[left].key {
            kid := nodes[right];
          }
        }
        In(kid.id);
        if elm.key <= kid.key {
          DownEnd(elems, elm.id);
          break;
        }
        DownSwap(elems, elm.id, kid.id);
        SameMembers(elems, old(elems), kid);
        SameMembers(elems, old(elems), elm);
        ghost var s1, p1 := Swapped(elems, kid.id, elm.id), kid.id;
        ghost var k1 := KeysOf(s1);
        Swap(kid, elm);
        assert elm.id == p1;
        assert elems == s1;
        assert KeysOf(elems) == k1;
      }
      ValidFrom();
    }

    /** `_heap_grow`: the array gets longer, what is in it stays. */
    method Grow()
      requires Linked()
      modifies this`nodes
      ensures Linked() && nodes.Length > old(nodes.Length) && fresh(nodes)
    {
      var size := nodes.Length;
      var newSize := if size > 10000 then size * 3 / 2 else size * 2;
      var was := nodes;
      nodes := new HeapNode?<T>[newSize](i requires 0 <= i reads was => if i < was.Length then was[i] else null);
    }

    method MakeRoom()
      requires Linked()
      modifies this`nodes
      ensures Linked() && last < nodes.Length && (nodes == old(nodes) || fresh(nodes))
    {
      hide *;
      Room();
      if nodes.Length <= last {
        Grow();
      }
    }

    /** The node goes into the first free place. */
    method Append(elm: HeapNode<T>)
      requires Linked() && elm !in elems && last < nodes.Length
      modifies nodes, this`last, this`elems, elm`id
      ensures Linked() && elems == old(elems) + [elm] && elm.id == old(last)
    {
      nodes[last] := elm;
      elm.id := last;
      last := last + 1;
      elems := elems + [elm];
    }

    /** `heap_insert` */
    method Insert(dat: T) returns (elm: HeapNode<T>)
      requires Valid()
      modifies this`nodes, nodes, this`last, this`elems, (set e | e in elems)`id
      ensures Valid() && fresh(elm) && (nodes == old(nodes) || fresh(nodes))
      ensures elm.data == dat && elm.key == genKey(dat, age)
      ensures multiset(elems) == old(multiset(elems)) + multiset{elm}
      ensures Items(elems) == old(Items(elems)) + multiset{(genKey(dat, age), dat)}
    {
      hide *;
      ValidParts();
      elm := new HeapNode(genKey(dat, age), dat);
      MakeRoom();
      Room();
      AppendedKeys(elems, elm);
      ghost var k1 := KeysOf(elems + [elm]);
      Append(elm);
      assert KeysOf(elems) == k1;
      ghost var e1 := elems;
      IfyUp(elm);
      ItemsOfMore(old(elems), e1, elems, elm);
    }

    /** `heap_extractlast` */
    method ExtractLast() returns (data: T)
      requires Linked() && last > 0
      modifies this`last, this`elems
      ensures Linked() && elems == old(elems)[..old(last) - 1] && data == old(elems[last - 1].data)
      ensures old(Ordered(KeysOf(elems))) ==> Valid()
    {
      hide *;
      Room();
      ghost var k := KeysOf(elems);
      In(last - 1);
      Drop();
      data := nodes[last].data;
      if Ordered(k) {
        PrefixOrdered(k, last);
        assert KeysOf(elems) == k[..last];
        ValidFrom();
      }
    }

    /** The last place is given up. */
    method Drop()
      requires Linked() && last > 0
      modifies this`last, this`elems
      ensures Linked() && elems == old(elems)[..old(last) - 1] && last == old(last) - 1
    {
      last := last - 1;
      elems := elems[..last];
    }

    /** The last node takes the place of elm, which leaves the heap. */
    method Detach(elm: HeapNode<T>) returns (lastNode: HeapNode<T>)
      requires Valid() && elm in elems
      modifies nodes, this`last, this`elems, (set e | e in elems)`id
      ensures Linked() && multiset(elems) == old(multiset(elems)) - multiset{elm}
      ensures forall e {:trigger e in elems} :: e in elems ==> e in old(elems)
      ensures if lastNode == elm then Valid() else lastNode in elems && AlmostAt(KeysOf(elems), lastNode.id)
    {
      hide *;
      ValidParts();
      At(elm);
      In(last - 1);
      lastNode := nodes[last - 1];
      ghost var n, p := last - 1, elm.id;
      DeletedKeys(elems, p);
      SwappedIs(elems, n, p);
      ghost var k1 := KeysOf(Swapped(elems, n, p)[..n]);
      Swap(lastNode, elm);
      var gone := ExtractLast();
      Room();
      assert elems == Swapped(old(elems), n, p)[..n];
      assert KeysOf(elems) == k1;
      Subset(elems, old(elems));
      if elm == lastNode {
        ValidFrom();
      }
    }

    /** `heap_delete`: exactly this node is gone. */
    method Delete(elm: HeapNode<T>) returns (data: T)
      requires Valid() && elm in elems
      modifies nodes, this`last, this`elems, (set e | e in elems)`id
      ensures Valid() && data == elm.data && multiset(elems) == old(multiset(elems)) - multiset{elm}
      ensures Items(elems) == old(Items(elems)) - multiset{(elm.key, elm.data)}
    {
      hide *;
      data := elm.data;
      var lastNode := Detach(elm);
      Room();
      if elm != lastNode {
        if last > 0 {
          Refile(lastNode);
        }
      }
      ItemsOfLess(old(elems), elems, elm);
    }

    /** A node whose key does not fit its place is moved up or down. */
    method Refile(elm: HeapNode<T>)
      requires Linked() && elm in elems && AlmostAt(KeysOf(elems), elm.id)
      modifies nodes, this`elems, (set e | e in elems)`id
      ensures Valid() && multiset(elems) == old(multiset(elems))
    {
      hide *;
      At(elm);
      In(elm.id);
      OneSidedNode(elems, elm.id);
      In(Parent(elm.id));
      if elm.key < nodes[Parent(elm.id)].key {
        IfyUp(elm);
        ValidParts();
        SameMembers(elems, old(elems), elm);
        At(elm);
        InOrderEverywhere(KeysOf(elems), elm.id);
      }
      Subset(elems, old(elems));
      IfyDown(elm);
    }

    /** `heap_update`: as if the node had been deleted and the new data inserted. */
    method Update(elm: HeapNode<T>, dat: T) returns (was: T)
      requires Valid() && elm in elems
      modifies nodes, this`elems, (set e | e in elems)`id, elm`key, elm`data
      ensures Valid() && was == old(elm.data) && elm.data == dat && elm.key == genKey(dat, age)
      ensures multiset(elems) == old(multiset(elems))
      ensures Items(elems) == old(Items(elems)) - multiset{(old(elm.key), old(elm.data))} + multiset{(genKey(dat, age), dat)}
    {
      hide *;
      ValidParts();
      At(elm);
      was := elm.data;
      var ky := genKey(dat, age);
      ghost var k, p, b := KeysOf(elems), elm.id, Items(elems);
      Single(elems, elm);
      ItemsSplit(elems, p);
      ghost var left, right := Items(elems[..p]), Items(elems[p + 1..]);
      elm.key := ky;
      elm.data := dat;
      ItemsSplit(elems, p);
      assert Items(elems[..p]) == left && Items(elems[p + 1..]) == right;
      assert KeysOf(elems) == k[p := ky];
      ReplacedAlmost(k, p, ky);
      ghost var e1, i1 := elems, Items(elems);
      Refile(elm);
      ItemsPermuted(e1, elems);
      assert Items(e1) == i1;
    }

    /** `heap_extractmin` */
    method ExtractMin() returns (data: Option<T>)
      requires Valid()
      modifies nodes, this`last, this`elems, (set e | e in elems)`id
      ensures Valid() && multiset(elems) <= old(multiset(elems)) && (data.None? <==> old(elems) == []) && (data.None? ==> elems == old(elems))
      ensures data.Some? ==> data.value == old(elems[0].data) && Items(elems) == old(Items(elems)) - multiset{(old(elems[0].key), old(elems[0].data))}
      ensures data.Some? ==> |elems| == |old(elems)| - 1
      ensures data.Some? ==> Least(old(elems[0].key), old(Items(elems)))
    {
      hide *;
      ValidParts();
      if last == 0 {
        return None;
      }
      In(0);
      RootLeast(elems);
      ItemsAbove(elems, elems[0].key);
      var root := nodes[0];
      var d := Delete(root);
      Fewer(elems, old(elems), root);
      data := Some(d);
    }

    /** `heap_peepminkey` */
    method PeepMinKey() returns (k: real)
      requires Valid() && elems != []
      ensures k == elems[0].key
    {
      k := nodes[0].key;
    }

    /** `verify_heap_property`, on an array in whatever order. */
    method VerifyHeapProperty() returns (correct: bool)
      requires Linked()
      ensures correct <==> Ordered(KeysOf(elems))
    {
      hide *;
      Room();
      correct := true;
      var i := 0;
      NoneChecked(KeysOf(elems));
      while i < last / 2
        invariant 0 <= i <= last / 2 && correct && |elems| == last && last <= nodes.Length && CheckedTo(KeysOf(elems), i)
      {
        var left, right := 2 * i + 1, 2 * i + 2;
        In(i);
        if left < last {
          In(left);
          if nodes[i].key > nodes[left].key {
            correct := false;
          }
        }
        if right < last {
          In(right);
          if nodes[i].key > nodes[right].key {
            correct := false;
          }
        }
        if !correct {
          Violated(KeysOf(elems), i);
          break;
        }
        OneMoreChecked(KeysOf(elems), i);
        i := i + 1;
      }
      if correct {
        AllChecked(KeysOf(elems), i);
      }
    }

    lemma Room()
      requires Linked()
      ensures |elems| == last <= nodes.Length
    {
    }

    lemma ValidParts()
      requires Valid()
      ensures Linked() && Ordered(KeysOf(elems)) && |elems| == last
    {
    }
  }

  lemma UpSwap<T>(s: seq<HeapNode<T>>, p: nat)
    requires p < |s| && AboveOnly(KeysOf(s), p) && p > 0 && Parent(p) < |s| && s[Parent(p)].key > s[p].key
    ensures AboveOnly(KeysOf(Swapped(s, Parent(p), p)), Parent(p)) && multiset(Swapped(s, Parent(p), p)) == multiset(s)
    ensures s[p] in Swapped(s, Parent(p), p)
  {
    hide *;
    UpStep(KeysOf(s), p);
    SwappedKeys(s, Parent(p), p);
    SwappedSame(s, Parent(p), p);
    SameMembers(s, Swapped(s, Parent(p), p), s[p]);
  }

  lemma UpEnd<T>(s: seq<HeapNode<T>>, p: nat)
    requires p < |s| && AboveOnly(KeysOf(s), p) && (p == 0 || (Parent(p) < |s| && s[Parent(p)].key <= s[p].key))
    ensures Ordered(KeysOf(s))
  {
    UpDone(KeysOf(s), p);
  }

  lemma AppendedKeys<T>(s: seq<HeapNode<T>>, elm: HeapNode<T>)
    requires Ordered(KeysOf(s))
    ensures AboveOnly(KeysOf(s + [elm]), |s|) && multiset(s + [elm]) == multiset(s) + multiset{elm} && elm in s + [elm]
  {
    hide *;
    KeysAppend(s, elm);
    LastOnly(KeysOf(s), elm.key);
    OneMore(s, elm);
  }

  lemma KeysAppend<T>(s: seq<HeapNode<T>>, elm: HeapNode<T>)
    ensures KeysOf(s + [elm]) == KeysOf(s) + [elm.key]
  {
    hide *;
    var a, b := KeysOf(s + [elm]), KeysOf(s) + [elm.key];
    assert |a| == |b|;
    forall i | 0 <= i < |a|
      ensures a[i] == b[i]
    {
      assert (s + [elm])[i] == if i < |s| then s[i] else elm;
    }
  }

  lemma OneMore<T>(s: seq<T>, x: T)
    ensures multiset(s + [x]) == multiset(s) + multiset{x} && x in s + [x]
  {
    assert (s + [x])[|s|] == x;
  }

  lemma LastOnly(k: seq<real>, x: real)
    requires Ordered(k)
    ensures AboveOnly(k + [x], |k|)
  {
    var l := k + [x];
    forall i {:trigger l[i]} | 0 < i < |l|
      ensures i != |k| ==> l[Parent(i)] <= l[i]
      ensures Parent(i) != |k|
    {
      ParentLess(i);
      assert i < |k| ==> k[i] == l[i];
    }
  }

  /** With the last node in the place of the deleted one, only that place may be out of order. */
  lemma DeletedKeys<T>(s: seq<HeapNode<T>>, p: nat)
    requires Ordered(KeysOf(s)) && p < |s|
    ensures var n := |s| - 1;
      var t := Swapped(s, n, p)[..n];
      && multiset(t) == multiset(s) - multiset{s[p]}
      && (p == n ==> Ordered(KeysOf(t)))
      && (p < n ==> t[p] == s[n] && AlmostAt(KeysOf(t), p))
  {
    hide *;
    var n := |s| - 1;
    SwappedIs(s, n, p);
    var k, t := KeysOf(s), Swapped(s, n, p)[..n];
    PrefixOrdered(k, n);
    MinusOne(s, p);
    if p < n {
      assert KeysOf(t) == k[..n][p := k[n]];
      ReplacedAlmost(k[..n], p, k[n]);
    } else {
      assert KeysOf(t) == k[..n];
    }
  }

  lemma SwappedIs<T>(s: seq<T>, i: nat, j: nat)
    requires i < |s| && j < |s|
    ensures |Swapped(s, i, j)| == |s| && Swapped(s, i, j)[i] == s[j] && Swapped(s, i, j)[j] == s[i]
    ensures forall k {:trigger Swapped(s, i, j)[k]} :: 0 <= k < |s| && k != i && k != j ==> Swapped(s, i, j)[k] == s[k]
  {
  }

  lemma MinusOne<T>(s: seq<T>, p: nat)
    requires p < |s|
    ensures multiset(Swapped(s, |s| - 1, p)[..|s| - 1]) == multiset(s) - multiset{s[p]}
  {
    var t := Swapped(s, |s| - 1, p);
    SwappedSame(s, |s| - 1, p);
    assert t == t[..|s| - 1] + [s[p]];
  }

  lemma Subset<T>(a: seq<T>, b: seq<T>)
    requires multiset(a) <= multiset(b)
    ensures (set x | x in a) <= (set x | x in b)
    ensures forall x {:trigger x in a} :: x in a ==> x in b
  {
    forall x | x in a
      ensures x in b
    {
      assert x in multiset(a) && x in multiset(b);
    }
  }

  lemma Single<T>(s: seq<HeapNode<T>>, elm: HeapNode<T>)
    requires elm.id < |s| && forall i {:trigger s[i]} :: 0 <= i < |s| && s[i] == elm ==> i == elm.id
    ensures elm !in s[..elm.id] && elm !in s[elm.id + 1..]
  {
  }

  lemma OneSidedNode<T>(s: seq<HeapNode<T>>, p: nat)
    requires p < |s| && AlmostAt(KeysOf(s), p)
    ensures Parent(p) < |s|
    ensures s[p].key < s[Parent(p)].key ==> AboveOnly(KeysOf(s), p)
    ensures s[p].key >= s[Parent(p)].key ==> BelowOnly(KeysOf(s), p)
  {
    OneSided(KeysOf(s), p);
  }

  lemma RootLeast<T>(s: seq<HeapNode<T>>)
    requires Ordered(KeysOf(s))
    ensures forall x {:trigger x in s} :: x in s ==> s[0].key <= x.key
  {
    hide Ordered;
    forall x {:trigger x in s} | x in s
      ensures s[0].key <= x.key
    {
      var i :| 0 <= i < |s| && s[i] == x;
      RootIsLeast(KeysOf(s), i);
    }
  }

  lemma DownSwap<T>(s: seq<HeapNode<T>>, p: nat, k: nat)
    requires p < |s| && k < |s| && BelowOnly(KeysOf(s), p) && (k == 2 * p + 1 || k == 2 * p + 2) && s[p].key > s[k].key
    requires 2 * p + 1 < |s| ==> s[k].key <= s[2 * p + 1].key
    requires 2 * p + 2 < |s| ==> s[k].key <= s[2 * p + 2].key
    ensures BelowOnly(KeysOf(Swapped(s, k, p)), k) && multiset(Swapped(s, k, p)) == multiset(s)
    ensures s[p] in Swapped(s, k, p)
  {
    hide *;
    var l := KeysOf(s);
    Children(k, p);
    forall i {:trigger l[i]} | 0 < i < |l| && Parent(i) == p
      ensures l[k] <= l[i]
    {
      Children(i, p);
    }
    DownStep(l, p, k);
    SwappedKeys(s, k, p);
    SwappedSame(s, k, p);
    SameMembers(s, Swapped(s, k, p), s[p]);
  }

  lemma DownEnd<T>(s: seq<HeapNode<T>>, p: nat)
    requires p < |s| && BelowOnly(KeysOf(s), p)
    requires 2 * p + 1 < |s| ==> s[p].key <= s[2 * p + 1].key
    requires 2 * p + 2 < |s| ==> s[p].key <= s[2 * p + 2].key
    ensures Ordered(KeysOf(s))
  {
    hide *;
    var l := KeysOf(s);
    forall i {:trigger l[i]} | 0 < i < |l| && Parent(i) == p
      ensures l[p] <= l[i]
    {
      Children(i, p);
    }
    DownDone(l, p);
  }

  lemma ItemsOfMore<T>(s: seq<HeapNode<T>>, s1: seq<HeapNode<T>>, t: seq<HeapNode<T>>, elm: HeapNode<T>)
    requires s1 == s + [elm] && multiset(t) == multiset(s1)
    ensures Items(t) == Items(s) + multiset{(elm.key, elm.data)}
  {
    hide *;
    ItemsPermuted(t, s1);
    ItemsAppend(s, [elm]);
    ItemsOne(elm);
  }

  lemma ItemsOne<T>(elm: HeapNode<T>)
    ensures Items([elm]) == multiset{(elm.key, elm.data)}
  {
    assert [elm][1..] == [];
  }

  lemma ItemsOfLess<T>(s: seq<HeapNode<T>>, t: seq<HeapNode<T>>, elm: HeapNode<T>)
    requires elm in s && multiset(t) == multiset(s) - multiset{elm}
    ensures Items(t) == Items(s) - multiset{(elm.key, elm.data)}
  {
    hide *;
    OneMore(t, elm);
    InMultiset(s, elm);
    ItemsOfMore(t, t + [elm], s, elm);
  }

  lemma InMultiset<T>(s: seq<T>, x: T)
    requires x in s
    ensures multiset(s) - multiset{x} + multiset{x} == multiset(s)
  {
    assert x in multiset(s);
  }

  lemma {:induction false} ItemsAbove<T(!new)>(s: seq<HeapNode<T>>, k: real)
    requires forall x {:trigger x in s} :: x in s ==> k <= x.key
    ensures Least(k, Items(s))
    decreases |s|
  {
    if s != [] {
      assert s[0] in s;
      forall x {:trigger x in s[1..]} | x in s[1..]
        ensures k <= x.key
      {
        assert x in s;
      }
      ItemsAbove(s[1..], k);
    }
  }

  lemma Fewer<T>(t: seq<T>, s: seq<T>, x: T)
    requires multiset(t) == multiset(s) - multiset{x} && x in s
    ensures |t| == |s| - 1 && multiset(t) <= multiset(s)
  {
    assert x in multiset(s);
    assert |multiset(t)| == |multiset(s)| - 1;
  }

  // ---- checking the order ----

  /** The first n keys are not larger than their children. */
  ghost predicate CheckedTo(k: seq<real>, n: nat) {
    forall i {:trigger k[i]} :: 0 < i < |k| && Parent(i) < n ==> k[Parent(i)] <= k[i]
  }

  lemma NoneChecked(k: seq<real>)
    ensures CheckedTo(k, 0)
  {
  }

  lemma OneMoreChecked(k: seq<real>, n: nat)
    requires CheckedTo(k, n) && n < |k|
    requires 2 * n + 1 < |k| ==> k[n] <= k[2 * n + 1]
    requires 2 * n + 2 < |k| ==> k[n] <= k[2 * n + 2]
    ensures CheckedTo(k, n + 1)
  {
    forall i {:trigger k[i]} | 0 < i < |k| && Parent(i) < n + 1
      ensures k[Parent(i)] <= k[i]
    {
      Children(i, n);
    }
  }

  lemma AllChecked(k: seq<real>, n: nat)
    requires CheckedTo(k, n) && n >= |k| / 2
    ensures Ordered(k)
  {
  }

  lemma Violated(k: seq<real>, n: nat)
    requires n < |k|
    requires (2 * n + 1 < |k| && k[n] > k[2 * n + 1]) || (2 * n + 2 < |k| && k[n] > k[2 * n + 2])
    ensures !Ordered(k)
  {
    var c := if 2 * n + 1 < |k| && k[n] > k[2 * n + 1] then 2 * n + 1 else 2 * n + 2;
    Children(c, n);
    assert k[Parent(c)] > k[c];
  }

  // ---- a heap that is emptied ----

  /** What comes out of a heap that is emptied from the root: everything in it, in ascending order. */
  method ExtractAll<T(!new)>(h: Heap<T>) returns (out: seq<(real, T)>)
    requires h.Valid()
    modifies h.nodes, h`last, h`elems, (set e | e in h.elems)`id
    ensures h.Valid() && h.elems == [] && multiset(out) == old(Items(h.elems))
    ensures forall i, j :: 0 <= i < j < |out| ==> out[i].0 <= out[j].0
  {
    hide *;
    out := [];
    h.ValidParts();
    NothingTaken(Items(h.elems));
    while h.last > 0
      invariant h.Valid() && |h.elems| == h.last && multiset(h.elems) <= old(multiset(h.elems)) && h.nodes == old(h.nodes)
      invariant multiset(out) + Items(h.elems) == old(Items(h.elems))
      invariant Taken(out, Items(h.elems))
      decreases |h.elems|
    {
      Subset(h.elems, old(h.elems));
      FirstItem(h.elems);
      ghost var items := Items(h.elems);
      var k := h.PeepMinKey();
      var d := h.ExtractMin();
      h.ValidParts();
      OutStep(out, items, Items(h.elems), (k, d.value));
      out := out + [(k, d.value)];
    }
    NoItems(h.elems);
    TakenAscends(out, Items(h.elems));
  }

  /** What was taken out is in ascending order, and not above what is left. */
  ghost predicate Taken<T(!new)>(out: seq<(real, T)>, left: multiset<(real, T)>) {
    && (forall i, j :: 0 <= i < j < |out| ==> out[i].0 <= out[j].0)
    && forall i {:trigger out[i]} :: 0 <= i < |out| ==> Least(out[i].0, left)
  }

  lemma TakenAscends<T(!new)>(out: seq<(real, T)>, left: multiset<(real, T)>)
    requires Taken(out, left)
    ensures forall i, j :: 0 <= i < j < |out| ==> out[i].0 <= out[j].0
  {
  }

  lemma NothingTaken<T(!new)>(left: multiset<(real, T)>)
    ensures Taken([], left)
  {
  }

  lemma OutStep<T(!new)>(out: seq<(real, T)>, items: multiset<(real, T)>, left: multiset<(real, T)>, x: (real, T))
    requires Taken(out, items) && x in items && left == items - multiset{x} && Least(x.0, items)
    ensures Taken(out + [x], left) && multiset(out + [x]) + left == multiset(out) + items
  {
    hide Least;
    OneMore(out, x);
    Moved(multiset(out), items, x);
    LeastLess(x.0, items, left);
    forall i {:trigger out[i]} | 0 <= i < |out|
      ensures out[i].0 <= x.0 && Least(out[i].0, left)
    {
      LeastOf(out[i].0, items, x);
      LeastLess(out[i].0, items, left);
    }
  }

  lemma FirstItem<T>(s: seq<HeapNode<T>>)
    requires s != []
    ensures (s[0].key, s[0].data) in Items(s)
  {
  }

  lemma NoItems<T>(s: seq<HeapNode<T>>)
    ensures |s| == 0 ==> s == [] && Items(s) == multiset{}
  {
  }

  lemma Moved<T>(a: multiset<T>, b: multiset<T>, x: T)
    requires x in b
    ensures a + multiset{x} + (b - multiset{x}) == a + b
  {
  }

  lemma LeastOf<T(!new)>(k: real, m: multiset<(real, T)>, x: (real, T))
    requires Least(k, m) && x in m
    ensures k <= x.0
  {
  }

  lemma LeastLess<T(!new)>(k: real, a: multiset<(real, T)>, b: multiset<(real, T)>)
    requires Least(k, a) && b <= a
    ensures Least(k, b)
  {
  }
}
