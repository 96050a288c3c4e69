/** hash.c: chained buckets with one cursor that walks through them and survives removals. */
module Hashing {
  // ---- sequences without repetition ----

  ghost predicate Distinct<T>(s: seq<T>) {
    forall i, j {:trigger s[i], s[j]} :: 0 <= i < j < |s| ==> s[i] != s[j]
  }

  /** All but x. */
  function Without<T(==)>(s: seq<T>, x: T): (r: seq<T>)
  {
    if s == [] then [] else (if s[0] == x then [] else [s[0]]) + Without(s[1..], x)
  }

  /** From the first x on. */
  function From<T(==)>(s: seq<T>, x: T): seq<T> {
    if s == [] then [] else if s[0] == x then s else From(s[1..], x)
  }

  lemma {:induction false} WithoutIn<T>(s: seq<T>, x: T, y: T)
    ensures y in Without(s, x) <==> y in s && y != x
  {
    if s != [] {
      WithoutIn(s[1..], x, y);
      assert s == [s[0]] + s[1..];
    }
  }

  lemma {:induction false} WithoutAbsent<T>(s: seq<T>, x: T)
    requires x !in s
    ensures Without(s, x) == s
  {
    if s != [] {
      assert s[0] in s && s == [s[0]] + s[1..];
      WithoutAbsent(s[1..], x);
    }
  }

  lemma {:induction false} WithoutConcat<T>(a: seq<T>, b: seq<T>, x: T)
    ensures Without(a + b, x) == Without(a, x) + Without(b, x)
    decreases |a|
  {
    if a == [] {
      assert a + b == b;
    } else {
      assert (a + b)[1..] == a[1..] + b;
      WithoutConcat(a[1..], b, x);
    }
  }

  lemma DistinctTail<T>(s: seq<T>)
    requires Distinct(s) && s != []
    ensures Distinct(s[1..]) && s[0] !in s[1..]
  {
    var t := s[1..];
    forall j, k {:trigger t[j], t[k]} | 0 <= j < k < |t|
      ensures t[j] != t[k]
    {
      assert t[j] == s[j + 1] && t[k] == s[k + 1];
    }
    forall j | 0 <= j < |t|
      ensures t[j] != s[0]
    {
      assert t[j] == s[j + 1];
    }
  }

  lemma {:induction false} WithoutAt<T>(s: seq<T>, i: nat)
    requires Distinct(s) && i < |s|
    ensures Without(s, s[i]) == s[..i] + s[i + 1..]
    decreases i
  {
    hide Distinct;
    DistinctTail(s);
    if i == 0 {
      WithoutAbsent(s[1..], s[0]);
    } else {
      assert s[1..][i - 1] == s[i];
      WithoutAt(s[1..], i - 1);
      assert s[..i] == [s[0]] + s[1..][..i - 1];
      assert s[i + 1..] == s[1..][i..];
    }
  }

  lemma {:induction false} WithoutDistinct<T>(s: seq<T>, x: T)
    requires Distinct(s)
    ensures Distinct(Without(s, x))
  {
    if x in s {
      var i :| 0 <= i < |s| && s[i] == x;
      WithoutAt(s, i);
      var t := s[..i] + s[i + 1..];
      forall j, k {:trigger t[j], t[k]} | 0 <= j < k < |t|
        ensures t[j] != t[k]
      {
        assert t[j] == s[if j < i then j else j + 1] && t[k] == s[if k < i then k else k + 1];
      }
    } else {
      WithoutAbsent(s, x);
    }
  }

  lemma {:induction false} FromAt<T>(s: seq<T>, i: nat)
    requires Distinct(s) && i < |s|
    ensures From(s, s[i]) == s[i..]
    decreases i
  {
    if i > 0 {
      DistinctTail(s);
      assert s[1..][i - 1] == s[i];
      FromAt(s[1..], i - 1);
    }
  }

  // ---- the links of a table ----

  class Link<K> {
    const key: K
    var next: Link?<K>

    constructor (key: K)
      ensures this.key == key
    {
      this.key, next := key, null;
    }
  }

  type Hash<!K> = (K, nat) -> nat

  /** The links of one bucket, in the order of the whole. */
  function InBucket<K>(hash: Hash<K>, size: nat, s: seq<Link<K>>, b: nat): (r: seq<Link<K>>)
    ensures forall i {:trigger r[i]} :: 0 <= i < |r| ==> r[i] in s
  {
    if s == [] then [] else (if hash(s[0].key, size) == b then [s[0]] else []) + InBucket(hash, size, s[1..], b)
  }

  /** The buckets from b on, one after the other. */
  function Flat<K>(hash: Hash<K>, size: nat, s: seq<Link<K>>, b: nat): seq<Link<K>>
    decreases size - b
  {
    if b >= size then [] else InBucket(hash, size, s, b) + Flat(hash, size, s, b + 1)
  }

  lemma {:induction false} InBucketIn<K>(hash: Hash<K>, size: nat, s: seq<Link<K>>, b: nat, x: Link<K>)
    ensures x in InBucket(hash, size, s, b) <==> x in s && hash(x.key, size) == b
  {
    if s != [] {
      assert s == [s[0]] + s[1..];
      InBucketIn(hash, size, s[1..], b, x);
    }
  }

  lemma {:induction false} InBucketDistinct<K>(hash: Hash<K>, size: nat, s: seq<Link<K>>, b: nat)
    requires Distinct(s)
    ensures Distinct(InBucket(hash, size, s, b))
  {
    if s != [] {
      DistinctTail(s);
      InBucketDistinct(hash, size, s[1..], b);
      InBucketIn(hash, size, s[1..], b, s[0]);
    }
  }

  lemma {:induction false} InBucketWithout<K>(hash: Hash<K>, size: nat, s: seq<Link<K>>, b: nat, x: Link<K>)
    ensures InBucket(hash, size, Without(s, x), b) == Without(InBucket(hash, size, s, b), x)
  {
    if s != [] {
      InBucketWithout(hash, size, s[1..], b, x);
      var r := InBucket(hash, size, s[1..], b);
      WithoutCons(s[0], s[1..], x);
      assert s == [s[0]] + s[1..];
      InBucketCons(hash, size, s[0], s[1..], b);
      InBucketCons(hash, size, s[0], Without(s[1..], x), b);
      WithoutCons(s[0], r, x);
    }
  }

  lemma WithoutCons<T>(h: T, r: seq<T>, x: T)
    ensures Without([h] + r, x) == (if h == x then [] else [h]) + Without(r, x)
    ensures [] + Without(r, x) == Without(r, x) && [] + r == r
  {
    assert ([h] + r)[1..] == r;
  }

  lemma InBucketCons<K>(hash: Hash<K>, size: nat, h: Link<K>, r: seq<Link<K>>, b: nat)
    ensures InBucket(hash, size, [h] + r, b) == (if hash(h.key, size) == b then [h] else []) + InBucket(hash, size, r, b)
  {
    assert ([h] + r)[1..] == r;
  }

  lemma {:induction false} FlatWithout<K>(hash: Hash<K>, size: nat, s: seq<Link<K>>, b: nat, x: Link<K>)
    ensures Flat(hash, size, Without(s, x), b) == Without(Flat(hash, size, s, b), x)
    decreases size - b
  {
    if b < size {
      InBucketWithout(hash, size, s, b, x);
      FlatWithout(hash, size, s, b + 1, x);
      WithoutConcat(InBucket(hash, size, s, b), Flat(hash, size, s, b + 1), x);
    }
  }

  lemma {:induction false} FlatIn<K>(hash: Hash<K>, size: nat, s: seq<Link<K>>, b: nat, x: Link<K>)
    ensures x in Flat(hash, size, s, b) <==> x in s && b <= hash(x.key, size) < size
    decreases size - b
  {
    hide InBucket;
    if b < size {
      var l, f := InBucket(hash, size, s, b), Flat(hash, size, s, b + 1);
      InBucketIn(hash, size, s, b, x);
      FlatIn(hash, size, s, b + 1, x);
      assert x in l + f <==> x in l || x in f;
    }
  }

  lemma {:induction false} FlatDistinct<K>(hash: Hash<K>, size: nat, s: seq<Link<K>>, b: nat)
    requires Distinct(s)
    ensures Distinct(Flat(hash, size, s, b))
    decreases size - b
  {
    if b < size {
      var l, r := InBucket(hash, size, s, b), Flat(hash, size, s, b + 1);
      InBucketDistinct(hash, size, s, b);
      FlatDistinct(hash, size, s, b + 1);
      forall i, j | 0 <= i < |l| && 0 <= j < |r|
        ensures l[i] != r[j]
      {
        InBucketIn(hash, size, s, b, l[i]);
        FlatIn(hash, size, s, b + 1, r[j]);
      }
    }
  }

  // ---- the pointers of one bucket ----

  /** The links hang together as the sequence says. */
  ghost predicate Listed<K>(head: Link?<K>, s: seq<Link<K>>)
    reads (set l | l in s)`next
  {
    head == At(s, 0) && forall i {:trigger s[i]} :: 0 <= i < |s| ==> s[i].next == At(s, i + 1)
  }

  function At<K>(s: seq<Link<K>>, i: nat): Link?<K> {
    if i < |s| then s[i] else null
  }

  class Table<K(!new)> {
    const size: nat
    const hash: Hash<K>
    const cmp: (K, K) -> int
    var buckets: array<Link?<K>>
    var currentSlot: nat
    var next: Link?<K>
    var count: int
    /** All links of the table, the most recently joined first. */
    ghost var links: seq<Link<K>>

    /** What the caller of `hash_create` has to see to: keys that compare equal have the same hash. */
    ghost predicate Suits()
    {
      size > 0 && (forall k :: hash(k, size) < size) && forall a, b {:trigger cmp(a, b)} :: cmp(a, b) == 0 ==> hash(a, size) == hash(b, size)
    }

    ghost predicate Linked()
      reads this`buckets, this`links, buckets, (set l | l in links)`next
    {
      && buckets.Length == size && Distinct(links)
      && forall b {:trigger buckets[b]} {:trigger InBucket(hash, size, links, b)} :: 0 <= b < size ==> Listed(buckets[b], InBucket(hash, size, links, b))
    }

    /** The cursor stands on a link of its bucket, or on none. */
    ghost predicate Pointing()
      reads this`next, this`currentSlot, this`links
    {
      next != null ==> currentSlot < size && next in InBucket(hash, size, links, currentSlot)
    }

    ghost predicate Valid()
      reads this, buckets, (set l | l in links)`next
    {
      Suits() && Linked() && Pointing() && count == |links|
    }

    /** What the cursor still has to pass. */
    ghost function Rest(): seq<Link<K>>
      reads this`next, this`currentSlot, this`links
    {
      RestOf(hash, size, links, currentSlot, next)
    }

    lemma ValidParts()
      requires Valid()
      ensures Suits() && Linked() && Pointing() && count == |links| && Distinct(links) && size > 0
      ensures next != null ==> currentSlot < size && next in InBucket(hash, size, links, currentSlot)
      ensures Rest() == RestOf(hash, size, links, currentSlot, next)
    {
      hide InBucket, RestOf, Distinct;
    }

    lemma ValidFrom()
      requires Suits() && Linked() && Pointing() && count == |links|
      ensures Valid()
    {
    }

    lemma PointingFrom()
      requires next != null ==> currentSlot < size && next in InBucket(hash, size, links, currentSlot)
      ensures Pointing() && Rest() == RestOf(hash, size, links, currentSlot, next)
    {
    }

    /** `hash_create` */
    constructor (cmp: (K, K) -> int, hashSz: nat, hash: Hash<K>)
      requires forall n: nat, k :: n > 0 ==> hash(k, n) < n
      requires forall n: nat, a, b {:trigger cmp(a, b), hash(a, n)} :: cmp(a, b) == 0 ==> hash(a, n) == hash(b, n)
      ensures Valid() && links == [] && Rest() == [] && this.cmp == cmp && this.hash == hash && fresh(buckets)
      ensures size == if hashSz == 0 then 7951 else hashSz
    {
      this.cmp, this.hash := cmp, hash;
      size := if hashSz == 0 then 7951 else hashSz;
      buckets := new Link?<K>[if hashSz == 0 then 7951 else hashSz](i => null);
      next, currentSlot, count, links := null, 0, 0, [];
    }

    /** What is in a bucket. */
    lemma Bucket(b: nat)
      requires Suits() && Linked() && b < size
      ensures b < buckets.Length && Distinct(links) && Listed(buckets[b], InBucket(hash, size, links, b)) && Distinct(InBucket(hash, size, links, b))
      ensures buckets[b] == At(InBucket(hash, size, links, b), 0)
    {
      hide Distinct, InBucket;
      InBucketDistinct(hash, size, links, b);
    }

    lemma KeyHash(k: K)
      requires Suits()
      ensures hash(k, size) < size
    {
    }

    /** `hash_join` */
    method Join(lnk: Link<K>)
      requires Valid() && lnk !in links
      modifies buckets, this`count, this`links, lnk`next
      ensures Valid() && links == [lnk] + old(links) && count == old(count) + 1
      ensures Without(Rest(), lnk) == old(Rest())
      ensures lnk in Rest() <==> next != null && currentSlot < hash(lnk.key, size)
    {
      hide *;
      ValidParts();
      KeyHash(lnk.key);
      JoinedRest(hash, size, links, currentSlot, next, lnk);
      Put(lnk);
      PointingFrom();
      count := count + 1;
      ValidFrom();
    }

    /** The stores that put a link before the others of its bucket. */
    method Put(lnk: Link<K>)
      requires Suits() && Linked() && lnk !in links
      modifies buckets, this`links, lnk`next
      ensures Linked() && links == [lnk] + old(links)
    {
      hide InBucket, Distinct;
      var i := hash(lnk.key, size);
      ghost var s0 := links;
      lnk.next := buckets[i];
      buckets[i] := lnk;
      links := [lnk] + links;
      JoinDistinct(s0, lnk);
      forall b {:trigger buckets[b]} {:trigger InBucket(hash, size, links, b)} | 0 <= b < size
        ensures Listed(buckets[b], InBucket(hash, size, links, b))
      {
        InBucketCons(hash, size, lnk, s0, b);
        NotInBucket(hash, size, s0, b, lnk);
        assert old(Listed(buckets[b], InBucket(hash, size, s0, b)));
      }
    }

    /** `hash_next_bucket`: on to the next bucket that is not empty. */
    method NextBucket()
      requires Suits() && Linked() && next == null && currentSlot < size
      modifies this`next, this`currentSlot
      ensures Pointing() && Linked() && Rest() == Flat(hash, size, links, old(currentSlot) + 1)
    {
      hide *;
      ghost var b0 := currentSlot + 1;
      currentSlot := currentSlot + 1;
      while next == null && currentSlot < size
        invariant b0 <= currentSlot <= size && Linked() && Suits()
        invariant next == null ==> Flat(hash, size, links, b0) == Flat(hash, size, links, currentSlot)
        invariant next != null ==> currentSlot < size && next in InBucket(hash, size, links, currentSlot)
        invariant next != null ==> RestOf(hash, size, links, currentSlot, next) == Flat(hash, size, links, b0)
        decreases size - currentSlot, next == null
      {
        Bucket(currentSlot);
        next := buckets[currentSlot];
        FirstOfBucket(hash, size, links, currentSlot);
        if next == null {
          currentSlot := currentSlot + 1;
        }
      }
      PointingFrom();
      AtTheEnd(hash, size, links, currentSlot, next);
    }

    /** `hash_first` */
    method First()
      requires Valid() && next == null
      modifies this`next, this`currentSlot
      ensures Valid() && Rest() == Flat(hash, size, links, 0)
    {
      hide *;
      ValidParts();
      currentSlot := 0;
      Bucket(0);
      next := buckets[currentSlot];
      FirstOfBucket(hash, size, links, 0);
      PointingFrom();
      if next == null {
        NextBucket();
      }
      ValidFrom();
    }

    /** All buckets together hold all links. */
    lemma FlatAll()
      requires Suits()
      ensures forall l {:trigger l in links} {:trigger l in Flat(hash, size, links, 0)} :: l in links <==> l in Flat(hash, size, links, 0)
    {
      hide Flat, InBucket;
      forall l {:trigger l in links}
        ensures l in links <==> l in Flat(hash, size, links, 0)
      {
        FlatIn(hash, size, links, 0, l);
      }
    }

    /** `hash_next` */
    method Next() returns (l: Link?<K>)
      requires Valid()
      modifies this`next, this`currentSlot
      ensures Valid()
      ensures l == null <==> old(Rest()) == []
      ensures l == null ==> Rest() == []
      ensures l != null ==> l == old(Rest())[0] && Rest() == old(Rest())[1..]
    {
      hide *;
      ValidParts();
      l := next;
      if l == null {
        NoRest(hash, size, links, currentSlot);
        return;
      }
      Bucket(currentSlot);
      ghost var c := InBucket(hash, size, links, currentSlot);
      ghost var i :| 0 <= i < |c| && c[i] == l;
      NextInBucket(buckets[currentSlot], c, i);
      RestAt(hash, size, links, currentSlot, i);
      next := l.next;
      PointingFrom();
      if next == null {
        NextBucket();
      }
      ValidFrom();
    }

    /** `hash_last` */
    method Last()
      requires Valid()
      modifies this`next, this`currentSlot
      ensures Valid() && Rest() == []
    {
      hide *;
      ValidParts();
      next := null;
      currentSlot := 0;
      PointingFrom();
      NoRest(hash, size, links, currentSlot);
      ValidFrom();
    }

    /** `hash_remove_link` */
    method RemoveLink(hl: Link<K>)
      requires Valid() && hl in links
      modifies this, buckets, (set l | l in links)`next
      ensures Valid() && links == Without(old(links), hl) && count == old(count) - 1 && buckets == old(buckets)
      ensures Rest() == Without(old(Rest()), hl)
      ensures old(next) != hl ==> next == old(next) && currentSlot == old(currentSlot)
    {
      hide *;
      ValidParts();
      var i := hash(hl.key, size);
      KeyHash(hl.key);
      ghost var p;
      var prev: Link?<K>;
      prev, p := Find(i, hl);
      RemovedRest(hash, size, links, currentSlot, next, hl, p);
      WithoutOne(links, hl);
      CurrentRest(hash, size, links, currentSlot, next, hl);
      Unlink(i, prev, hl, p);
      count := count - 1;
      if next == hl {
        next := hl.next;
        PointingFrom();
        if next == null {
          NextBucket();
        }
      } else {
        PointingFrom();
      }
      ValidFrom();
    }

    /** The loop of `hash_remove_link`: the link before hl in its bucket. */
    method Find(i: nat, hl: Link<K>) returns (prev: Link?<K>, ghost p: nat)
      requires Suits() && Linked() && hl in links && i == hash(hl.key, size) && i < size
      ensures var c := InBucket(hash, size, links, i);
        p < |c| && c[p] == hl && hl.next == At(c, p + 1) && if p == 0 then prev == null else prev == c[p - 1]
      ensures i < buckets.Length && Distinct(links)
    {
      hide *;
      Bucket(i);
      InBucketIn(hash, size, links, i, hl);
      ghost var c, pos := InBucket(hash, size, links, i), 0;
      p :| 0 <= p < |c| && c[p] == hl;
      prev := null;
      var cur := buckets[i];
      AtIndex(c, 0);
      while cur != hl
        invariant 0 <= pos <= p && cur == c[pos]
        invariant if pos == 0 then prev == null else prev == c[pos - 1]
        decreases p - pos
      {
        NextInBucket(buckets[i], c, pos);
        AtIndex(c, pos + 1);
        prev := cur;
        cur := cur.next;
        pos := pos + 1;
      }
      SamePlace(c, pos, p);
      NextInBucket(buckets[i], c, p);
    }

    /** The store that takes a link out of its bucket. */
    method Unlink(i: nat, prev: Link?<K>, hl: Link<K>, ghost p: nat)
      requires Suits() && Linked() && hl in links && i == hash(hl.key, size) && i < buckets.Length
      requires var c := InBucket(hash, size, links, i);
        p < |c| && c[p] == hl && if p == 0 then prev == null else prev == c[p - 1]
      modifies buckets, this`links, (set l | l in links)`next
      ensures Linked() && links == Without(old(links), hl) && hl.next == old(hl.next)
    {
      hide InBucket, Without, Distinct;
      ghost var s0, c := links, InBucket(hash, size, links, i);
      Bucket(i);
      SamePlaces(c);
      if prev == null {
        buckets[i] := hl.next;
      } else {
        prev.next := hl.next;
      }
      links := Without(links, hl);
      WithoutDistinct(s0, hl);
      forall b {:trigger buckets[b]} {:trigger InBucket(hash, size, links, b)} | 0 <= b < size
        ensures Listed(buckets[b], InBucket(hash, size, links, b))
      {
        InBucketWithout(hash, size, s0, b, hl);
        assert old(Listed(buckets[b], InBucket(hash, size, s0, b)));
        if b == i {
          WithoutAt(c, p);
          ListedWithout(buckets[b], c, p);
        } else {
          OtherBucket(hash, size, s0, i, b, hl);
          WithoutAbsent(InBucket(hash, size, s0, b), hl);
          if prev != null {
            InBucketIn(hash, size, s0, i, prev);
            InBucketIn(hash, size, s0, b, prev);
          }
        }
      }
    }

    /** `hash_lookup` */
    method Lookup(k: K) returns (walker: Link?<K>)
      requires Valid()
      ensures walker == null ==> forall i {:trigger links[i]} :: 0 <= i < |links| ==> cmp(k, links[i].key) != 0
      ensures walker != null ==> FirstMatch(links, cmp, k, walker) && walker in links
    {
      var b := hash(k, size);
      Bucket(b);
      ghost var c, i := InBucket(hash, size, links, b), 0;
      walker := buckets[b];
      while walker != null && cmp(k, walker.key) != 0
        invariant 0 <= i <= |c| && walker == At(c, i)
        invariant forall j {:trigger c[j]} :: 0 <= j < i ==> cmp(k, c[j].key) != 0
        decreases |c| - i
      {
        walker := walker.next;
        i := i + 1;
      }
      if walker == null {
        NoneInBucket(hash, size, links, b, cmp, k);
      } else {
        FirstInBucket(hash, size, links, b, cmp, k, i);
        InBucketIn(hash, size, links, b, c[i]);
      }
    }
  }

  ghost function RestOf<K>(hash: Hash<K>, size: nat, s: seq<Link<K>>, slot: nat, next: Link?<K>): seq<Link<K>> {
    if next == null then [] else From<Link<K>>(InBucket(hash, size, s, slot), next) + Flat(hash, size, s, slot + 1)
  }

  lemma NoRest<K>(hash: Hash<K>, size: nat, s: seq<Link<K>>, slot: nat)
    ensures RestOf(hash, size, s, slot, null) == []
  {
  }

  lemma AtTheEnd<K>(hash: Hash<K>, size: nat, s: seq<Link<K>>, slot: nat, next: Link?<K>)
    ensures next == null ==> RestOf(hash, size, s, slot, next) == [] && (slot >= size ==> Flat(hash, size, s, slot) == [])
  {
  }

  lemma AtIndex<K>(c: seq<Link<K>>, i: nat)
    ensures i < |c| ==> At(c, i) == c[i]
    ensures i >= |c| ==> At(c, i) == null
  {
  }

  lemma FirstOfBucket<K>(hash: Hash<K>, size: nat, s: seq<Link<K>>, slot: nat)
    requires slot < size
    ensures var c := InBucket(hash, size, s, slot);
      if c == [] then At(c, 0) == null && Flat(hash, size, s, slot) == Flat(hash, size, s, slot + 1)
      else At(c, 0) == c[0] && c[0] in c && RestOf(hash, size, s, slot, c[0]) == Flat(hash, size, s, slot)
  {
    hide InBucket;
  }

  lemma RestAt<K>(hash: Hash<K>, size: nat, s: seq<Link<K>>, slot: nat, i: nat)
    requires Distinct(s) && i < |InBucket(hash, size, s, slot)|
    ensures var c := InBucket(hash, size, s, slot);
      var r := RestOf(hash, size, s, slot, c[i]);
      && r != [] && r[0] == c[i] && r == c[i..] + Flat(hash, size, s, slot + 1)
      && if i + 1 < |c| then At(c, i + 1) == c[i + 1] && c[i + 1] in c && r[1..] == RestOf(hash, size, s, slot, c[i + 1])
         else At(c, i + 1) == null && r[1..] == Flat(hash, size, s, slot + 1)
  {
    hide InBucket, From, Flat, Distinct;
    var c, f := InBucket(hash, size, s, slot), Flat(hash, size, s, slot + 1);
    InBucketDistinct(hash, size, s, slot);
    FromAt(c, i);
    assert (c[i..] + f)[1..] == c[i + 1..] + f;
    if i + 1 < |c| {
      FromAt(c, i + 1);
    } else {
      assert c[i + 1..] + f == f;
    }
  }

  lemma NextInBucket<K>(head: Link?<K>, c: seq<Link<K>>, i: nat)
    requires Listed(head, c) && i < |c|
    ensures head == At(c, 0) && c[i].next == At(c, i + 1)
  {
  }

  lemma SamePlace<T>(c: seq<T>, i: nat, j: nat)
    requires Distinct(c) && i <= j < |c| && c[i] == c[j]
    ensures i == j
  {
  }

  lemma SamePlaces<T>(c: seq<T>)
    requires Distinct(c)
    ensures forall i, j {:trigger c[i], c[j]} :: 0 <= i < |c| && 0 <= j < |c| && c[i] == c[j] ==> i == j
  {
  }

  lemma ListedWithout<K>(head: Link?<K>, c: seq<Link<K>>, p: nat)
    requires p < |c| && (p == 0 ==> head == At(c, 1)) && (p > 0 ==> head == At(c, 0) && c[p - 1].next == At(c, p + 1))
    requires forall i {:trigger c[i]} :: 0 <= i < |c| && i + 1 != p && i != p ==> c[i].next == At(c, i + 1)
    ensures Listed(head, c[..p] + c[p + 1..])
  {
    var d := c[..p] + c[p + 1..];
    forall i {:trigger d[i]} | 0 <= i < |d|
      ensures d[i].next == At(d, i + 1)
    {
      assert d[i] == c[if i < p then i else i + 1];
    }
  }

  lemma OtherBucket<K>(hash: Hash<K>, size: nat, s: seq<Link<K>>, i: nat, b: nat, x: Link<K>)
    requires hash(x.key, size) == i && b != i
    ensures x !in InBucket(hash, size, s, b)
  {
    InBucketIn(hash, size, s, b, x);
  }

  lemma WithoutOne<T>(s: seq<T>, x: T)
    requires Distinct(s) && x in s
    ensures |Without(s, x)| == |s| - 1
  {
    var i :| 0 <= i < |s| && s[i] == x;
    WithoutAt(s, i);
  }

  /** The cursor stood on the link that goes. */
  lemma RemovedRest<K>(hash: Hash<K>, size: nat, s: seq<Link<K>>, slot: nat, next: Link?<K>, hl: Link<K>, p: nat)
    requires Distinct(s) && p < |InBucket(hash, size, s, hash(hl.key, size))| && InBucket(hash, size, s, hash(hl.key, size))[p] == hl
    requires next != null ==> next in InBucket(hash, size, s, slot)
    ensures next == hl ==>
      var c, t := InBucket(hash, size, s, slot), Without(s, hl);
      && slot == hash(hl.key, size) && p < |c|
      && (p + 1 < |c| ==> At(c, p + 1) == c[p + 1] && c[p + 1] in InBucket(hash, size, t, slot))
      && (p + 1 < |c| ==> RestOf(hash, size, t, slot, c[p + 1]) == Without(RestOf(hash, size, s, slot, next), hl))
      && (p + 1 >= |c| ==> At(c, p + 1) == null && Flat(hash, size, t, slot + 1) == Without(RestOf(hash, size, s, slot, next), hl))
  {
    hide *;
    if next == hl {
      InBucketIn(hash, size, s, slot, hl);
      var c, t, f := InBucket(hash, size, s, slot), Without(s, hl), Flat(hash, size, s, slot + 1);
      RestAt(hash, size, s, slot, p);
      InBucketDistinct(hash, size, s, slot);
      InBucketWithout(hash, size, s, slot, hl);
      WithoutDistinct(s, hl);
      WithoutAt(c, p);
      FlatWithout(hash, size, s, slot + 1, hl);
      FlatIn(hash, size, s, slot + 1, hl);
      WithoutConcat(c[p..], f, hl);
      DropOne(c, p, hl);
      if p + 1 < |c| {
        var d := InBucket(hash, size, t, slot);
        assert d[p] == c[p + 1] && d[p..] == c[p + 1..];
        RestAt(hash, size, t, slot, p);
      } else {
        assert c[p + 1..] == [];
      }
    }
  }

  lemma DropOne<T>(c: seq<T>, p: nat, x: T)
    requires Distinct(c) && p < |c| && c[p] == x
    ensures Without(c[p..], x) == c[p + 1..]
  {
    var d := c[p..];
    forall i, j {:trigger d[i], d[j]} | 0 <= i < j < |d|
      ensures d[i] != d[j]
    {
      assert d[i] == c[p + i] && d[j] == c[p + j];
    }
    WithoutAt(d, 0);
  }

  /** The cursor stands elsewhere. */
  lemma CurrentRest<K>(hash: Hash<K>, size: nat, s: seq<Link<K>>, slot: nat, next: Link?<K>, hl: Link<K>)
    requires next != null ==> next in InBucket(hash, size, s, slot)
    ensures next != hl ==> RestOf(hash, size, Without(s, hl), slot, next) == Without(RestOf(hash, size, s, slot, next), hl)
    ensures next != hl && next != null ==> next in InBucket(hash, size, Without(s, hl), slot)
  {
    hide InBucket, From, Flat, Without;
    if next != hl && next != null {
      var c, f := InBucket(hash, size, s, slot), Flat(hash, size, s, slot + 1);
      InBucketWithout(hash, size, s, slot, hl);
      FlatWithout(hash, size, s, slot + 1, hl);
      FromWithout<Link<K>>(c, hl, next);
      WithoutConcat(From<Link<K>>(c, next), f, hl);
      WithoutIn<Link<K>>(c, hl, next);
    } else if next == null {
      WithoutNone(hl);
    }
  }

  lemma WithoutNone<T>(x: T)
    ensures Without([], x) == []
  {
  }

  /** A new link is passed only if its bucket is still ahead. */
  lemma JoinedRest<K>(hash: Hash<K>, size: nat, s: seq<Link<K>>, slot: nat, next: Link?<K>, lnk: Link<K>)
    requires lnk !in s && (next != null ==> slot < size && next in InBucket(hash, size, s, slot)) && hash(lnk.key, size) < size
    ensures Without(RestOf(hash, size, [lnk] + s, slot, next), lnk) == RestOf(hash, size, s, slot, next)
    ensures lnk in RestOf(hash, size, [lnk] + s, slot, next) <==> next != null && slot < hash(lnk.key, size)
    ensures next != null ==> next in InBucket(hash, size, [lnk] + s, slot)
  {
    hide InBucket, From, Flat, Without;
    if next != null {
      var c, b, f := InBucket(hash, size, s, slot), slot + 1, Flat(hash, size, [lnk] + s, slot + 1);
      InBucketCons(hash, size, lnk, s, slot);
      NotInBucket(hash, size, s, slot, lnk);
      FromCons<Link<K>>(lnk, c, next);
      NoneBefore(c);
      FromIn<Link<K>>(c, next, lnk);
      WithoutAbsent(From<Link<K>>(c, next), lnk);
      WithoutConcat(From<Link<K>>(c, next), f, lnk);
      FlatWithout(hash, size, [lnk] + s, b, lnk);
      WithoutCons(lnk, s, lnk);
      WithoutAbsent(s, lnk);
      FlatIn(hash, size, [lnk] + s, b, lnk);
    } else {
      WithoutNone(lnk);
    }
  }

  lemma NoneBefore<T>(c: seq<T>)
    ensures [] + c == c
  {
  }

  lemma JoinDistinct<T>(s: seq<T>, x: T)
    requires Distinct(s) && x !in s
    ensures Distinct([x] + s)
  {
  }

  lemma NotInBucket<K>(hash: Hash<K>, size: nat, s: seq<Link<K>>, b: nat, x: Link<K>)
    requires x !in s
    ensures x !in InBucket(hash, size, s, b)
  {
    InBucketIn(hash, size, s, b, x);
  }

  lemma FromCons<T>(h: T, r: seq<T>, x: T)
    requires h != x
    ensures From([h] + r, x) == From(r, x)
  {
    assert ([h] + r)[1..] == r;
  }

  lemma {:induction false} FromIn<T>(s: seq<T>, x: T, y: T)
    ensures y in From(s, x) ==> y in s
  {
    if s != [] && s[0] != x {
      FromIn(s[1..], x, y);
    }
  }

  lemma {:induction false} FromWithout<T>(s: seq<T>, x: T, y: T)
    requires x != y
    ensures From(Without(s, x), y) == Without(From(s, y), x)
  {
    if s != [] {
      FromWithout(s[1..], x, y);
      assert s == [s[0]] + s[1..];
      WithoutCons(s[0], s[1..], x);
      if s[0] != y {
        FromCons(s[0], s[1..], y);
        if s[0] != x {
          FromCons(s[0], Without(s[1..], x), y);
        }
      }
    }
  }

  /** A key that is in no link of its bucket is in no link at all. */
  lemma {:induction false} NoneInBucket<K(!new)>(hash: Hash<K>, size: nat, s: seq<Link<K>>, b: nat, cmp: (K, K) -> int, k: K)
    requires forall x, y {:trigger cmp(x, y)} :: cmp(x, y) == 0 ==> hash(x, size) == hash(y, size)
    requires b == hash(k, size)
    requires forall j {:trigger InBucket(hash, size, s, b)[j]} :: 0 <= j < |InBucket(hash, size, s, b)| ==> cmp(k, InBucket(hash, size, s, b)[j].key) != 0
    ensures forall i {:trigger s[i]} :: 0 <= i < |s| ==> cmp(k, s[i].key) != 0
  {
    var c := InBucket(hash, size, s, b);
    forall i {:trigger s[i]} | 0 <= i < |s|
      ensures cmp(k, s[i].key) != 0
    {
      InBucketIn(hash, size, s, b, s[i]);
      assert hash(s[i].key, size) == b ==> exists j :: 0 <= j < |c| && c[j] == s[i];
    }
  }

  /** x is the first link of s whose key compares equal to k. */
  ghost predicate FirstMatch<K(!new)>(s: seq<Link<K>>, cmp: (K, K) -> int, k: K, x: Link<K>) {
    exists n {:trigger s[n]} :: 0 <= n < |s| && s[n] == x && cmp(k, x.key) == 0 && forall j {:trigger s[j]} :: 0 <= j < n ==> cmp(k, s[j].key) != 0
  }

  /** The first link in the bucket that compares equal is the first one of all. */
  lemma {:induction false} FirstInBucket<K(!new)>(hash: Hash<K>, size: nat, s: seq<Link<K>>, b: nat, cmp: (K, K) -> int, k: K, i: nat)
    requires forall x, y {:trigger cmp(x, y)} :: cmp(x, y) == 0 ==> hash(x, size) == hash(y, size)
    requires b == hash(k, size) && i < |InBucket(hash, size, s, b)| && cmp(k, InBucket(hash, size, s, b)[i].key) == 0
    requires forall j {:trigger InBucket(hash, size, s, b)[j]} :: 0 <= j < i ==> cmp(k, InBucket(hash, size, s, b)[j].key) != 0
    ensures FirstMatch(s, cmp, k, InBucket(hash, size, s, b)[i])
    decreases |s|
  {
    hide FirstMatch, InBucket;
    var c, t, x := InBucket(hash, size, s, b), s[1..], s[0];
    var c' := InBucket(hash, size, t, b);
    BucketStep(hash, size, s, b);
    if hash(x.key, size) == b && i == 0 {
      FirstHere(s, cmp, k);
    } else {
      Earlier(hash, size, s, b, cmp, k, i);
      FirstInBucket(hash, size, t, b, cmp, k, if hash(x.key, size) == b then i - 1 else i);
      FirstLater(s, cmp, k, c[i]);
    }
  }

  lemma BucketStep<K>(hash: Hash<K>, size: nat, s: seq<Link<K>>, b: nat)
    requires InBucket(hash, size, s, b) != []
    ensures s != [] && if hash(s[0].key, size) == b
            then InBucket(hash, size, s, b)[0] == s[0] && |InBucket(hash, size, s, b)| == |InBucket(hash, size, s[1..], b)| + 1
              && forall j {:trigger InBucket(hash, size, s[1..], b)[j]} :: 0 <= j < |InBucket(hash, size, s[1..], b)| ==>
                InBucket(hash, size, s[1..], b)[j] == InBucket(hash, size, s, b)[j + 1]
            else InBucket(hash, size, s, b) == InBucket(hash, size, s[1..], b)
  {
  }

  lemma FirstHere<K(!new)>(s: seq<Link<K>>, cmp: (K, K) -> int, k: K)
    requires s != [] && cmp(k, s[0].key) == 0
    ensures FirstMatch(s, cmp, k, s[0])
  {
  }

  lemma FirstLater<K(!new)>(s: seq<Link<K>>, cmp: (K, K) -> int, k: K, x: Link<K>)
    requires s != [] && cmp(k, s[0].key) != 0 && FirstMatch(s[1..], cmp, k, x)
    ensures FirstMatch(s, cmp, k, x)
  {
    var t := s[1..];
    var n :| 0 <= n < |t| && t[n] == x && cmp(k, x.key) == 0 && forall j {:trigger t[j]} :: 0 <= j < n ==> cmp(k, t[j].key) != 0;
    assert s[n + 1] == x;
    forall j {:trigger s[j]} | 0 <= j < n + 1
      ensures cmp(k, s[j].key) != 0
    {
      assert j > 0 ==> s[j] == t[j - 1];
    }
  }

  /** The first link of all is in another bucket, or before the match in this one. */
  lemma Earlier<K(!new)>(hash: Hash<K>, size: nat, s: seq<Link<K>>, b: nat, cmp: (K, K) -> int, k: K, i: nat)
    requires forall x, y {:trigger cmp(x, y)} :: cmp(x, y) == 0 ==> hash(x, size) == hash(y, size)
    requires s != [] && b == hash(k, size) && (hash(s[0].key, size) == b ==> i > 0) && i < |InBucket(hash, size, s, b)|
    requires forall j {:trigger InBucket(hash, size, s, b)[j]} :: 0 <= j < i ==> cmp(k, InBucket(hash, size, s, b)[j].key) != 0
    ensures cmp(k, s[0].key) != 0
  {
    if hash(s[0].key, size) == b {
      assert InBucket(hash, size, s, b)[0] == s[0];
    }
  }

  // ---- whole traversals ----

  lemma {:induction false} RestFacts<K>(hash: Hash<K>, size: nat, s: seq<Link<K>>, slot: nat, next: Link?<K>)
    requires Distinct(s) && (next != null ==> next in InBucket(hash, size, s, slot))
    ensures Distinct(RestOf(hash, size, s, slot, next))
    ensures forall l {:trigger l in RestOf(hash, size, s, slot, next)} :: l in RestOf(hash, size, s, slot, next) ==> l in s
  {
    hide InBucket, Flat, From;
    if next != null {
      var c, f := InBucket(hash, size, s, slot), Flat(hash, size, s, slot + 1);
      var i :| 0 <= i < |c| && c[i] == next;
      RestAt(hash, size, s, slot, i);
      InBucketDistinct(hash, size, s, slot);
      FlatDistinct(hash, size, s, slot + 1);
      var r := c[i..] + f;
      forall l | l in r
        ensures l in s
      {
        InBucketIn(hash, size, s, slot, l);
        FlatIn(hash, size, s, slot + 1, l);
        assert l in c[i..] ==> l in c;
      }
      forall a, b {:trigger r[a], r[b]} | 0 <= a < b < |r|
        ensures r[a] != r[b]
      {
        if b < |c| - i {
          assert r[a] == c[i + a] && r[b] == c[i + b];
        } else if a < |c| - i {
          assert r[a] == c[i + a] && r[b] == f[b - (|c| - i)];
          InBucketIn(hash, size, s, slot, r[a]);
          FlatIn(hash, size, s, slot + 1, r[b]);
        } else {
          assert r[a] == f[a - (|c| - i)] && r[b] == f[b - (|c| - i)];
        }
      }
    }
  }

  datatype Step<K> = Next | Remove(link: Link<K>)

  /** The links to be removed from the i-th step on are in the table, each once. */
  ghost predicate Removable<K>(plan: seq<Step<K>>, i: nat, links: seq<Link<K>>) {
    && (forall j {:trigger plan[j]} :: i <= j < |plan| && plan[j].Remove? ==> plan[j].link in links)
    && forall j, k {:trigger plan[j], plan[k]} :: i <= j < k < |plan| && plan[j].Remove? ==> plan[j] != plan[k]
  }

  lemma RemovableNext<K>(plan: seq<Step<K>>, i: nat, links: seq<Link<K>>)
    requires Removable(plan, i, links) && i < |plan|
    ensures plan[i].Remove? ==> plan[i].link in links && Removable(plan, i + 1, Without(links, plan[i].link))
    ensures Removable(plan, i + 1, links)
  {
    hide Without;
    if plan[i].Remove? {
      WithoutMembers(links, plan[i].link);
      forall j {:trigger plan[j]} | i + 1 <= j < |plan| && plan[j].Remove?
        ensures plan[j].link in Without(links, plan[i].link)
      {
        assert plan[i] != plan[j];
      }
    }
  }

  datatype Event<K> = Yielded(link: Link<K>) | Removed(link: Link<K>)

  /** Nothing is yielded or removed after it was removed, and nothing is yielded twice. */
  ghost predicate Orderly<K>(log: seq<Event<K>>) {
    forall i, j {:trigger log[i], log[j]} :: 0 <= i < j < |log| && log[i].link == log[j].link ==> log[i].Yielded? && log[j].Removed?
  }

  /** What the cursor has still to pass, and what is in the table, as the log tells. */
  ghost predicate Accounted<K>(log: seq<Event<K>>, before: seq<Link<K>>, links: seq<Link<K>>, rest: seq<Link<K>>) {
    && (forall e {:trigger e in log} :: e in log ==> e.link in before)
    && (forall l {:trigger l in before} {:trigger l in rest} {:trigger l in links} :: l in before ==>
          && (l in rest <==> Yielded(l) !in log && Removed(l) !in log)
          && (l in links <==> Removed(l) !in log))
    && (forall l {:trigger l in links} :: l in links ==> l in before)
    && forall l {:trigger l in rest} :: l in rest ==> l in before
  }

  /** A traversal during which any links are removed, the pending one or others: what is still in the
      table when the cursor comes to it is yielded once, and nothing that was removed before. */
  method Traverse<K(!new)>(t: Table<K>, plan: seq<Step<K>>) returns (log: seq<Event<K>>)
    requires t.Valid() && t.next == null && Removable(plan, 0, t.links)
    modifies t, t.buckets, (set l | l in t.links)`next
    ensures t.Valid() && Orderly(log) && Accounted(log, old(t.links), t.links, t.Rest())
  {
    hide *;
    log := [];
    t.ValidParts();
    t.First();
    t.ValidParts();
    t.FlatAll();
    Beginning(t.links, t.Rest());
    var i := 0;
    while i < |plan|
      invariant 0 <= i <= |plan| && Removable(plan, i, t.links)
      invariant t.Valid() && Orderly(log) && Accounted(log, old(t.links), t.links, t.Rest()) && t.buckets == old(t.buckets)
    {
      t.ValidParts();
      RestFacts(t.hash, t.size, t.links, t.currentSlot, t.next);
      RemovableNext(plan, i, t.links);
      ghost var links, rest := t.links, t.Rest();
      match plan[i] {
        case Next =>
          var l := t.Next();
          if l != null {
            AfterNext(log, old(t.links), links, rest, l);
            log := log + [Yielded(l)];
          }
        case Remove(l) =>
          AfterRemove(log, old(t.links), links, rest, l);
          Covered(log, old(t.links), links, rest);
          t.RemoveLink(l);
          log := log + [Removed(l)];
      }
      i := i + 1;
    }
  }

  lemma Beginning<K>(links: seq<Link<K>>, rest: seq<Link<K>>)
    requires forall l {:trigger l in links} {:trigger l in rest} :: l in links <==> l in rest
    ensures Accounted([], links, links, rest) && Orderly<K>([])
  {
  }

  lemma Covered<K>(log: seq<Event<K>>, before: seq<Link<K>>, links: seq<Link<K>>, rest: seq<Link<K>>)
    requires Accounted(log, before, links, rest)
    ensures forall l {:trigger l in links} :: l in links ==> l in before
  {
  }

  lemma AfterNext<K>(log: seq<Event<K>>, before: seq<Link<K>>, links: seq<Link<K>>, rest: seq<Link<K>>, l: Link<K>)
    requires Accounted(log, before, links, rest) && Orderly(log) && Distinct(rest) && rest != [] && rest[0] == l
    ensures Accounted(log + [Yielded(l)], before, links, rest[1..]) && Orderly(log + [Yielded(l)])
  {
    hide Distinct, Orderly;
    DistinctTail(rest);
    var rest1, log1 := rest[1..], log + [Yielded(l)];
    forall y {:trigger y in rest1}
      ensures y in rest <==> y == l || y in rest1
    {
      assert rest == [l] + rest1;
    }
    OneMoreEvent(log, Yielded(l));
    forall x {:trigger x in before} {:trigger x in rest1} {:trigger x in links} | x in before
      ensures (x in rest1 <==> Yielded(x) !in log1 && Removed(x) !in log1) && (x in links <==> Removed(x) !in log1)
    {
      assert (Yielded(x) in log1 <==> Yielded(x) in log || x == l) && (Removed(x) in log1 <==> Removed(x) in log);
    }
    assert Removed(l) !in log && Yielded(l) !in log;
    OrderlyMore(log, Yielded(l));
  }

  lemma AfterRemove<K>(log: seq<Event<K>>, before: seq<Link<K>>, links: seq<Link<K>>, rest: seq<Link<K>>, l: Link<K>)
    requires Accounted(log, before, links, rest) && Orderly(log) && l in links
    ensures Accounted(log + [Removed(l)], before, Without(links, l), Without(rest, l)) && Orderly(log + [Removed(l)])
  {
    hide Without, Orderly;
    var links1, rest1 := Without(links, l), Without(rest, l);
    WithoutMembers(links, l);
    WithoutMembers(rest, l);
    var log1 := log + [Removed(l)];
    OneMoreEvent(log, Removed(l));
    forall x {:trigger x in before} {:trigger x in rest1} {:trigger x in links1} | x in before
      ensures (x in rest1 <==> Yielded(x) !in log1 && Removed(x) !in log1) && (x in links1 <==> Removed(x) !in log1)
    {
      assert (Yielded(x) in log1 <==> Yielded(x) in log) && (Removed(x) in log1 <==> Removed(x) in log || x == l);
    }
    forall x {:trigger x in links1} | x in links1
      ensures x in before
    {
      WithoutIn(links, l, x);
    }
    forall x {:trigger x in rest1} | x in rest1
      ensures x in before
    {
      WithoutIn(rest, l, x);
    }
    assert l in before && Removed(l) !in log;
    OrderlyMore(log, Removed(l));
  }

  lemma WithoutMembers<K>(s: seq<Link<K>>, x: Link<K>)
    ensures forall y {:trigger y in Without(s, x)} {:trigger y in s} :: y in Without(s, x) <==> y in s && y != x
  {
    hide Without;
    forall y: Link<K>
      ensures y in Without(s, x) <==> y in s && y != x
    {
      WithoutIn(s, x, y);
    }
  }

  lemma OneMoreEvent<K>(log: seq<Event<K>>, e: Event<K>)
    ensures forall x {:trigger x in log + [e]} {:trigger x in log} :: x in log + [e] <==> x in log || x == e
  {
  }

  lemma OrderlyMore<K>(log: seq<Event<K>>, e: Event<K>)
    requires Orderly(log) && Removed(e.link) !in log && (e.Yielded? ==> Yielded(e.link) !in log)
    ensures Orderly(log + [e])
  {
    var log' := log + [e];
    forall i, j {:trigger log'[i], log'[j]} | 0 <= i < j < |log'| && log'[i].link == log'[j].link
      ensures log'[i].Yielded? && log'[j].Removed?
    {
      assert log'[i] == log[i] && log[i] in log;
      var a, l := log[i], log[i].link;
      assert a == Yielded(l) || a == Removed(l);
    }
  }

  // ---- the hash of a string ----

  const WORD := 0x1_0000_0000

  /** Thirty-three times what was, and the next character, for every character of the string. */
  function Fold(h: nat, s: seq<int>): nat
    decreases |s|
  {
    if s == [] then h else Fold((33 * h + s[0]) % WORD, s[1..])
  }

  lemma {:induction false} FoldAppend(h: nat, a: seq<int>, b: seq<int>)
    ensures Fold(h, a + b) == Fold(Fold(h, a), b)
    decreases |a|
  {
    if a == [] {
      assert a + b == b;
    } else {
      assert (a + b)[1..] == a[1..] + b;
      FoldAppend((33 * h + a[0]) % WORD, a[1..], b);
    }
  }

  lemma FoldOne(h: nat, key: seq<int>, i: nat)
    requires i < |key|
    ensures Fold(h, key[..i + 1]) == (33 * Fold(h, key[..i]) + key[i]) % WORD
  {
    assert key[..i + 1] == key[..i] + [key[i]];
    FoldAppend(h, key[..i], [key[i]]);
    assert [key[i]][1..] == [];
  }

  /** `hash4`: the characters before the last whole groups of eight, and then the groups. */
  method Hash4(key: seq<int>, size: nat) returns (h: nat)
    requires size > 0
    ensures h == Fold(0, key) % size
  {
    h := 0;
    var len := |key|;
    var loop, rest, i := len / 8, len % 8, 0;
    while rest > 0
      invariant 0 <= rest && i + rest == len % 8 && h == Fold(0, key[..i])
    {
      FoldOne(0, key, i);
      h := (33 * h + key[i]) % WORD;
      i, rest := i + 1, rest - 1;
    }
    while loop > 0
      invariant 0 <= loop && i + 8 * loop == len && h == Fold(0, key[..i])
    {
      var step := 0;
      while step < 8
        invariant 0 <= step <= 8 && i + (8 - step) + 8 * (loop - 1) == len && h == Fold(0, key[..i])
      {
        FoldOne(0, key, i);
        h := (33 * h + key[i]) % WORD;
        i, step := i + 1, step + 1;
      }
      loop := loop - 1;
    }
    assert key[..i] == key;
    h := h % size;
  }
}
