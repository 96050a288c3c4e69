/** The two list macros of dlmalloc.c, `unlink` and the splice that ends `frontlink`, and what
    they do to the book. */
module DlLists {
  import opened DlSizes
  import opened DlBook

  function Remove<T>(s: seq<T>, i: nat): seq<T>
    requires i < |s|
  {
    s[..i] + s[i + 1..]
  }

  function Insert<T>(s: seq<T>, i: nat, x: T): seq<T>
    requires i <= |s|
  {
    s[..i] + [x] + s[i..]
  }

  /** `unlink` */
  function Unlink(m: Memory, p: int): Memory {
    var bck := Bk(m, p);
    var fwd := Fd(m, p);
    m[fwd + 12 := bck][bck + 8 := fwd]
  }

  /** m' is m with p put between bck and fwd. */
  ghost predicate Spliced(m: Memory, m': Memory, p: int, bck: int, fwd: int) {
    forall a {:trigger Rd(m', a)} :: Rd(m', a) ==
      if a == p + 8 then fwd else if a == p + 12 then bck
      else if a == fwd + 12 || a == bck + 8 then p else Rd(m, a)
  }

  /** The positions of a ring are different places, with room for two link fields each. */
  ghost predicate Spread(h: int, s: seq<int>) {
    forall u, v {:trigger Node(h, s, u), Node(h, s, v)} :: 0 <= u < v <= |s| ==>
      Node(h, s, u) + 8 <= Node(h, s, v) || Node(h, s, v) + 8 <= Node(h, s, u)
  }

  lemma BinsSpread(k: Book, b: nat)
    requires Apart(k) && Filed(k) && 1 <= b < NAV
    ensures Spread(BinAt(b), k.bins[b])
  {
    var h, s := BinAt(b), k.bins[b];
    forall u, v {:trigger Node(h, s, u), Node(h, s, v)} | 0 <= u < v <= |s|
      ensures Node(h, s, u) + 8 <= Node(h, s, v) || Node(h, s, v) + 8 <= Node(h, s, u)
    {
      assert s[v - 1] in k.chunks;
      if u > 0 {
        assert s[u - 1] in k.chunks && s[u - 1] != s[v - 1];
      }
    }
  }

  lemma NodesOfTwoBins(k: Book, b: nat, i: int, b': nat, i': int)
    requires Apart(k) && Filed(k) && 1 <= b < NAV && 1 <= b' < NAV && b != b'
    ensures var n, n' := Node(BinAt(b), k.bins[b], i), Node(BinAt(b'), k.bins[b'], i');
      n + 8 <= n' || n' + 8 <= n
  {
    NodeIsSite(k, b, i);
    NodeIsSite(k, b', i');
  }

  /** Two positions are the same place or far enough apart; only the header is met twice. */
  lemma RingSite(h: int, s: seq<int>, u: int, v: int)
    requires Spread(h, s) && 0 <= u <= |s| + 1 && 0 <= v <= |s| + 1
    ensures var x, y := Node(h, s, u), Node(h, s, v);
      || x + 8 <= y || y + 8 <= x
      || (x == y && (u == v || (u == 0 && v == |s| + 1) || (v == 0 && u == |s| + 1)))
  {
    var u' := if u == |s| + 1 then 0 else u;
    var v' := if v == |s| + 1 then 0 else v;
    assert Node(h, s, u) == Node(h, s, u') && Node(h, s, v) == Node(h, s, v');
  }

  /** m' is m with bck and fwd joined. */
  ghost predicate Joined(m: Memory, m': Memory, bck: int, fwd: int) {
    forall a {:trigger Rd(m', a)} :: Rd(m', a) ==
      if a == bck + 8 then fwd else if a == fwd + 12 then bck else Rd(m, a)
  }

  lemma RingRemoveAt(m: Memory, m': Memory, h: int, s: seq<int>, i: nat, u: nat, v: nat)
    requires i < |s| && Ring(m, h, s) && Spread(h, s) && u <= |s|
    requires if u == i then v == i + 2 else u != i + 1 && v == u + 1
    requires Joined(m, m', Node(h, s, i), Node(h, s, i + 2))
    ensures Fd(m', Node(h, s, u)) == Node(h, s, v) && Bk(m', Node(h, s, v)) == Node(h, s, u)
  {
    RingSite(h, s, u, i);
    RingSite(h, s, u, i + 2);
    RingSite(h, s, v, i);
    RingSite(h, s, v, i + 2);
  }

  lemma RingRemove(m: Memory, m': Memory, h: int, s: seq<int>, i: nat)
    requires i < |s| && Ring(m, h, s) && Spread(h, s)
    requires Joined(m, m', Node(h, s, i), Node(h, s, i + 2))
    ensures Ring(m', h, Remove(s, i))
  {
    var s' := Remove(s, i);
    forall j, j' {:trigger Node(h, s', j), Node(h, s', j')} | 0 <= j <= |s'| && j' == j + 1
      ensures Fd(m', Node(h, s', j)) == Node(h, s', j') && Bk(m', Node(h, s', j')) == Node(h, s', j)
    {
      var u := if j <= i then j else j + 1;
      var v := if j + 1 <= i then j + 1 else j + 2;
      assert Node(h, s', j) == Node(h, s, u);
      assert Node(h, s', j + 1) == Node(h, s, v);
      RingRemoveAt(m, m', h, s, i, u, v);
    }
  }

  lemma RingInsert(m: Memory, m': Memory, h: int, s: seq<int>, i: nat, p: int)
    requires i <= |s| && Ring(m, h, s) && Spread(h, s)
    requires forall j {:trigger Node(h, s, j)} :: 0 <= j <= |s| ==> p + 8 <= Node(h, s, j) || Node(h, s, j) + 8 <= p
    requires Spliced(m, m', p, Node(h, s, i), Node(h, s, i + 1))
    ensures Ring(m', h, Insert(s, i, p))
  {
    var s' := Insert(s, i, p);
    assert i + 1 == |s| + 1 ==> Node(h, s, i + 1) == Node(h, s, 0);
    forall j, j' {:trigger Node(h, s', j), Node(h, s', j')} | 0 <= j <= |s'| && j' == j + 1
      ensures Fd(m', Node(h, s', j)) == Node(h, s', j') && Bk(m', Node(h, s', j')) == Node(h, s', j)
    {
      if j < i || j > i + 1 {
        var u := if j < i then j else j - 1;
        assert Node(h, s', j) == Node(h, s, u);
        assert Node(h, s', j + 1) == Node(h, s, u + 1);
        RingSite(h, s, u, i);
        RingSite(h, s, u, i + 1);
        RingSite(h, s, u + 1, i);
        RingSite(h, s, u + 1, i + 1);
        assert u + 1 == |s| + 1 ==> Node(h, s, u + 1) == Node(h, s, 0);
      } else {
        assert Node(h, s', i) == Node(h, s, i);
        assert Node(h, s', i + 1) == p;
        assert Node(h, s', i + 2) == Node(h, s, i + 1);
        RingSite(h, s, i, i + 1);
      }
    }
  }

  // ---- unlink ----

  ghost predicate IsFiled(k: Book, p: int, b: nat, i: nat) {
    |k.bins| == NAV && 1 <= b < NAV && i < |k.bins[b]| && k.bins[b][i] == p && p in k.chunks
  }

  ghost function Detach(k: Book, p: int, b: nat, i: nat): Book
    requires IsFiled(k, p, b, i)
  {
    k.(chunks := k.chunks[p := k.chunks[p].(st := Loose)], bins := k.bins[b := Remove(k.bins[b], i)])
  }

  lemma DetachHomed(k: Book, p: int, b: nat, i: nat)
    requires Filed(k) && IsFiled(k, p, b, i)
    ensures Homed(Detach(k, p, b, i))
  {
    var k' := Detach(k, p, b, i);
    var s, s' := k.bins[b], k'.bins[b];
    forall q {:trigger k'.chunks[q]} | q in k'.chunks && k'.chunks[q].st.Free?
      ensures 1 <= k'.chunks[q].st.bin < NAV && q in k'.bins[k'.chunks[q].st.bin]
    {
      assert k'.chunks[q] == k.chunks[q];
      if k.chunks[q].st.bin == b {
        var j :| 0 <= j < |s| && s[j] == q;
        assert q == s'[if j < i then j else j - 1];
      }
    }
  }

  lemma DetachListed(k: Book, p: int, b: nat, i: nat)
    requires Filed(k) && IsFiled(k, p, b, i)
    ensures Listed(Detach(k, p, b, i)) && Distinct(Detach(k, p, b, i).bins)
  {
    var k' := Detach(k, p, b, i);
    forall c, j {:trigger k'.bins[c][j]} | 0 <= c < NAV && 0 <= j < |k'.bins[c]|
      ensures k'.bins[c][j] in k'.chunks && k'.chunks[k'.bins[c][j]].st == Free(c)
      ensures 2 <= c ==> BinIndex(k'.chunks[k'.bins[c][j]].size) == c
    {
      var u := if c != b || j < i then j else j + 1;
      assert k'.bins[c][j] == k.bins[c][u];
      assert k.bins[b][i] == p;
      assert k.bins[c][u] != p;
    }
    forall c, u, v {:trigger k'.bins[c][u], k'.bins[c][v]} | 0 <= c < NAV && 0 <= u < v < |k'.bins[c]|
      ensures k'.bins[c][u] != k'.bins[c][v]
    {
      assert k'.bins[c][u] == k.bins[c][if c != b || u < i then u else u + 1];
      assert k'.bins[c][v] == k.bins[c][if c != b || v < i then v else v + 1];
    }
  }

  lemma DetachSorted(k: Book, p: int, b: nat, i: nat)
    requires Filed(k) && IsFiled(k, p, b, i) && Listed(Detach(k, p, b, i))
    ensures Sorted(Detach(k, p, b, i))
  {
    hide Homed;
    var k' := Detach(k, p, b, i);
    forall c, u, v {:trigger k'.bins[c][u], k'.bins[c][v]} | 2 <= c < NAV && 0 <= u < v < |k'.bins[c]|
      ensures k'.chunks[k'.bins[c][u]].size >= k'.chunks[k'.bins[c][v]].size
    {
      assert k'.bins[c][u] == k.bins[c][if c != b || u < i then u else u + 1];
      assert k'.bins[c][v] == k.bins[c][if c != b || v < i then v else v + 1];
    }
  }

  ghost function Restatus(k: Book, p: int, st: Status): Book
    requires p in k.chunks
  {
    k.(chunks := k.chunks[p := k.chunks[p].(st := st)])
  }

  lemma RestatusApart(k: Book, p: int, st: Status, bins: seq<seq<int>>)
    requires Apart(k) && p in k.chunks
    ensures Apart(Restatus(k, p, st).(bins := bins))
  {
  }

  lemma RestatusChained(k: Book, p: int, st: Status, bins: seq<seq<int>>)
    requires Upward(k) && Downward(k) && p in k.chunks
    ensures Upward(Restatus(k, p, st).(bins := bins))
    ensures Downward(Restatus(k, p, st).(bins := bins))
  {
    var k' := Restatus(k, p, st).(bins := bins);
    forall q {:trigger Next(k'.chunks, q)} | q in k'.chunks && q != k'.top
      ensures Next(k'.chunks, q) in k'.chunks && k'.chunks[Next(k'.chunks, q)].prev == q
    {
      assert Next(k'.chunks, q) == Next(k.chunks, q);
    }
    forall q {:trigger k'.chunks[q].prev} | q in k'.chunks && q != k'.base
      ensures k'.chunks[q].prev in k'.chunks && k'.chunks[q].prev != k'.top
      ensures Next(k'.chunks, k'.chunks[q].prev) == q
    {
      assert k'.chunks[q].prev == k.chunks[q].prev;
    }
  }

  lemma RestatusTiled(k: Book, p: int, st: Status, bins: seq<seq<int>>)
    requires Tiled(k) && p in k.chunks && !k.chunks[p].st.Top? && !st.Top?
    ensures Tiled(Restatus(k, p, st).(bins := bins))
  {
    RestatusApart(k, p, st, bins);
    RestatusChained(k, p, st, bins);
  }

  /** A change between the free statuses shows in no header. */
  lemma RestatusTagged(m: Memory, k: Book, x: int, p: int, st: Status, bins: seq<seq<int>>)
    requires Tagged(m, k, x) && p in k.chunks && (st.Free? ==> PrevSize(m, Next(k.chunks, p)) == k.chunks[p].size)
    requires st.Used? == k.chunks[p].st.Used?
    ensures Tagged(m, Restatus(k, p, st).(bins := bins), x)
  {
    var k' := Restatus(k, p, st).(bins := bins);
    forall q {:trigger Head(m, q)} | q in k'.chunks && q != x
      ensures Head(m, q) == k'.chunks[q].size + PBit(k', q)
    {
      assert PBit(k', q) == PBit(k, q);
    }
    forall q {:trigger Next(k'.chunks, q)} | q in k'.chunks && k'.chunks[q].st.Free?
      ensures PrevSize(m, Next(k'.chunks, q)) == k'.chunks[q].size
    {
      assert Next(k'.chunks, q) == Next(k.chunks, q);
    }
  }

  /** Writing words that are no header and no foot. */
  lemma TagsFrame(m: Memory, m': Memory, k: Book, x: int)
    requires Upward(k) && k.top in k.chunks && Tagged(m, k, x)
    requires forall q {:trigger q in k.chunks} :: q in k.chunks ==> Head(m', q) == Head(m, q) && PrevSize(m', q) == PrevSize(m, q)
    requires PrevSize(m', Next(k.chunks, k.top)) == PrevSize(m, Next(k.chunks, k.top))
    ensures Tagged(m', k, x)
  {
    forall q {:trigger Head(m', q)} | q in k.chunks && q != x
      ensures Head(m', q) == k.chunks[q].size + PBit(k, q)
    {
      assert Head(m', q) == Head(m, q);
    }
    forall q {:trigger Next(k.chunks, q)} | q in k.chunks && k.chunks[q].st.Free?
      ensures PrevSize(m', Next(k.chunks, q)) == k.chunks[q].size
    {
      assert q != k.top ==> Next(k.chunks, q) in k.chunks;
    }
  }

  /** A place a list link can be written to: a bin header or a free chunk that is not `top`. */
  ghost predicate LinkSite(k: Book, n: int) {
    || (BinAt(1) <= n <= BinAt(NAV - 1))
    || (n in k.chunks && (k.chunks[n].st.Free? || k.chunks[n].st.Loose?))
  }

  ghost predicate OnlyLinks(m: Memory, m': Memory, n1: int, n2: int, n3: int) {
    forall a {:trigger Rd(m', a)} :: a != n1 + 8 && a != n1 + 12 && a != n2 + 8 && a != n2 + 12 && a != n3 + 8 && a != n3 + 12
      ==> Rd(m', a) == Rd(m, a)
  }

  lemma LinkWritesTags(m: Memory, m': Memory, k: Book, x: int, n1: int, n2: int, n3: int)
    requires Apart(k) && Upward(k) && Tagged(m, k, x)
    requires LinkSite(k, n1) && LinkSite(k, n2) && LinkSite(k, n3) && OnlyLinks(m, m', n1, n2, n3)
    ensures Tagged(m', k, x)
  {
    TagsFrame(m, m', k, x);
  }

  lemma LinkWritesKeep(m: Memory, m': Memory, k: Book, n1: int, n2: int, n3: int)
    requires Apart(k)
    requires LinkSite(k, n1) && LinkSite(k, n2) && LinkSite(k, n3) && OnlyLinks(m, m', n1, n2, n3)
    ensures Keeps(m, m', k)
  {
  }

  lemma OtherRing(m: Memory, m': Memory, k: Book, b: nat, b': nat, i: nat, j: nat, p: int)
    requires Apart(k) && Filed(k) && Linked(m, k.bins) && 1 <= b < NAV && 1 <= b' < NAV && b != b'
    requires forall q {:trigger q in k.chunks} :: q in k.chunks && k.chunks[q].st == Free(b') ==> q != p
    requires p in k.chunks
    requires OnlyLinks(m, m', Node(BinAt(b), k.bins[b], i), Node(BinAt(b), k.bins[b], j), p)
    ensures Ring(m', BinAt(b'), k.bins[b'])
  {
    var h, s := BinAt(b'), k.bins[b'];
    assert Ring(m, h, s);
    forall u {:trigger Node(h, s, u)} | 0 <= u <= |s| + 1
      ensures Fd(m', Node(h, s, u)) == Fd(m, Node(h, s, u)) && Bk(m', Node(h, s, u)) == Bk(m, Node(h, s, u))
    {
      NodesOfTwoBins(k, b, i, b', u);
      NodesOfTwoBins(k, b, j, b', u);
      NodeIsSite(k, b', u);
    }
    RingFrame(m, m', h, s);
  }

  lemma UnlinkRings(m: Memory, k: Book, p: int, b: nat, i: nat)
    requires Apart(k) && Filed(k) && Linked(m, k.bins) && IsFiled(k, p, b, i)
    ensures Linked(Unlink(m, p), Detach(k, p, b, i).bins)
  {
    var k', m' := Detach(k, p, b, i), Unlink(m, p);
    var h, s := BinAt(b), k.bins[b];
    BinsSpread(k, b);
    LinksOf(m, k, p, b, i);
    forall c {:trigger k'.bins[c]} | 1 <= c < NAV
      ensures Ring(m', BinAt(c), k'.bins[c])
    {
      if c == b {
        RingRemove(m, m', h, s, i);
      } else {
        OtherRing(m, m', k, b, c, i, i + 2, p);
      }
    }
  }

  /** The links of a listed chunk name its two neighbours on the ring. */
  lemma LinksOf(m: Memory, k: Book, p: int, b: nat, i: nat)
    requires Filed(k) && Linked(m, k.bins) && IsFiled(k, p, b, i)
    ensures Bk(m, p) == Node(BinAt(b), k.bins[b], i) && Fd(m, p) == Node(BinAt(b), k.bins[b], i + 2)
    ensures Joined(m, Unlink(m, p), Node(BinAt(b), k.bins[b], i), Node(BinAt(b), k.bins[b], i + 2))
    ensures k.chunks[p].st == Free(b)
    ensures LinkSite(k, Node(BinAt(b), k.bins[b], i)) && LinkSite(k, Node(BinAt(b), k.bins[b], i + 2))
  {
    var h, s := BinAt(b), k.bins[b];
    assert Ring(m, h, s);
    assert Node(h, s, i + 1) == p;
    assert Bk(m, p) == Node(h, s, i) && Fd(m, p) == Node(h, s, i + 2);
    NodeIsSite(k, b, i);
    NodeIsSite(k, b, i + 2);
  }

  /** `unlink` takes chunk p off its list and touches no header, foot or user word. */
  lemma UnlinkStep(m: Memory, k: Book, x: int, p: int, b: nat, i: nat)
    requires Core(m, k, x) && IsFiled(k, p, b, i)
    ensures Core(Unlink(m, p), Detach(k, p, b, i), x)
    ensures Keeps(m, Unlink(m, p), k) && UsedIn(k, Detach(k, p, b, i))
  {
    var k', m' := Detach(k, p, b, i), Unlink(m, p);
    var h, s := BinAt(b), k.bins[b];
    LinksOf(m, k, p, b, i);
    UnlinkRings(m, k, p, b, i);
    DetachHomed(k, p, b, i);
    DetachListed(k, p, b, i);
    DetachSorted(k, p, b, i);
    LinkWritesTags(m, m', k, x, Node(h, s, i), Node(h, s, i + 2), p);
    LinkWritesKeep(m, m', k, Node(h, s, i), Node(h, s, i + 2), p);
    assert k' == Restatus(k, p, Loose).(bins := k'.bins);
    RestatusTiled(k, p, Loose, k'.bins);
    RestatusTagged(m', k, x, p, Loose, k'.bins);
  }

  // ---- linking ----

  ghost predicate Belongs(k: Book, p: int, b: nat, i: nat) {
    && Listed(k) && 1 <= b < NAV && i <= |k.bins[b]|
    && p in k.chunks && k.chunks[p].st == Loose
    && (b == 1 ==> k.bins[1] == [])
    && (b >= 2 ==> BinIndex(k.chunks[p].size) == b)
    && (forall j {:trigger k.bins[b][j]} :: 0 <= j < i ==> k.chunks[k.bins[b][j]].size >= k.chunks[p].size)
    && (forall j {:trigger k.bins[b][j]} :: i <= j < |k.bins[b]| ==> k.chunks[k.bins[b][j]].size <= k.chunks[p].size)
  }

  ghost function Attach(k: Book, p: int, b: nat, i: nat): Book
    requires Belongs(k, p, b, i)
  {
    k.(chunks := k.chunks[p := k.chunks[p].(st := Free(b))], bins := k.bins[b := Insert(k.bins[b], i, p)])
  }

  lemma AttachHomed(k: Book, p: int, b: nat, i: nat)
    requires Filed(k) && Belongs(k, p, b, i)
    ensures Homed(Attach(k, p, b, i))
  {
    var k' := Attach(k, p, b, i);
    var s, s' := k.bins[b], k'.bins[b];
    assert s'[i] == p;
    forall q {:trigger k'.chunks[q]} | q in k'.chunks && k'.chunks[q].st.Free?
      ensures 1 <= k'.chunks[q].st.bin < NAV && q in k'.bins[k'.chunks[q].st.bin]
    {
      if q != p && k.chunks[q].st.bin == b {
        var j :| 0 <= j < |s| && s[j] == q;
        assert q == s'[if j < i then j else j + 1];
      }
    }
  }

  lemma AttachListed(k: Book, p: int, b: nat, i: nat)
    requires Filed(k) && Belongs(k, p, b, i)
    ensures Listed(Attach(k, p, b, i))
  {
    hide Homed, Distinct, Sorted;
    var k' := Attach(k, p, b, i);
    forall c, j {:trigger k'.bins[c][j]} | 0 <= c < NAV && 0 <= j < |k'.bins[c]|
      ensures k'.bins[c][j] in k'.chunks && k'.chunks[k'.bins[c][j]].st == Free(c)
      ensures 2 <= c ==> BinIndex(k'.chunks[k'.bins[c][j]].size) == c
    {
      if c != b || j != i {
        var u := if c != b || j < i then j else j - 1;
        assert k'.bins[c][j] == k.bins[c][u];
      }
    }
  }

  lemma AttachDistinct(k: Book, p: int, b: nat, i: nat)
    requires Filed(k) && Belongs(k, p, b, i)
    ensures Distinct(Attach(k, p, b, i).bins)
  {
    hide Homed, Sorted;
    var k' := Attach(k, p, b, i);
    forall c, u, v {:trigger k'.bins[c][u], k'.bins[c][v]} | 0 <= c < NAV && 0 <= u < v < |k'.bins[c]|
      ensures k'.bins[c][u] != k'.bins[c][v]
    {
      if c != b || u != i {
        assert k'.bins[c][u] == k.bins[c][if c != b || u < i then u else u - 1];
      }
      if c != b || v != i {
        assert k'.bins[c][v] == k.bins[c][if c != b || v < i then v else v - 1];
      }
    }
  }

  lemma AttachSorted(k: Book, p: int, b: nat, i: nat)
    requires Filed(k) && Belongs(k, p, b, i) && Listed(Attach(k, p, b, i))
    ensures Sorted(Attach(k, p, b, i))
  {
    hide Homed, Distinct;
    var k' := Attach(k, p, b, i);
    forall c, u, v {:trigger k'.bins[c][u], k'.bins[c][v]} | 2 <= c < NAV && 0 <= u < v < |k'.bins[c]|
      ensures k'.chunks[k'.bins[c][u]].size >= k'.chunks[k'.bins[c][v]].size
    {
      if c != b || u != i {
        assert k'.bins[c][u] == k.bins[c][if c != b || u < i then u else u - 1];
      }
      if c != b || v != i {
        assert k'.bins[c][v] == k.bins[c][if c != b || v < i then v else v - 1];
      }
    }
  }

  lemma LinkRings(m: Memory, m': Memory, k: Book, p: int, b: nat, i: nat)
    requires Apart(k) && Filed(k) && Linked(m, k.bins) && Belongs(k, p, b, i)
    requires Spliced(m, m', p, Node(BinAt(b), k.bins[b], i), Node(BinAt(b), k.bins[b], i + 1))
    ensures Linked(m', Attach(k, p, b, i).bins)
  {
    var k' := Attach(k, p, b, i);
    var h, s := BinAt(b), k.bins[b];
    BinsSpread(k, b);
    forall c {:trigger k'.bins[c]} | 1 <= c < NAV
      ensures Ring(m', BinAt(c), k'.bins[c])
    {
      if c == b {
        forall j {:trigger Node(h, s, j)} | 0 <= j <= |s|
          ensures p + 8 <= Node(h, s, j) || Node(h, s, j) + 8 <= p
        {
          NodeIsSite(k, b, j);
        }
        RingInsert(m, m', h, s, i, p);
      } else {
        OtherRing(m, m', k, b, c, i, i + 1, p);
      }
    }
  }

  lemma AttachUsed(k: Book, p: int, b: nat, i: nat)
    requires Belongs(k, p, b, i)
    ensures UsedIn(k, Attach(k, p, b, i))
  {
  }

  lemma SpliceSites(m: Memory, m': Memory, k: Book, p: int, b: nat, i: nat)
    requires Filed(k) && Belongs(k, p, b, i)
    requires Spliced(m, m', p, Node(BinAt(b), k.bins[b], i), Node(BinAt(b), k.bins[b], i + 1))
    ensures OnlyLinks(m, m', Node(BinAt(b), k.bins[b], i), Node(BinAt(b), k.bins[b], i + 1), p)
    ensures LinkSite(k, p) && LinkSite(k, Node(BinAt(b), k.bins[b], i)) && LinkSite(k, Node(BinAt(b), k.bins[b], i + 1))
    ensures var k' := Attach(k, p, b, i);
      LinkSite(k', p) && LinkSite(k', Node(BinAt(b), k.bins[b], i)) && LinkSite(k', Node(BinAt(b), k.bins[b], i + 1))
  {
    hide Homed, Distinct, Sorted;
    NodeIsSite(k, b, i);
    NodeIsSite(k, b, i + 1);
  }

  lemma AttachBook(m: Memory, k: Book, x: int, p: int, b: nat, i: nat)
    requires Tiled(k) && Filed(k) && Tagged(m, k, x) && Belongs(k, p, b, i)
    requires PrevSize(m, Next(k.chunks, p)) == k.chunks[p].size
    ensures Tiled(Attach(k, p, b, i)) && Filed(Attach(k, p, b, i)) && Tagged(m, Attach(k, p, b, i), x)
  {
    hide Shaped, Apart, Upward, Downward, Tagged, Homed, Distinct, Sorted, BinIndex;
    var k' := Attach(k, p, b, i);
    AttachHomed(k, p, b, i);
    AttachListed(k, p, b, i);
    AttachDistinct(k, p, b, i);
    AttachSorted(k, p, b, i);
    RestatusTagged(m, k, x, p, Free(b), k'.bins);
    RestatusTiled(k, p, Free(b), k'.bins);
  }

  /** Splicing a loose chunk into its place puts it on the list. */
  lemma LinkStep(m: Memory, m': Memory, k: Book, x: int, p: int, b: nat, i: nat)
    requires Core(m, k, x) && Belongs(k, p, b, i)
    requires PrevSize(m, Next(k.chunks, p)) == k.chunks[p].size
    requires Spliced(m, m', p, Node(BinAt(b), k.bins[b], i), Node(BinAt(b), k.bins[b], i + 1))
    ensures Core(m', Attach(k, p, b, i), x)
    ensures Keeps(m, m', k) && UsedIn(k, Attach(k, p, b, i))
  {
    assert |k.bins| == NAV;
    hide Shaped, Apart, Upward, Downward, Tagged, Linked, Homed, Listed, Distinct, Sorted, Keeps, UsedIn, Spliced, OnlyLinks, LinkSite;
    hide BinIndex, Node, Belongs;
    var bck, fwd := Node(BinAt(b), k.bins[b], i), Node(BinAt(b), k.bins[b], i + 1);
    AttachUsed(k, p, b, i);
    LinkRings(m, m', k, p, b, i);
    AttachBook(m, k, x, p, b, i);
    SpliceSites(m, m', k, p, b, i);
    LinkWritesTags(m, m', Attach(k, p, b, i), x, bck, fwd, p);
    LinkWritesKeep(m, m', k, bck, fwd, p);
  }
}
