/** Runs of the host-route table: whatever sequence of insertions, deletions and lookups is made, the
    answers are those of a set of keys, and node pairs are used over and over. */
module RadixRuns {
  import opened RadixKeys
  import opened RadixTrie
  import opened RadixNodes
  import opened RadixShape
  import opened Radix

  datatype Op = Add(key: Key) | Delete(key: Key) | Match(key: Key)

  /** What is compared of a key. */
  function Tail(k: Key, off: nat, len: nat): seq<Byte> {
    if off <= len <= |k| then k[off..len] else []
  }

  /** The two keys that the head keeps for itself. */
  predicate Outer(s: seq<Byte>, off: nat, len: nat) {
    s == Tail(Zeros(len), off, len) || s == Tail(Ones(len), off, len)
  }

  /** The answer to a request that finds the keys s in the table. */
  predicate Answer(op: Op, s: set<seq<Byte>>, off: nat, len: nat) {
    var k := Tail(op.key, off, len);
    match op
    case Add(_) => k !in s && !Outer(k, off, len)
    case Delete(_) => k in s
    case Match(_) => k in s || Outer(k, off, len)
  }

  function After(op: Op, s: set<seq<Byte>>, off: nat, len: nat): set<seq<Byte>> {
    var k := Tail(op.key, off, len);
    match op
    case Add(_) => if Outer(k, off, len) then s else s + {k}
    case Delete(_) => s - {k}
    case Match(_) => s
  }

  function Answers(ops: seq<Op>, s: set<seq<Byte>>, off: nat, len: nat): seq<bool> {
    if ops == [] then [] else [Answer(ops[0], s, off, len)] + Answers(ops[1..], After(ops[0], s, off, len), off, len)
  }

  // ---- the keys of a tree ----

  /** The tree holds a route for s. */
  ghost predicate Holds(t: Trie, s: seq<Byte>, off: nat, len: nat) {
    exists l {:trigger l in Leaves(t)} :: l in Leaves(t) && l.Leaf? && l.id > ONES && Tail(l.key, off, len) == s
  }

  /** The keys of the routes in the tree are exactly those of the set. */
  ghost predicate Stands(t: Trie, s: set<seq<Byte>>, off: nat, len: nat) {
    forall k {:trigger k in s} {:trigger Holds(t, k, off, len)} :: k in s <==> Holds(t, k, off, len)
  }

  lemma HeldBy(t: Trie, l: Trie, off: nat, len: nat)
    requires l in Leaves(t) && l.Leaf? && l.id > ONES
    ensures Holds(t, Tail(l.key, off, len), off, len)
  {
  }

  lemma AddedHolds(t: Trie, t': Trie, leaf: Trie, k: seq<Byte>, off: nat, len: nat)
    requires Added(t, t', leaf) && leaf.Leaf? && leaf.id > ONES
    ensures Holds(t', k, off, len) <==> Holds(t, k, off, len) || k == Tail(leaf.key, off, len)
  {
    AddedLeaves(t, t', leaf);
    if k == Tail(leaf.key, off, len) {
      HeldBy(t', leaf, off, len);
    }
    if Holds(t, k, off, len) {
      var l :| l in Leaves(t) && l.Leaf? && l.id > ONES && Tail(l.key, off, len) == k;
      HeldBy(t', l, off, len);
    }
    if Holds(t', k, off, len) {
      var l :| l in Leaves(t') && l.Leaf? && l.id > ONES && Tail(l.key, off, len) == k;
      assert l in Leaves(t) || l == leaf;
    }
  }

  lemma AddedLeaves(t: Trie, t': Trie, leaf: Trie)
    requires Added(t, t', leaf)
    ensures forall l {:trigger l in Leaves(t')} {:trigger l in Leaves(t)} :: l in Leaves(t') <==> l in Leaves(t) || l == leaf
  {
    hide Leaves;
    var a, b :| Leaves(t) == a + b && Leaves(t') == a + [leaf] + b;
    forall l {:trigger l in Leaves(t')}
      ensures l in Leaves(t') <==> l in Leaves(t) || l == leaf
    {
      InMiddle(a, leaf, b, l);
    }
  }

  /** Pairs are handed out at odd addresses. */
  ghost predicate OddRoutes(t: Trie) {
    forall l {:trigger l in Leaves(t)} :: l in Leaves(t) && l.id > ONES ==> l.id % 2 == 1
  }

  lemma OddRoutesKept(t: Trie, t': Trie, leaf: Trie)
    requires Added(t, t', leaf) && leaf.id > ONES
    ensures OddRoutes(t') <==> OddRoutes(t) && leaf.id % 2 == 1
  {
    hide Added, Leaves;
    AddedLeaves(t, t', leaf);
    assert leaf in Leaves(t');
  }

  lemma InMiddle(a: seq<Trie>, x: Trie, b: seq<Trie>, l: Trie)
    ensures l in a + [x] + b <==> l in a + b || l == x
  {
    if l in a + b {
      var i :| 0 <= i < |a + b| && (a + b)[i] == l;
      assert (a + [x] + b)[if i < |a| then i else i + 1] == l;
    }
    assert (a + [x] + b)[|a|] == x;
  }

  lemma StandsMore(t: Trie, t': Trie, leaf: Trie, s: set<seq<Byte>>, off: nat, len: nat)
    requires Stands(t, s, off, len) && Added(t, t', leaf) && leaf.Leaf? && leaf.id > ONES
    ensures Stands(t', s + {Tail(leaf.key, off, len)}, off, len)
  {
    hide Holds, Added, Tail;
    forall k {:trigger Holds(t', k, off, len)}
      ensures k in s + {Tail(leaf.key, off, len)} <==> Holds(t', k, off, len)
    {
      AddedHolds(t, t', leaf, k, off, len);
    }
  }

  lemma StandsLess(t: Trie, t': Trie, leaf: Trie, s: set<seq<Byte>>, off: nat, len: nat)
    requires Stands(t, s, off, len) && Added(t', t, leaf) && leaf.Leaf? && leaf.id > ONES && !Holds(t', Tail(leaf.key, off, len), off, len)
    ensures Stands(t', s - {Tail(leaf.key, off, len)}, off, len)
  {
    hide Holds, Added, Tail;
    forall k {:trigger Holds(t', k, off, len)}
      ensures k in s - {Tail(leaf.key, off, len)} <==> Holds(t', k, off, len)
    {
      AddedHolds(t', t, leaf, k, off, len);
    }
  }

  /** No key is in the tree twice: without its leaf, it is gone. */
  lemma OnlyOnce(t: Trie, t': Trie, leaf: Trie, off: nat, len: nat)
    requires Patricia(t, 8 * off) && Sentinels(t, len) && BitsBelow(t, 8 * len) && off < len && Added(t', t, leaf) && leaf.Leaf?
    ensures !Holds(t', Tail(leaf.key, off, len), off, len)
  {
    hide Patricia, BitsBelow, Sentinels, Precedes, Ascending;
    var a, b :| Leaves(t') == a + b && Leaves(t) == a + [leaf] + b;
    LeavesAscend(t, 8 * off);
    var s := Leaves(t);
    forall l {:trigger l in Leaves(t')} | l in Leaves(t') && l.Leaf?
      ensures Tail(l.key, off, len) != Tail(leaf.key, off, len)
    {
      var i :| 0 <= i < |a + b| && (a + b)[i] == l;
      var j := if i < |a| then i else i + 1;
      assert s[j] == l && s[|a|] == leaf;
      LengthOf(t, len, j);
      LengthOf(t, len, |a|);
      LeavesDiffer(t, j, |a|, off, len);
    }
  }

  lemma LeavesDiffer(t: Trie, i: nat, j: nat, off: nat, len: nat)
    requires Patricia(t, 8 * off) && BitsBelow(t, 8 * len) && off < len
    requires i < |Leaves(t)| && j < |Leaves(t)| && i != j && Leaves(t)[i].Leaf? && Leaves(t)[j].Leaf?
    requires |Leaves(t)[i].key| == len && |Leaves(t)[j].key| == len
    ensures Tail(Leaves(t)[i].key, off, len) != Tail(Leaves(t)[j].key, off, len)
  {
    hide BitAt, Patricia, BitsBelow, Leaves;
    var a, c := Leaves(t)[if i < j then i else j], Leaves(t)[if i < j then j else i];
    LeavesPart(t, if i < j then i else j, if i < j then j else i, 8 * off);
    var b :| Before(a.key, c.key, 8 * off, b);
    BeforeDiffers(a.key, c.key, off, len, b);
  }

  lemma LeavesPart(t: Trie, i: nat, j: nat, lo: nat)
    requires Patricia(t, lo) && i < j < |Leaves(t)|
    ensures Leaves(t)[i].Leaf? && Leaves(t)[j].Leaf? && exists b :: Before(Leaves(t)[i].key, Leaves(t)[j].key, lo, b)
  {
    hide Patricia, Before;
    LeavesAscend(t, lo);
    assert Precedes(Leaves(t)[i], Leaves(t)[j], lo);
  }

  lemma BeforeDiffers(a: Key, c: Key, off: nat, len: nat, b: nat)
    requires Before(a, c, 8 * off, b) && |a| == len && |c| == len && off < len
    ensures Tail(a, off, len) != Tail(c, off, len)
  {
    hide HasBit;
    assert b / 8 < len;
    assert a[b / 8] == c[b / 8] ==> BitAt(a, b) == BitAt(c, b);
    assert a[off..len][b / 8 - off] != c[off..len][b / 8 - off];
  }

  // ---- the requests ----

  /** The answers of a table that starts empty. */
  method Run(ops: seq<Op>, off: nat, len: nat) returns (answers: seq<bool>)
    requires 0 < off < len < 256
    requires forall i :: 0 <= i < |ops| ==> WellKeyed(ops[i].key, len)
    ensures answers == Answers(ops, {}, off, len)
  {
    hide *;
    var head := new Head(off, len);
    ghost var s: set<seq<Byte>> := {};
    var pool := [];
    var next := ONES + 1;
    answers := [];
    EmptyStands(head.tree, off, len);
    EmptyPool(head.tree, next);
    var i := 0;
    while i < |ops|
      invariant 0 <= i <= |ops| && head.Valid() && head.off == off && head.len == len && fresh(head)
      invariant Stands(head.tree, s, off, len) && OddRoutes(head.tree) && Pooled(pool, next, Ids(head.tree))
      invariant Answers(ops, {}, off, len) == answers + Answers(ops[i..], s, off, len)
    {
      var ok;
      ok, pool, next := Step(head, ops[i], pool, next, s);
      AnswersStep(ops[i..], s, off, len);
      MoreAnswers(answers, [ok], Answers(ops[i..][1..], After(ops[i], s, off, len), off, len));
      assert ops[i..][1..] == ops[i + 1..];
      s := After(ops[i], s, off, len);
      answers := answers + [ok];
      i := i + 1;
    }
    NoAnswers(ops[i..], s, off, len, answers);
  }

  /** The pairs in the pool, and all beyond the last one handed out, are unused. */
  ghost predicate Pooled(pool: seq<int>, next: int, ids: set<int>) {
    && next > ONES && next % 2 == 1
    && (forall i {:trigger i in ids} :: i in ids ==> i < next)
    && (forall i {:trigger pool[i]} :: 0 <= i < |pool| ==> FreePair(pool[i], next, ids))
    && forall i, j {:trigger pool[i], pool[j]} :: 0 <= i < j < |pool| ==> pool[i] != pool[j]
  }

  predicate FreePair(x: int, next: int, ids: set<int>) {
    ONES < x < next && x % 2 == 1 && x !in ids && x + 1 !in ids
  }

  lemma EmptyPool(t: Trie, next: int)
    requires Ids(t) == {ZEROS, TOP, ONES} && next == ONES + 1
    ensures Pooled([], next, Ids(t))
  {
  }

  lemma EmptyStands(t: Trie, off: nat, len: nat)
    requires Leaves(t) == [Leaf(ZEROS, Zeros(len)), Leaf(ONES, Ones(len))]
    ensures Stands(t, {}, off, len) && OddRoutes(t)
  {
  }

  lemma AnswersStep(ops: seq<Op>, s: set<seq<Byte>>, off: nat, len: nat)
    requires ops != []
    ensures Answers(ops, s, off, len) == [Answer(ops[0], s, off, len)] + Answers(ops[1..], After(ops[0], s, off, len), off, len)
  {
  }

  lemma NoAnswers(ops: seq<Op>, s: set<seq<Byte>>, off: nat, len: nat, answers: seq<bool>)
    requires ops == []
    ensures answers + Answers(ops, s, off, len) == answers
  {
  }

  lemma MoreAnswers(a: seq<bool>, b: seq<bool>, c: seq<bool>)
    ensures a + (b + c) == (a + b) + c
  {
  }

  /** One request. */
  method Step(head: Head, op: Op, pool: seq<int>, next: int, ghost s: set<seq<Byte>>) returns (ok: bool, pool': seq<int>, next': int)
    requires head.Valid() && WellKeyed(op.key, head.len) && Stands(head.tree, s, head.off, head.len) && OddRoutes(head.tree) && Pooled(pool, next, Ids(head.tree))
    modifies head
    ensures head.Valid() && OddRoutes(head.tree) && Pooled(pool', next', Ids(head.tree))
    ensures ok == Answer(op, s, head.off, head.len) && Stands(head.tree, After(op, s, head.off, head.len), head.off, head.len)
  {
    hide *;
    ghost var t0, off, len := head.tree, head.off, head.len;
    head.ValidFacts();
    TreeParts(head.nodes, t0, off, len);
    head.KeyLength(op.key);
    pool', next' := pool, next;
    match op
    case Add(k) =>
      var node;
      node, pool', next' := Take(pool, next, Ids(t0));
      var tt := head.AddRoute(k, node);
      head.NodeIsNotNone(node);
      ok := tt == node;
      if ok {
        AbsentNot(t0, k, s, off, len);
        StandsMore(t0, head.tree, Leaf(node, k), s, off, len);
        OddRoutesKept(t0, head.tree, Leaf(node, k));
        Taken(pool, next, pool', next', node, Ids(t0));
      } else {
        PresentHolds(t0, k, s, off, len);
        pool', next' := pool, next;
      }
      AddStep(op, s, off, len);
    case Delete(k) =>
      var tt := head.Delete(k);
      ok := tt != NONE;
      if ok {
        ghost var k' :| head.len <= |k'| && SameKey(k', k, off, len) && Added(head.tree, t0, Leaf(tt, k'));
        SameTail(k', k, off, len);
        OnlyOnce(t0, head.tree, Leaf(tt, k'), off, len);
        AddedHolds(head.tree, t0, Leaf(tt, k'), Tail(k, off, len), off, len);
        StandsUnfold(t0, s, Tail(k, off, len), off, len);
        StandsLess(t0, head.tree, Leaf(tt, k'), s, off, len);
        OddRoutesKept(head.tree, t0, Leaf(tt, k'));
        Given(pool, next, Ids(t0), Ids(head.tree), tt);
        pool' := pool + [tt];
      } else {
        NothingToDelete(t0, k, s, off, len);
      }
      DeleteStep(op, s, off, len);
    case Match(k) =>
      var tt := head.Match(k);
      ok := tt != NONE;
      if ok {
        PresentAt(t0, tt, k, s, off, len);
      } else {
        AbsentNot(t0, k, s, off, len);
      }
      MatchStep(op, s, off, len);
  }

  lemma AddStep(op: Op, s: set<seq<Byte>>, off: nat, len: nat)
    requires op.Add?
    ensures var k := Tail(op.key, off, len);
      && (Answer(op, s, off, len) <==> k !in s && !Outer(k, off, len))
      && (!Outer(k, off, len) ==> After(op, s, off, len) == s + {k})
      && (Outer(k, off, len) || k in s ==> After(op, s, off, len) == s)
  {
  }

  lemma DeleteStep(op: Op, s: set<seq<Byte>>, off: nat, len: nat)
    requires op.Delete?
    ensures var k := Tail(op.key, off, len);
      && (Answer(op, s, off, len) <==> k in s) && After(op, s, off, len) == s - {k} && (k !in s ==> After(op, s, off, len) == s)
  {
  }

  lemma MatchStep(op: Op, s: set<seq<Byte>>, off: nat, len: nat)
    requires op.Match?
    ensures var k := Tail(op.key, off, len);
      (Answer(op, s, off, len) <==> k in s || Outer(k, off, len)) && After(op, s, off, len) == s
  {
  }

  lemma StandsUnfold(t: Trie, s: set<seq<Byte>>, k: seq<Byte>, off: nat, len: nat)
    requires Stands(t, s, off, len)
    ensures k in s <==> Holds(t, k, off, len)
  {
  }

  lemma SameTail(a: Key, b: Key, off: nat, len: nat)
    requires off <= len <= |a| && len <= |b|
    ensures SameKey(a, b, off, len) <==> Tail(a, off, len) == Tail(b, off, len)
  {
  }

  lemma AbsentNot(t: Trie, k: Key, s: set<seq<Byte>>, off: nat, len: nat)
    requires off <= len <= |k| && Absent(t, k, off, len) && Stands(t, s, off, len) && Sentinels(t, len)
    ensures Tail(k, off, len) !in s && !Outer(Tail(k, off, len), off, len)
  {
    assert Leaves(t)[0] in Leaves(t) && Leaves(t)[|Leaves(t)| - 1] in Leaves(t);
  }

  lemma PresentAt(t: Trie, id: int, k: Key, s: set<seq<Byte>>, off: nat, len: nat)
    requires off <= len <= |k| && HasRoute(t, id, k, off, len) && Stands(t, s, off, len) && Sentinels(t, len)
    ensures Tail(k, off, len) in s || Outer(Tail(k, off, len), off, len)
    ensures id > ONES ==> Tail(k, off, len) in s
    ensures id <= ONES ==> Outer(Tail(k, off, len), off, len)
  {
    var k' :| Leaf(id, k') in Leaves(t) && len <= |k'| && SameKey(k', k, off, len);
    var i :| 0 <= i < |Leaves(t)| && Leaves(t)[i] == Leaf(id, k');
    if id > ONES {
      HeldBy(t, Leaf(id, k'), off, len);
    } else {
      assert i == 0 || i == |Leaves(t)| - 1;
    }
  }

  lemma PresentHolds(t: Trie, k: Key, s: set<seq<Byte>>, off: nat, len: nat)
    requires off <= len <= |k| && (exists i :: HasRoute(t, i, k, off, len)) && Stands(t, s, off, len) && Sentinels(t, len)
    ensures Tail(k, off, len) in s || Outer(Tail(k, off, len), off, len)
  {
    hide *;
    var i :| HasRoute(t, i, k, off, len);
    PresentAt(t, i, k, s, off, len);
  }

  lemma NothingToDelete(t: Trie, k: Key, s: set<seq<Byte>>, off: nat, len: nat)
    requires off <= len <= |k| && Stands(t, s, off, len) && Sentinels(t, len) && Patricia(t, 8 * off) && BitsBelow(t, 8 * len) && off < len
    requires Absent(t, k, off, len) || HasRoute(t, ZEROS, k, off, len) || HasRoute(t, ONES, k, off, len)
    ensures Tail(k, off, len) !in s
  {
    hide *;
    if Absent(t, k, off, len) {
      AbsentNot(t, k, s, off, len);
    } else {
      StandsUnfold(t, s, Tail(k, off, len), off, len);
      OuterIsNoRoute(t, k, off, len);
    }
  }

  /** A route with an outer key would be a second leaf with that key. */
  lemma OuterIsNoRoute(t: Trie, k: Key, off: nat, len: nat)
    requires off <= len <= |k| && Sentinels(t, len) && Patricia(t, 8 * off) && BitsBelow(t, 8 * len) && off < len
    requires HasRoute(t, ZEROS, k, off, len) || HasRoute(t, ONES, k, off, len)
    ensures !Holds(t, Tail(k, off, len), off, len)
  {
    hide *;
    if Holds(t, Tail(k, off, len), off, len) {
      var i := HolderOf(t, Tail(k, off, len), off, len);
      var j := OuterHolder(t, k, off, len);
      LengthOf(t, len, i);
      LengthOf(t, len, j);
      LeavesDiffer(t, i, j, off, len);
      assert false;
    }
  }

  lemma HolderOf(t: Trie, k: seq<Byte>, off: nat, len: nat) returns (i: nat)
    requires Holds(t, k, off, len)
    ensures i < |Leaves(t)| && Leaves(t)[i].Leaf? && Leaves(t)[i].id > ONES && Tail(Leaves(t)[i].key, off, len) == k
  {
    hide Leaves, Tail;
    var l :| l in Leaves(t) && l.Leaf? && l.id > ONES && Tail(l.key, off, len) == k;
    i :| 0 <= i < |Leaves(t)| && Leaves(t)[i] == l;
  }

  lemma OuterHolder(t: Trie, k: Key, off: nat, len: nat) returns (j: nat)
    requires off <= len <= |k| && (HasRoute(t, ZEROS, k, off, len) || HasRoute(t, ONES, k, off, len))
    ensures j < |Leaves(t)| && Leaves(t)[j].Leaf? && Leaves(t)[j].id <= ONES && Tail(Leaves(t)[j].key, off, len) == Tail(k, off, len)
  {
    hide Leaves;
    var k' :| (Leaf(ZEROS, k') in Leaves(t) || Leaf(ONES, k') in Leaves(t)) && len <= |k'| && SameKey(k', k, off, len);
    j :| 0 <= j < |Leaves(t)| && (Leaves(t)[j] == Leaf(ZEROS, k') || Leaves(t)[j] == Leaf(ONES, k'));
    SameTail(k', k, off, len);
  }

  /** A pair from the pool, or a new one. */
  method Take(pool: seq<int>, next: int, ghost ids: set<int>) returns (node: int, pool': seq<int>, next': int)
    requires Pooled(pool, next, ids)
    ensures ONES < node && node !in ids && node + 1 !in ids
    ensures if pool == [] then pool' == [] && node == next && next' == next + 2 else pool == pool' + [node] && next' == next
    ensures node % 2 == 1
  {
    if pool == [] {
      node, pool', next' := next, [], next + 2;
    } else {
      node, pool', next' := pool[|pool| - 1], pool[..|pool| - 1], next;
    }
  }

  lemma Taken(pool: seq<int>, next: int, pool': seq<int>, next': int, node: int, ids: set<int>)
    requires Pooled(pool, next, ids)
    requires if pool == [] then pool' == [] && node == next && next' == next + 2 else pool == pool' + [node] && next' == next
    ensures Pooled(pool', next', ids + {node, node + 1})
  {
    if pool != [] {
      forall i {:trigger pool'[i]} | 0 <= i < |pool'|
        ensures FreePair(pool'[i], next', ids + {node, node + 1})
      {
        assert pool[i] == pool'[i] && pool[|pool'|] == node;
      }
      assert FreePair(pool[|pool'|], next, ids);
      forall i, j {:trigger pool'[i], pool'[j]} | 0 <= i < j < |pool'|
        ensures pool'[i] != pool'[j]
      {
        assert pool[i] == pool'[i] && pool[j] == pool'[j];
      }
    }
  }

  lemma Given(pool: seq<int>, next: int, ids: set<int>, ids': set<int>, tt: int)
    requires Pooled(pool, next, ids) && tt in ids && ids' == ids - {tt, tt + 1} && ONES < tt && tt % 2 == 1
    ensures Pooled(pool + [tt], next, ids')
  {
    var pool' := pool + [tt];
    forall i {:trigger pool'[i]} | 0 <= i < |pool'|
      ensures FreePair(pool'[i], next, ids')
    {
      assert i < |pool| ==> FreePair(pool[i], next, ids);
    }
  }
}
