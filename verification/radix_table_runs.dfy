/** Any run of additions, deletions and lookups of routes: the table answers as a set of routes that is
    scanned for every question. */
module RadixTableRuns {
  import opened Wrappers
  import opened RadixKeys
  import opened RadixTrie
  import opened RadixNodes
  import opened RadixShape
  import opened RadixLists
  import opened RadixListings
  import opened RadixAdds
  import opened RadixTables
  import opened RadixLookups
  import opened RadixEnlists
  import opened RadixDeletes
  import opened RadixDepartures
  import opened RadixRoutes

  datatype Route = Route(key: Key, mask: Mask)

  datatype Op = Add(route: Route) | Del(key: Key, mask: Mask) | Find(address: Key)

  datatype Answer = Added(ok: bool) | Deleted(gone: Option<Route>) | Got(found: Option<Route>)

  /** Keys are of the table's length, and a route's key has no bits beyond its mask. */
  ghost predicate Proper(op: Op, off: nat, len: nat) {
    match op
    case Add(a) => WellKeyed(a.key, len) && Fitting(a.key, a.mask, off, len)
    case Del(v, _) => WellKeyed(v, len)
    case Find(v) => WellKeyed(v, len)
  }

  // ---- the answers of a set of routes ----

  ghost predicate SameBitsAs(a: Route, v: Key, off: nat, len: nat) {
    SameBits(a.key, v, 8 * off, 8 * len)
  }

  /** Under the mask, the address is the key. */
  ghost predicate Serving(a: Route, v: Key, off: nat, len: nat) {
    SameBits(a.key, v, 8 * off, Width(a.mask, len))
  }

  ghost predicate AllOnes(v: Key, off: nat, len: nat) {
    SameBits(v, Ones(len), 8 * off, 8 * len)
  }

  /** A host route for one of the two addresses that the head keeps for itself. */
  ghost predicate OwnHost(a: Route, off: nat, len: nat) {
    a.mask.Host? && OwnAddress(a.key, off, len)
  }

  /** There is a route with that key and mask already. */
  ghost predicate Taken(held: set<Route>, a: Route, off: nat, len: nat) {
    exists x {:trigger x in held} :: x in held && SameBitsAs(x, a.key, off, len) && x.mask == a.mask
  }

  /** The route that a deletion takes: the one with the mask, or without a mask the most specific one. */
  ghost predicate Hit(held: set<Route>, x: Route, v: Key, mask: Mask, off: nat, len: nat) {
    && x in held && SameBitsAs(x, v, off, len)
    && if mask.Net? then x.mask == mask
       else !OwnAddress(v, off, len) && forall y {:trigger y in held} :: y in held && SameBitsAs(y, v, off, len) ==> Rank(y.mask, len) <= Rank(x.mask, len)
  }

  /** Of the routes, a serves v, and none that does is more specific. */
  ghost predicate MostSpecific(held: set<Route>, a: Route, v: Key, off: nat, len: nat) {
    a in held && Serving(a, v, off, len)
    && forall x {:trigger x in held} :: x in held && Serving(x, v, off, len) ==> Rank(x.mask, len) <= Rank(a.mask, len)
  }

  ghost predicate Unserved(held: set<Route>, v: Key, off: nat, len: nat) {
    forall x {:trigger x in held} :: x in held ==> !Serving(x, v, off, len)
  }

  /** Some route to a network has the address of all ones itself as its key. */
  ghost predicate OnesRouted(held: set<Route>, off: nat, len: nat) {
    exists x {:trigger x in held} :: x in held && AllOnes(x.key, off, len)
  }

  /** The set of routes after an operation. */
  ghost function After(held: set<Route>, op: Op, off: nat, len: nat): set<Route> {
    match op
    case Add(a) => if OwnHost(a, off, len) || Taken(held, a, off, len) then held else held + {a}
    case Del(v, mask) => held - set x | x in held && Hit(held, x, v, mask, off, len)
    case Find(_) => held
  }

  /** What an operation answers.  A lookup finds nothing exactly when no route serves the address, and
      for the address of all ones also when no network route has it as its key. */
  ghost predicate Answers(held: set<Route>, op: Op, answer: Answer, off: nat, len: nat) {
    match op
    case Add(a) => answer == Added(!OwnHost(a, off, len) && !Taken(held, a, off, len))
    case Del(v, mask) =>
      answer.Deleted?
      && if answer.gone.None? then
           forall x {:trigger x in held} :: x in held ==> !Hit(held, x, v, mask, off, len)
         else
           && Hit(held, answer.gone.value, v, mask, off, len)
           && forall y {:trigger y in held} :: y in held && Hit(held, y, v, mask, off, len) ==> y == answer.gone.value
    case Find(v) =>
      answer.Got?
      && (answer.found.Some? ==> MostSpecific(held, answer.found.value, v, off, len))
      && (answer.found.None? <==> Unserved(held, v, off, len) || (AllOnes(v, off, len) && !OnesRouted(held, off, len)))
  }

  /** The routes of a table. */
  ghost function Held(m: Nodes, e: Env): set<Route> {
    set r | r in e.masks && r > ONES && r in m :: Route(m[r].key, e.masks[r])
  }

  // ---- the run ----

  /** The operations are carried out one after the other, on a new table.  A deleted route's pair of nodes
      is used again. */
  method Run(ops: seq<Op>, off: nat, len: nat) returns (answers: seq<Answer>, ghost trace: seq<set<Route>>)
    requires 0 < off < len < 256
    requires forall i {:trigger ops[i]} :: 0 <= i < |ops| ==> Proper(ops[i], off, len)
    ensures |answers| == |ops| && |trace| == |ops| + 1 && trace[0] == {}
    ensures forall i {:trigger ops[i]} :: 0 <= i < |ops| ==>
      trace[i + 1] == After(trace[i], ops[i], off, len) && Answers(trace[i], ops[i], answers[i], off, len)
  {
    hide *;
    var t := new Table(off, len);
    HeldAtFirst(t.nodes, t.env);
    var next, free, n := ONES + 1, [], 0;
    FirstSpare(t.nodes, t.env);
    answers, trace := [], [{}];
    while n < |ops|
      invariant 0 <= n <= |ops| && t.Valid() && t.off == off && t.len == len && fresh(t)
      invariant |answers| == n && |trace| == n + 1 && trace[0] == {} && trace[n] == Held(t.nodes, t.env) && Spare(t.nodes, t.env, next, free)
      invariant forall i {:trigger ops[i]} :: 0 <= i < n ==>
        trace[i + 1] == After(trace[i], ops[i], off, len) && Answers(trace[i], ops[i], answers[i], off, len)
    {
      var a;
      ghost var before := Held(t.nodes, t.env);
      a, next, free := Step(t, ops[n], next, free);
      answers := answers + [a];
      trace := trace + [Held(t.nodes, t.env)];
      n := n + 1;
    }
  }

  method Step(t: Table, op: Op, next0: int, free0: seq<int>) returns (answer: Answer, next: int, free: seq<int>)
    requires t.Valid() && Proper(op, t.off, t.len) && Spare(t.nodes, t.env, next0, free0)
    modifies t
    ensures t.Valid() && Spare(t.nodes, t.env, next, free)
    ensures Held(t.nodes, t.env) == After(old(Held(t.nodes, t.env)), op, t.off, t.len)
    ensures Answers(old(Held(t.nodes, t.env)), op, answer, t.off, t.len)
  {
    hide *;
    ProperParts(op, t.off, t.len);
    match op
    case Add(a) => answer, next, free := AddStep(t, a, next0, free0);
    case Del(v, mask) =>
      answer, free := DelStep(t, v, mask, next0, free0);
      next := next0;
    case Find(v) =>
      answer := FindStep(t, v);
      next, free := next0, free0;
  }

  lemma ProperParts(op: Op, off: nat, len: nat)
    requires Proper(op, off, len)
    ensures op.Add? ==> WellKeyed(op.route.key, len) && Fitting(op.route.key, op.route.mask, off, len)
    ensures op.Del? ==> WellKeyed(op.key, len)
    ensures op.Find? ==> WellKeyed(op.address, len)
  {
    hide BitAt;
  }

  method AddStep(t: Table, a: Route, next0: int, free0: seq<int>) returns (answer: Answer, next: int, free: seq<int>)
    requires t.Valid() && WellKeyed(a.key, t.len) && Fitting(a.key, a.mask, t.off, t.len) && Spare(t.nodes, t.env, next0, free0)
    modifies t
    ensures t.Valid() && Spare(t.nodes, t.env, next, free)
    ensures Held(t.nodes, t.env) == After(old(Held(t.nodes, t.env)), Add(a), t.off, t.len)
    ensures Answers(old(Held(t.nodes, t.env)), Add(a), answer, t.off, t.len)
  {
    hide *;
    var node;
    next, free := next0, free0;
    if free == [] {
      node := next;
      next := next + 2;
    } else {
      node := free[0];
      free := free[1..];
    }
    DrawnIs(next0, free0, node, next, free);
    SpareNode(t.nodes, t.env, next0, free0, node, next, free);
    ghost var m, e, tree := t.nodes, t.env, t.tree;
    t.ValidFacts();
    var tt := t.AddRoute(a.key, a.mask, node);
    t.ValidFacts();
    if tt == NONE {
      RefusedRoute(m, e, tree, a, t.off, t.len);
      SpareBack(m, e, node, next, free);
      free := [node] + free;
    } else {
      AddedRoute(m, t.nodes, e, t.env, tree, a, node, t.off, t.len);
      SpareLess(m, t.nodes, e, t.env, node, next, free, a.key, a.mask);
    }
    answer := Added(tt != NONE);
    AnswersAdd(Held(m, e), a, tt != NONE, t.off, t.len);
  }

  method DelStep(t: Table, v: Key, mask: Mask, next: int, free0: seq<int>) returns (answer: Answer, free: seq<int>)
    requires t.Valid() && WellKeyed(v, t.len) && Spare(t.nodes, t.env, next, free0)
    modifies t
    ensures t.Valid() && Spare(t.nodes, t.env, next, free)
    ensures Held(t.nodes, t.env) == After(old(Held(t.nodes, t.env)), Del(v, mask), t.off, t.len)
    ensures Answers(old(Held(t.nodes, t.env)), Del(v, mask), answer, t.off, t.len)
  {
    hide *;
    free := free0;
    ghost var m, e, tree := t.nodes, t.env, t.tree;
    var masks := t.env.masks;
    t.ValidFacts();
    var tt, freed := t.Delete(v, mask);
    if tt == NONE {
      NothingHit(m, e, v, mask, t.off, t.len);
      answer := Deleted(Option.None);
      return;
    }
    TargetParts(m, e, tt, v, mask, t.off, t.len);
    HandedParts(freed, m, tt);
    DeletedRoute(m, t.nodes, e, t.env, tree, v, mask, tt, t.off, t.len);
    SparePair(m, t.nodes, e, t.env, next, free0, tt);
    free := [tt] + free;
    answer := Deleted(Some(Route(freed[tt].key, masks[tt])));
  }

  method FindStep(t: Table, v: Key) returns (answer: Answer)
    requires t.Valid() && WellKeyed(v, t.len)
    ensures Answers(Held(t.nodes, t.env), Find(v), answer, t.off, t.len)
    ensures After(Held(t.nodes, t.env), Find(v), t.off, t.len) == Held(t.nodes, t.env)
  {
    hide *;
    t.ValidFacts();
    var r := t.Match(v);
    OwnIds(r);
    AllOnesIs(v, t.off, t.len);
    OnlyOwnRoutes(t.nodes, t.env, t.tree, t.off, t.len);
    if r > ONES {
      BestFound(t.nodes, t.env, t.tree, r, v, t.off, t.len);
      answer := Got(Some(Route(t.nodes[r].key, t.env.masks[r])));
    } else {
      if r != ONES {
        NoneFound(t.nodes, t.env, t.tree, v, t.off, t.len);
      }
      answer := Got(Option.None);
    }
    AnswersFind(Held(t.nodes, t.env), v, answer, t.off, t.len);
  }

  // ---- which pairs are free ----

  /** Pairs have odd addresses; all below next that are not in the table are free. */
  ghost predicate Spare(m: Nodes, e: Env, next: int, free: seq<int>) {
    && next > ONES && next % 2 == 1 && (forall i {:trigger i in m} :: i in m ==> i < next)
    && (forall r {:trigger r in e.masks} :: r in e.masks && r > ONES ==> r % 2 == 1)
    && (forall p {:trigger p in free} :: p in free ==> ONES < p < next && p % 2 == 1 && p !in m && p + 1 !in m)
    && forall i, j {:trigger free[i], free[j]} :: 0 <= i < j < |free| ==> free[i] != free[j]
  }

  lemma FirstSpare(m: Nodes, e: Env)
    requires m.Keys == {ZEROS, TOP, ONES} && e.masks == map[ZEROS := Host, ONES := Host]
    ensures Spare(m, e, ONES + 1, [])
  {
    forall i {:trigger i in m} | i in m
      ensures i < ONES + 1
    {
      assert i in m.Keys;
    }
  }

  /** Node is a free pair, taken off the list or new. */
  predicate Drawn(next0: int, free0: seq<int>, node: int, next: int, free: seq<int>) {
    if free0 == [] then node == next0 && next == next0 + 2 && free == [] else node == free0[0] && next == next0 && free == free0[1..]
  }

  lemma DrawnIs(next0: int, free0: seq<int>, node: int, next: int, free: seq<int>)
    requires if free0 == [] then node == next0 && next == next0 + 2 && free == [] else node == free0[0] && next == next0 && free == free0[1..]
    ensures Drawn(next0, free0, node, next, free)
  {
  }

  lemma SpareNode(m: Nodes, e: Env, next0: int, free0: seq<int>, node: int, next: int, free: seq<int>)
    requires Spare(m, e, next0, free0) && Drawn(next0, free0, node, next, free)
    ensures ONES < node && node !in m && node + 1 !in m && node != NONE
    ensures Spare(m, e, next, free) && node < next && node % 2 == 1 && node !in free
  {
    if free0 != [] {
      assert node in free0;
      forall p {:trigger p in free} | p in free
        ensures p in free0 && p != node
      {
        var i :| 0 <= i < |free| && free[i] == p;
        assert free0[i + 1] == p;
      }
    }
  }

  lemma SpareBack(m: Nodes, e: Env, node: int, next: int, free: seq<int>)
    requires Spare(m, e, next, free) && ONES < node < next && node % 2 == 1 && node !in free && node !in m && node + 1 !in m
    ensures Spare(m, e, next, [node] + free)
  {
  }

  lemma SpareLess(m: Nodes, m': Nodes, e: Env, e': Env, node: int, next: int, free: seq<int>, v: Key, mask: Mask)
    requires Spare(m, e, next, free) && ONES < node < next && node % 2 == 1 && node !in free
    requires m'.Keys <= m.Keys + {node, node + 1} && Extended(m, m', e, e', v, mask, node)
    ensures Spare(m', e', next, free)
  {
    hide Grown;
    forall i {:trigger i in m'} | i in m'
      ensures i < next
    {
      assert i in m'.Keys;
      assert next % 2 == 1;
    }
    forall p {:trigger p in free} | p in free
      ensures ONES < p < next && p % 2 == 1 && p !in m' && p + 1 !in m'
    {
      assert p !in m.Keys && p + 1 !in m.Keys;
      assert p !in m'.Keys && p + 1 !in m'.Keys;
    }
  }

  lemma SparePair(m: Nodes, m': Nodes, e: Env, e': Env, next: int, free: seq<int>, tt: int)
    requires Spare(m, e, next, free) && Lessened(m, m', e, e', tt)
    ensures Spare(m', e', next, [tt] + free)
  {
    forall i {:trigger i in m'} | i in m'
      ensures i in m && i != tt && i != tt + 1
    {
      assert i in m'.Keys;
    }
    assert tt !in m'.Keys && tt + 1 !in m'.Keys;
    forall i | 0 <= i < |free|
      ensures free[i] != tt
    {
      assert free[i] in free;
    }
  }

  // ---- the set of routes ----

  lemma HeldHas(m: Nodes, e: Env, r: int)
    requires r in e.masks && r > ONES && r in m
    ensures Route(m[r].key, e.masks[r]) in Held(m, e)
  {
  }

  lemma HeldBy(m: Nodes, e: Env, x: Route) returns (r: int)
    requires x in Held(m, e)
    ensures r in e.masks && r > ONES && r in m && x == Route(m[r].key, e.masks[r]) && IsRoute(e, r)
  {
    r :| r in e.masks && r > ONES && r in m && x == Route(m[r].key, e.masks[r]);
  }

  lemma HeldAtFirst(m: Nodes, e: Env)
    requires e.masks == map[ZEROS := Host, ONES := Host]
    ensures Held(m, e) == {}
  {
    forall x | x in Held(m, e)
      ensures false
    {
      var r := HeldBy(m, e, x);
    }
  }

  lemma AnswersAdd(held: set<Route>, a: Route, ok: bool, off: nat, len: nat)
    requires ok <==> !OwnHost(a, off, len) && !Taken(held, a, off, len)
    ensures Answers(held, Add(a), Added(ok), off, len)
    ensures After(held, Add(a), off, len) == if ok then held + {a} else held
  {
    hide OwnHost, Taken;
  }

  lemma AnswersFind(held: set<Route>, v: Key, answer: Answer, off: nat, len: nat)
    requires answer.Got? && (answer.found.Some? ==> MostSpecific(held, answer.found.value, v, off, len))
    requires answer.found.None? <==> Unserved(held, v, off, len) || (AllOnes(v, off, len) && !OnesRouted(held, off, len))
    ensures Answers(held, Find(v), answer, off, len) && After(held, Find(v), off, len) == held
  {
    hide MostSpecific, Unserved, AllOnes, OnesRouted;
  }

  lemma SameBitsAsIs(a: Route, v: Key, off: nat, len: nat)
    ensures SameBitsAs(a, v, off, len) <==> SameBits(a.key, v, 8 * off, 8 * len)
  {
    hide SameBits;
  }

  lemma TakenBy(held: set<Route>, a: Route, x: Route, off: nat, len: nat)
    requires x in held && SameBitsAs(x, a.key, off, len) && x.mask == a.mask
    ensures Taken(held, a, off, len)
  {
    hide SameBitsAs;
  }

  /** What is refused is there already, or the head's own. */
  lemma RefusedRoute(m: Nodes, e: Env, t: Trie, a: Route, off: nat, len: nat)
    requires Routing(m, e, t, off, len) && exists r :: SameRoute(m, e, r, a.key, a.mask, off, len)
    ensures OwnHost(a, off, len) || Taken(Held(m, e), a, off, len)
  {
    hide *;
    RoutingParts(m, e, t, off, len);
    var r :| SameRoute(m, e, r, a.key, a.mask, off, len);
    SameRouteFacts(m, e, t, r, a.key, a.mask, off, len);
    if r > ONES {
      HeldHas(m, e, r);
      SameBitsAsIs(Route(m[r].key, e.masks[r]), a.key, off, len);
      TakenBy(Held(m, e), a, Route(m[r].key, e.masks[r]), off, len);
    } else {
      OwnIdsOnly(m, e, t, r, off, len);
      RoutingHost(m, e, t, r, off, len);
      SameBitsFlip(m[r].key, a.key, 8 * off, 8 * len);
      IsOwnHost(a, m[r].key, off, len);
    }
  }

  lemma IsOwnHost(a: Route, k: Key, off: nat, len: nat)
    requires a.mask.Host? && (k == Zeros(len) || k == Ones(len)) && SameBits(a.key, k, 8 * off, 8 * len)
    ensures OwnHost(a, off, len)
  {
    hide SameBits;
  }

  lemma AddedRoute(m: Nodes, m': Nodes, e: Env, e': Env, t: Trie, a: Route, node: int, off: nat, len: nat)
    requires Routing(m, e, t, off, len) && Extended(m, m', e, e', a.key, a.mask, node) && ONES < node && node !in m
    requires forall r :: !SameRoute(m, e, r, a.key, a.mask, off, len)
    ensures !OwnHost(a, off, len) && !Taken(Held(m, e), a, off, len) && Held(m', e') == Held(m, e) + {a}
  {
    hide *;
    RoutingFacts(m, e, t, off, len);
    NotOwn(m, e, a, off, len);
    NotTaken(m, e, a, off, len);
    MasksAreNodes(m, e, t, off, len);
    HeldMore(m, m', e, e', a, node);
  }

  lemma MasksAreNodes(m: Nodes, e: Env, t: Trie, off: nat, len: nat)
    requires Routing(m, e, t, off, len)
    ensures forall r {:trigger r in e.masks} :: r in e.masks ==> r in m
  {
    hide *;
    forall r {:trigger r in e.masks} | r in e.masks
      ensures r in m
    {
      MasksInNodes(m, e, t, r, off, len);
    }
  }

  lemma NotOwn(m: Nodes, e: Env, a: Route, off: nat, len: nat)
    requires forall r :: !SameRoute(m, e, r, a.key, a.mask, off, len)
    requires OwnLeaf(m, e, ZEROS, Zeros(len)) && OwnLeaf(m, e, ONES, Ones(len))
    ensures !OwnHost(a, off, len)
  {
    hide BitAt;
    assert !SameRoute(m, e, ZEROS, a.key, a.mask, off, len) && !SameRoute(m, e, ONES, a.key, a.mask, off, len);
  }

  lemma NotTaken(m: Nodes, e: Env, a: Route, off: nat, len: nat)
    requires forall r :: !SameRoute(m, e, r, a.key, a.mask, off, len)
    ensures !Taken(Held(m, e), a, off, len)
  {
    hide SameBits;
    forall x {:trigger x in Held(m, e)} | x in Held(m, e)
      ensures !(SameBitsAs(x, a.key, off, len) && x.mask == a.mask)
    {
      var r := HeldBy(m, e, x);
      assert !SameRoute(m, e, r, a.key, a.mask, off, len);
    }
  }

  lemma HeldMore(m: Nodes, m': Nodes, e: Env, e': Env, a: Route, node: int)
    requires Extended(m, m', e, e', a.key, a.mask, node) && ONES < node && forall r {:trigger r in e.masks} :: r in e.masks ==> r in m
    ensures Held(m', e') == Held(m, e) + {a}
  {
    forall x
      ensures x in Held(m', e') <==> x in Held(m, e) + {a}
    {
      if x in Held(m', e') {
        var r := HeldBy(m', e', x);
        if r != node {
          assert r in e.masks;
          HeldHas(m, e, r);
        }
      }
      if x in Held(m, e) {
        var r := HeldBy(m, e, x);
        assert r in e.masks;
        HeldHas(m', e', r);
      }
      HeldHas(m', e', node);
    }
  }

  lemma HandedParts(freed: Nodes, m: Nodes, tt: int)
    requires Handed(freed, m, tt)
    ensures tt in freed && tt in m && freed[tt].key == m[tt].key
  {
    assert tt in freed.Keys;
  }

  lemma TargetParts(m: Nodes, e: Env, r: int, v: Key, mask: Mask, off: nat, len: nat)
    requires Target(m, e, r, v, mask, off, len)
    ensures IsRoute(e, r) && r in e.masks && r > ONES && r in m && SameBits(m[r].key, v, 8 * off, 8 * len) && (mask.Net? ==> e.masks[r] == mask)
  {
    hide SameBits;
  }

  lemma NothingHit(m: Nodes, e: Env, v: Key, mask: Mask, off: nat, len: nat)
    requires NoTarget(m, e, v, mask, off, len)
    ensures Answers(Held(m, e), Del(v, mask), Deleted(Option.None), off, len) && After(Held(m, e), Del(v, mask), off, len) == Held(m, e)
  {
    hide Held, Hit;
    forall x {:trigger x in Held(m, e)} | x in Held(m, e)
      ensures !Hit(Held(m, e), x, v, mask, off, len)
    {
      var r := HeldBy(m, e, x);
      NotHit(m, e, r, v, mask, off, len);
    }
  }

  lemma NotHit(m: Nodes, e: Env, r: int, v: Key, mask: Mask, off: nat, len: nat)
    requires NoTarget(m, e, v, mask, off, len) && IsRoute(e, r) && r in m
    ensures !Hit(Held(m, e), Route(m[r].key, e.masks[r]), v, mask, off, len)
  {
    hide SameBits, OwnAddress, Held;
  }

  /** Two routes with the same address and mask are one. */
  lemma OneOfAKind(m: Nodes, e: Env, t: Trie, r: int, r': int, v: Key, off: nat, len: nat)
    requires Routing(m, e, t, off, len) && r in e.masks && r' in e.masks && SameAddress(m, r, v, off, len) && SameAddress(m, r', v, off, len)
    requires e.masks[r] == e.masks[r']
    ensures r == r'
  {
    hide *;
    AddressIs(m, r, v, off, len);
    AddressIs(m, r', v, off, len);
    RoutingFacts(m, e, t, off, len);
    ShapeParts(m, t, off, len);
    RoutingHost(m, e, t, r, off, len);
    RootPlace(t);
    var c, f := LeafOf(m, e, e.masks.Keys, Hole, t, -1, r, off, len);
    FoundLeaf(m, e, t, c, f, f.key, off, len);
    AtLeafFacts(m, e, t, c, f, off, len);
    ChainFacts(m, e, t, c, f, off, len);
    InChain(e, f, r);
    MemberSame(m, e, r, f.key, off, len);
    SameBitsFlip(m[r].key, v, 8 * off, 8 * len);
    SameBitsTransitive(v, m[r].key, f.key, 8 * off, 8 * len);
    AddressInChain(m, e, t, c, f, v, r', off, len);
    ChainedParts(m, e, e.chains[f.id], f.id, f.key, off, len);
    TwoRanks(e, e.chains[f.id], r, r', len);
  }

  /** The deleted route is the only one that the deletion may take. */
  lemma DeletedRoute(m: Nodes, m': Nodes, e: Env, e': Env, t: Trie, v: Key, mask: Mask, tt: int, off: nat, len: nat)
    requires Routing(m, e, t, off, len) && Target(m, e, tt, v, mask, off, len) && !NoTarget(m, e, v, mask, off, len) && Lessened(m, m', e, e', tt)
    ensures tt in m && tt in e.masks
    ensures Answers(Held(m, e), Del(v, mask), Deleted(Some(Route(m[tt].key, e.masks[tt]))), off, len)
    ensures Held(m', e') == After(Held(m, e), Del(v, mask), off, len)
  {
    hide *;
    TargetParts(m, e, tt, v, mask, off, len);
    var x, held := Route(m[tt].key, e.masks[tt]), Held(m, e);
    HeldHas(m, e, tt);
    TargetIsHit(m, e, t, tt, v, mask, off, len);
    forall y {:trigger y in held} | y in held && Hit(held, y, v, mask, off, len)
      ensures y == x
    {
      var r := HeldBy(m, e, y);
      HitIsTarget(m, e, t, tt, r, v, mask, off, len);
    }
    OnlyOneHit(held, x, v, mask, off, len);
    HeldLess(m, m', e, e', t, tt, off, len);
  }

  lemma OnlyOneHit(held: set<Route>, x: Route, v: Key, mask: Mask, off: nat, len: nat)
    requires Hit(held, x, v, mask, off, len) && x in held && forall y {:trigger y in held} :: y in held && Hit(held, y, v, mask, off, len) ==> y == x
    ensures Answers(held, Del(v, mask), Deleted(Some(x)), off, len) && After(held, Del(v, mask), off, len) == held - {x}
  {
    hide Hit;
  }

  lemma TargetIsHit(m: Nodes, e: Env, t: Trie, tt: int, v: Key, mask: Mask, off: nat, len: nat)
    requires Routing(m, e, t, off, len) && Target(m, e, tt, v, mask, off, len) && !NoTarget(m, e, v, mask, off, len)
    ensures tt in m && tt in e.masks && Hit(Held(m, e), Route(m[tt].key, e.masks[tt]), v, mask, off, len)
  {
    hide SameBits, OwnAddress, Held, Routing, Rank;
    HeldHas(m, e, tt);
    forall y {:trigger y in Held(m, e)} | y in Held(m, e) && SameBitsAs(y, v, off, len)
      ensures mask.Host? ==> Rank(y.mask, len) <= Rank(e.masks[tt], len)
    {
      var r := HeldBy(m, e, y);
      assert IsRoute(e, r) && SameAddress(m, r, v, off, len);
    }
  }

  lemma HitIsTarget(m: Nodes, e: Env, t: Trie, tt: int, r: int, v: Key, mask: Mask, off: nat, len: nat)
    requires Routing(m, e, t, off, len) && Target(m, e, tt, v, mask, off, len) && IsRoute(e, r) && r in m
    requires Hit(Held(m, e), Route(m[r].key, e.masks[r]), v, mask, off, len)
    ensures r == tt
  {
    hide *;
    TargetParts(m, e, tt, v, mask, off, len);
    RouteMasked(e, r);
    HitParts(m, e, tt, r, v, mask, off, len);
    AddressIs(m, tt, v, off, len);
    AddressIs(m, r, v, off, len);
    if mask.Host? {
      IndexBound(m, e, t, r, off, len);
      IndexBound(m, e, t, tt, off, len);
      SameRankSameMask(e.masks[r], e.masks[tt], len);
    }
    OneOfAKind(m, e, t, r, tt, v, off, len);
  }

  lemma HitParts(m: Nodes, e: Env, tt: int, r: int, v: Key, mask: Mask, off: nat, len: nat)
    requires Target(m, e, tt, v, mask, off, len) && IsRoute(e, r) && r in m && Hit(Held(m, e), Route(m[r].key, e.masks[r]), v, mask, off, len)
    ensures SameBits(m[r].key, v, 8 * off, 8 * len) && (mask.Net? ==> e.masks[r] == mask)
    ensures mask.Host? ==> Rank(e.masks[r], len) == Rank(e.masks[tt], len)
  {
    hide SameBits, OwnAddress, Rank, Held;
    HeldHas(m, e, tt);
    assert Route(m[tt].key, e.masks[tt]) in Held(m, e) && SameBitsAs(Route(m[tt].key, e.masks[tt]), v, off, len);
    assert SameAddress(m, r, v, off, len);
  }

  lemma IndexBound(m: Nodes, e: Env, t: Trie, r: int, off: nat, len: nat)
    requires Routing(m, e, t, off, len) && r in e.masks
    ensures e.masks[r].Net? ==> e.masks[r].index <= 8 * len
  {
    hide *;
    RoutingFacts(m, e, t, off, len);
    RoutingHost(m, e, t, r, off, len);
    var k := RouteHasKey(m, e, e.masks.Keys, t, -1, r, off, len);
    MemberMask(m, e, r, k, off, len);
  }

  lemma SameRankSameMask(a: Mask, b: Mask, len: nat)
    requires Rank(a, len) == Rank(b, len) && (a.Net? ==> a.index <= 8 * len) && (b.Net? ==> b.index <= 8 * len)
    ensures a == b
  {
  }

  lemma HeldLess(m: Nodes, m': Nodes, e: Env, e': Env, t: Trie, tt: int, off: nat, len: nat)
    requires Routing(m, e, t, off, len) && Lessened(m, m', e, e', tt)
    ensures tt in m && tt in e.masks && Held(m', e') == Held(m, e) - {Route(m[tt].key, e.masks[tt])}
  {
    hide *;
    LessenedParts(m, m', e, e', tt);
    MasksAreNodes(m, e, t, off, len);
    forall x
      ensures x in Held(m', e') <==> x in Held(m, e) - {Route(m[tt].key, e.masks[tt])}
    {
      if x in Held(m', e') {
        var r := HeldBy(m', e', x);
        HeldHas(m, e, r);
        if x == Route(m[tt].key, e.masks[tt]) {
          SelfAddress(m, r, tt, off, len);
          OneOfAKind(m, e, t, r, tt, m[tt].key, off, len);
        }
      }
      if x in Held(m, e) && x != Route(m[tt].key, e.masks[tt]) {
        var r := HeldBy(m, e, x);
        HeldHas(m', e', r);
      }
    }
  }

  lemma SelfAddress(m: Nodes, r: int, tt: int, off: nat, len: nat)
    requires r in m && tt in m && m[r].key == m[tt].key
    ensures SameAddress(m, r, m[tt].key, off, len) && SameAddress(m, tt, m[tt].key, off, len)
  {
    hide BitAt;
  }

  lemma LessenedParts(m: Nodes, m': Nodes, e: Env, e': Env, tt: int)
    requires Lessened(m, m', e, e', tt)
    ensures tt in m && tt in e.masks && tt > ONES
    ensures forall r {:trigger r in e'.masks} :: r in e'.masks <==> r in e.masks && r != tt
    ensures forall r {:trigger r in e'.masks} :: r in e'.masks && r in m ==> e'.masks[r] == e.masks[r] && r in m' && m'[r].key == m[r].key
  {
  }

  // ---- the answers ----

  lemma AllOnesIs(v: Key, off: nat, len: nat)
    ensures AllOnes(v, off, len) <==> SameBits(v, Ones(len), 8 * off, 8 * len)
  {
  }

  /** A route serves an address exactly when its node covers it. */
  lemma HeldCovers(m: Nodes, e: Env, r: int, v: Key, off: nat, len: nat)
    requires r in e.masks && r in m
    ensures Covers(m, e, r, v, off, len) <==> Serving(Route(m[r].key, e.masks[r]), v, off, len)
    ensures RankOf(e, r, len) == Rank(e.masks[r], len)
  {
    hide SameBits;
  }

  lemma BestFound(m: Nodes, e: Env, t: Trie, r: int, v: Key, off: nat, len: nat)
    requires Routing(m, e, t, off, len) && Best(m, e, r, v, off, len)
    ensures r in m && r in e.masks && MostSpecific(Held(m, e), Route(m[r].key, e.masks[r]), v, off, len)
    ensures !Unserved(Held(m, e), v, off, len)
  {
    hide *;
    BestParts(m, e, r, v, off, len);
    MasksInNodes(m, e, t, r, off, len);
    RouteMasked(e, r);
    HeldCovers(m, e, r, v, off, len);
    HeldHas(m, e, r);
    var a, held := Route(m[r].key, e.masks[r]), Held(m, e);
    forall x {:trigger x in held} | x in held && Serving(x, v, off, len)
      ensures Rank(x.mask, len) <= Rank(a.mask, len)
    {
      var n := HeldBy(m, e, x);
      HeldCovers(m, e, n, v, off, len);
      BoundedAt(m, e, v, RankOf(e, r, len), n, off, len);
    }
    MostSpecificFrom(held, a, v, off, len);
  }

  lemma MostSpecificFrom(held: set<Route>, a: Route, v: Key, off: nat, len: nat)
    requires a in held && Serving(a, v, off, len)
    requires forall x {:trigger x in held} :: x in held && Serving(x, v, off, len) ==> Rank(x.mask, len) <= Rank(a.mask, len)
    ensures MostSpecific(held, a, v, off, len) && !Unserved(held, v, off, len)
  {
    hide Serving, Rank;
  }

  lemma BestParts(m: Nodes, e: Env, r: int, v: Key, off: nat, len: nat)
    requires Best(m, e, r, v, off, len)
    ensures IsRoute(e, r) && Covers(m, e, r, v, off, len) && Bounded(m, e, v, RankOf(e, r, len), off, len)
  {
    hide Covers, RankOf;
  }

  lemma NoneFound(m: Nodes, e: Env, t: Trie, v: Key, off: nat, len: nat)
    requires Routing(m, e, t, off, len) && Bounded(m, e, v, -1, off, len)
    ensures Unserved(Held(m, e), v, off, len)
  {
    hide *;
    forall x {:trigger x in Held(m, e)} | x in Held(m, e)
      ensures !Serving(x, v, off, len)
    {
      var n := HeldBy(m, e, x);
      HeldCovers(m, e, n, v, off, len);
      RanksArePositive(e, n, len);
      if Serving(x, v, off, len) {
        BoundedAt(m, e, v, -1, n, off, len);
      }
    }
    UnservedFrom(Held(m, e), v, off, len);
  }

  lemma RanksArePositive(e: Env, r: int, len: nat)
    requires r in e.masks
    ensures RankOf(e, r, len) >= 0
  {
  }

  lemma UnservedFrom(held: set<Route>, v: Key, off: nat, len: nat)
    requires forall x {:trigger x in held} :: x in held ==> !Serving(x, v, off, len)
    ensures Unserved(held, v, off, len)
  {
    hide Serving;
  }

  /** Whether the chain of the leaf of all ones has a route in it. */
  lemma OnlyOwnRoutes(m: Nodes, e: Env, t: Trie, off: nat, len: nat)
    requires Routing(m, e, t, off, len)
    ensures OnlyOwn(e) <==> !OnesRouted(Held(m, e), off, len)
  {
    hide *;
    RoutingFacts(m, e, t, off, len);
    ShapeParts(m, t, off, len);
    RoutingParts(m, e, t, off, len);
    OwnRoute(m, e, t, off, len);
    RootPlace(t);
    var c, f := LeafOf(m, e, e.masks.Keys, Hole, t, -1, ONES, off, len);
    FoundLeaf(m, e, t, c, f, f.key, off, len);
    ChainFacts(m, e, t, c, f, off, len);
    AtLeafFacts(m, e, t, c, f, off, len);
    InChain(e, f, ONES);
    HostIsFirst(m, e, e.chains[f.id], f, ONES, off, len);
    OwnLeafKey(m, e, t, c, f, off, len);
    OnlyOwnChain(e, f.id);
    var ch := e.chains[ONES];
    if |ch| > 1 {
      SecondIsRoute(m, e, ch, f, off, len);
      SecondHeld(m, e, ch, f, off, len);
    }
    if OnesRouted(Held(m, e), off, len) {
      var x := OnesRoute(Held(m, e), off, len);
      var r := HeldBy(m, e, x);
      AllOnesIs(x.key, off, len);
      RoutingHost(m, e, t, r, off, len);
      RouteInside(m, e, e.masks.Keys, c, f, f.key, r, 8 * len, off, len);
      InChain(e, f, r);
      OtherInChain(ch, r);
    }
  }

  lemma SecondHeld(m: Nodes, e: Env, ch: seq<int>, f: Trie, off: nat, len: nat)
    requires f.Leaf? && Chained(m, e, ch, f.id, f.key, off, len) && |ch| > 1 && ch[1] > ONES && f.key == Ones(len)
    ensures OnesRouted(Held(m, e), off, len)
  {
    hide BitAt, Fitting, SameBits, Held;
    assert ch[1] in ch;
    HeldHas(m, e, ch[1]);
    var x := Route(m[ch[1]].key, e.masks[ch[1]]);
    assert x in Held(m, e) && AllOnes(x.key, off, len);
  }

  lemma OnesRoute(held: set<Route>, off: nat, len: nat) returns (x: Route)
    requires OnesRouted(held, off, len)
    ensures x in held && AllOnes(x.key, off, len)
  {
    hide AllOnes;
    x :| x in held && AllOnes(x.key, off, len);
  }

  lemma OtherInChain(ch: seq<int>, r: int)
    requires r in ch && r > ONES
    ensures |ch| > 1 || ch != [ONES]
  {
  }

  // ---- the head's own leaves ----

  /** No other leaf below the routes has an entry. */
  lemma OwnIdsOnly(m: Nodes, e: Env, t: Trie, r: int, off: nat, len: nat)
    requires Routing(m, e, t, off, len) && r in e.masks && r <= ONES
    ensures r == ZEROS || r == ONES
    ensures r in m && (m[r].key == Zeros(len) || m[r].key == Ones(len))
  {
    hide *;
    RoutingFacts(m, e, t, off, len);
    ShapeParts(m, t, off, len);
    RoutingParts(m, e, t, off, len);
    RoutingHost(m, e, t, r, off, len);
    RootPlace(t);
    var c, f := LeafOf(m, e, e.masks.Keys, Hole, t, -1, r, off, len);
    KeptLeaf(m, e, e.masks.Keys, f, UpBit(c), off, len);
    InChain(e, f, r);
    HostIsFirst(m, e, e.chains[f.id], f, r, off, len);
    OwnLeaves(m, t, c, f, off, len);
    OwnKeys(m, e, r, f, len);
  }

  lemma RoutingHost(m: Nodes, e: Env, t: Trie, r: int, off: nat, len: nat)
    requires Routing(m, e, t, off, len) && r in e.masks
    ensures Has(e, t, r) && (r <= ONES ==> e.masks[r].Host?)
  {
    hide Shape, Kept, Has;
  }

  lemma OwnKeys(m: Nodes, e: Env, r: int, f: Trie, len: nat)
    requires OwnLeaf(m, e, ZEROS, Zeros(len)) && OwnLeaf(m, e, ONES, Ones(len)) && f.id == r
    requires f == Leaf(ZEROS, Zeros(len)) || f == Leaf(ONES, Ones(len))
    ensures r == ZEROS || r == ONES
    ensures r in m && (m[r].key == Zeros(len) || m[r].key == Ones(len))
  {
  }
}
