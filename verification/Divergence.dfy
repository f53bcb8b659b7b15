/** A run in which every client writes with a context just read from a replica, and two replicas then
    disagree for ever: the story of ContextGap, told by the protocol. */
module Divergence {
  import opened Bands
  import opened Gossip
  import opened Cluster
  import opened Convergence
  import opened DvvSets
  import opened OrSets
  import opened ContextGap

  // ---------------------------------------------------------------- the steps

  /** A client reads the element's context at j and adds (add) or removes the element at i with it. */
  ghost predicate ClientStep(sys: Sys<OrSet>, sys': Sys<OrSet>, j: NodeID, i: NodeID, k: Key, e: Elem, add: bool) {
    && j in sys.lanes && i in sys.lanes
    && var v, w := ValueOr(OrSets.CARRIER, sys.lanes[i].state, k), ValueOr(OrSets.CARRIER, sys.lanes[j].state, k);
       && (add || e in v)
       && WriteStep(OrSets.CARRIER, sys, sys', i, Delta(k, WriteDelta(v, i, e, CausalContext(w, e), add)))
  }

  ghost predicate FreeStep(sys: Sys<OrSet>, sys': Sys<OrSet>) {
    || (exists j, i, k, e, add :: ClientStep(sys, sys', j, i, k, e, add))
    || GossipStep(OrSets.CARRIER, sys, sys')
  }

  ghost predicate IsFreeRun(run: seq<Sys<OrSet>>) {
    && |run| > 0 && Init(run[0])
    && forall n | 0 <= n < |run| - 1 :: FreeStep(run[n], run[n + 1])
  }

  lemma Extend(run: seq<Sys<OrSet>>, sys': Sys<OrSet>)
    requires IsFreeRun(run) && FreeStep(run[|run| - 1], sys')
    ensures IsFreeRun(run + [sys'])
  {
    var r := run + [sys'];
    forall n | 0 <= n < |r| - 1 ensures FreeStep(r[n], r[n + 1]) {
      if n < |run| - 1 {
        assert FreeStep(run[n], run[n + 1]);
      }
    }
  }

  // ---------------------------------------------------------------- bounded values

  /** v holds the element e of key k at most, with counters up to top. */
  ghost predicate AtMost(k: Key, e: Elem, top: VV, k': Key, v: OrSet) {
    forall f | f in v :: k' == k && f == e && Below(v[f], top)
  }

  ghost predicate Below(d: Dvv<bool>, top: VV) {
    forall r :: Counter(d, r) <= VVGet(top, r)
  }

  ghost function Upto(k: Key, e: Elem, top: VV): (Key, OrSet) -> bool {
    (k', v) => AtMost(k, e, top, k', v)
  }

  lemma SyncBelow(x: Dvv<bool>, y: Dvv<bool>, top: VV)
    requires Below(x, top) && Below(y, top)
    ensures Below(Sync(x, y), top)
  {
    forall r ensures Counter(Sync(x, y), r) <= VVGet(top, r) {
      assert Counter(x, r) <= VVGet(top, r) && Counter(y, r) <= VVGet(top, r);
    }
  }

  lemma UptoClosed(k: Key, e: Elem, top: VV)
    ensures Closed(OrSets.CARRIER, Upto(k, e, top))
  {
    forall k', x, y ensures JoinHolds(OrSets.CARRIER, Upto(k, e, top), k', x, y) {
      if AtMost(k, e, top, k', x) && AtMost(k, e, top, k', y) {
        var z := OrSets.Merge(x, y);
        forall f | f in z ensures k' == k && f == e && Below(z[f], top) {
          if f in x && f in y {
            SyncBelow(x[f], y[f], top);
          }
        }
      }
    }
  }

  // ---------------------------------------------------------------- for ever

  /** The replica i holds d for the element. */
  ghost predicate Has(sys: Sys<OrSet>, i: NodeID, k: Key, e: Elem, d: Dvv<bool>) {
    i in sys.lanes && k in sys.lanes[i].state && sys.lanes[i].state[k] == map[e := d]
  }

  /** A replica that has all counters already takes nothing over. */
  lemma {:induction false} NothingTaken(l: Lane<OrSet>, content: map<Key, OrSet>, order: seq<Key>, k: Key, e: Elem,
                                        top: VV, d: Dvv<bool>)
    requires k in l.state && l.state[k] == map[e := d] && Join(d) == top
    requires MapHolds(Upto(k, e, top), content) && forall q | q in order :: q in content
    ensures var r := MergeKeys(OrSets.CARRIER, l, content, order); k in r.state && r.state[k] == map[e := d]
  {
    if order != [] {
      var q := order[|order| - 1];
      NothingTaken(l, content, order[..|order| - 1], k, e, top, d);
      if q == k {
        assert Upto(k, e, top)(k, content[k]);
        forall f | f in content[k] ensures f in map[e := d] && DvvSets.Leq(content[k][f], d) {
          assert Below(content[k][f], top);
          forall r | r in content[k][f] ensures content[k][f][r].counter <= Counter(d, r) {
            assert Counter(content[k][f], r) <= VVGet(top, r);
          }
        }
      }
    }
  }

  lemma HasStays(sys: Sys<OrSet>, sys': Sys<OrSet>, i: NodeID, k: Key, e: Elem, top: VV, d: Dvv<bool>)
    requires GossipStep(OrSets.CARRIER, sys, sys') && Holds(Upto(k, e, top), sys)
    requires Has(sys, i, k, e, d) && Join(d) == top
    ensures Has(sys', i, k, e, d)
  {
    if a, b :| SendStep(OrSets.CARRIER, sys, sys', a, b) {
    } else if p, order :| MergeStep(OrSets.CARRIER, sys, sys', p, order) {
      if p.dst == i {
        NothingTaken(sys.lanes[i], p.payload.content, order, k, e, top, d);
      }
    } else {
      var p :| AckStep(sys, sys', p);
    }
  }

  /** Replicas that hold all counters any value anywhere has keep what they hold, along every path of
      protocol steps. */
  lemma {:induction false} HoldersStay(path: seq<Sys<OrSet>>, n: nat, i: NodeID, k: Key, e: Elem, top: VV, d: Dvv<bool>)
    requires IsPath(OrSets.CARRIER, path) && n < |path| && Holds(Upto(k, e, top), path[0])
    requires Has(path[0], i, k, e, d) && Join(d) == top
    ensures Has(path[n], i, k, e, d) && Holds(Upto(k, e, top), path[n])
  {
    if n > 0 {
      HoldersStay(path, n - 1, i, k, e, top, d);
      assert GossipStep(OrSets.CARRIER, path[n - 1], path[n]);
      HasStays(path[n - 1], path[n], i, k, e, top, d);
      UptoClosed(k, e, top);
      GossipHolds(OrSets.CARRIER, Upto(k, e, top), path[n - 1], path[n]);
    }
  }

  // ---------------------------------------------------------------- the run

  /** The store of a node that has the element only; an empty d stands for the empty store. */
  function One(k: Key, e: Elem, d: Dvv<bool>): map<Key, OrSet> {
    if d == map[] then map[] else map[k := map[e := d]]
  }

  /** A run whose last state has these stores, no acknowledgement recorded, and all counters up to top. */
  ghost predicate Scene(run: seq<Sys<OrSet>>, k: Key, e: Elem, top: VV, stores: map<NodeID, Dvv<bool>>) {
    && IsFreeRun(run)
    && var sys := run[|run| - 1];
       && sys.lanes.Keys == stores.Keys && Holds(Upto(k, e, top), sys)
       && forall i | i in stores :: sys.lanes[i].state == One(k, e, stores[i]) && sys.lanes[i].acks == map[]
  }

  lemma OneValue(k: Key, e: Elem, d: Dvv<bool>)
    ensures DvvOf(ValueOr(OrSets.CARRIER, One(k, e, d), k), e) == d
  {}

  lemma WriteOne(k: Key, e: Elem, d: Dvv<bool>, i: NodeID, vv: VV, add: bool, u: Dvv<bool>)
    requires (add || d != map[]) && u == DvvSets.Update(d, i, vv, add)
    ensures var v := ValueOr(OrSets.CARRIER, One(k, e, d), k);
            (add || e in v) && WriteDelta(v, i, e, vv, add) == map[e := u]
              && OrSets.Merge(v, map[e := u]) == map[e := u]
    ensures u != map[]
  {
    OneValue(k, e, d);
    UpdateSelf(d, i, vv, add);
    assert i in u;
    UpdateIsDelta(d, i, vv, add);
    PutOne(k, e, d, u);
  }

  lemma PutOne(k: Key, e: Elem, d: Dvv<bool>, u: Dvv<bool>)
    requires Sync(d, u) == u && Sync(u, d) == u && DvvSets.Leq(d, u)
    ensures OrSets.Merge(ValueOr(OrSets.CARRIER, One(k, e, d), k), map[e := u]) == map[e := u]
  {
    var v := ValueOr(OrSets.CARRIER, One(k, e, d), k);
    PutIsDelta(v, e, u);
    assert v[e := u] == map[e := u];
  }

  lemma ApplyOne(k: Key, e: Elem, d: Dvv<bool>, u: Dvv<bool>, w: Dvv<bool>)
    requires OrSets.Merge(ValueOr(OrSets.CARRIER, One(k, e, d), k), map[e := u]) == map[e := w] && w != map[]
    ensures Apply(OrSets.CARRIER, One(k, e, d), Delta(k, map[e := u])) == One(k, e, w)
  {}

  /** A step that changes the store of one node to d leads to the next scene. */
  lemma NextScene(run: seq<Sys<OrSet>>, sys': Sys<OrSet>, k: Key, e: Elem, top: VV, stores: map<NodeID, Dvv<bool>>,
                  i: NodeID, l: Lane<OrSet>, d: Dvv<bool>)
    requires Scene(run, k, e, top, stores) && FreeStep(run[|run| - 1], sys') && Holds(Upto(k, e, top), sys')
    requires i in stores && sys'.lanes == run[|run| - 1].lanes[i := l] && l.state == One(k, e, d) && l.acks == map[]
    ensures Scene(run + [sys'], k, e, top, stores[i := d])
  {
    Extend(run, sys');
  }

  lemma SameScene(run: seq<Sys<OrSet>>, sys': Sys<OrSet>, k: Key, e: Elem, top: VV, stores: map<NodeID, Dvv<bool>>)
    requires Scene(run, k, e, top, stores) && FreeStep(run[|run| - 1], sys') && Holds(Upto(k, e, top), sys')
    requires sys'.lanes == run[|run| - 1].lanes
    ensures Scene(run + [sys'], k, e, top, stores)
  {
    Extend(run, sys');
  }

  /** The next scene: a client reads at j and writes at i. */
  lemma Client(run: seq<Sys<OrSet>>, k: Key, e: Elem, top: VV, stores: map<NodeID, Dvv<bool>>, j: NodeID, i: NodeID,
               add: bool, u: Dvv<bool>)
    returns (run': seq<Sys<OrSet>>)
    requires Scene(run, k, e, top, stores) && j in stores && i in stores && (add || stores[i] != map[])
    requires u == DvvSets.Update(stores[i], i, Join(stores[j]), add) && Below(u, top)
    ensures run <= run' && Scene(run', k, e, top, stores[i := u])
  {
    var sys := run[|run| - 1];
    var sys' := ClientWrites(sys, k, e, top, j, i, add, stores[j], stores[i], u);
    NextScene(run, sys', k, e, top, stores, i, sys'.lanes[i], u);
    run' := run + [sys'];
  }

  lemma ClientWrites(sys: Sys<OrSet>, k: Key, e: Elem, top: VV, j: NodeID, i: NodeID, add: bool, x: Dvv<bool>,
                     d: Dvv<bool>, u: Dvv<bool>)
    returns (sys': Sys<OrSet>)
    requires i in sys.lanes && j in sys.lanes && sys.lanes[i].state == One(k, e, d)
             && sys.lanes[j].state == One(k, e, x)
    requires (add || d != map[]) && u == DvvSets.Update(d, i, Join(x), add) && Below(u, top)
             && Holds(Upto(k, e, top), sys)
    ensures FreeStep(sys, sys') && Holds(Upto(k, e, top), sys')
    ensures i in sys'.lanes && sys'.lanes == sys.lanes[i := sys'.lanes[i]]
    ensures sys'.lanes[i].state == One(k, e, u) && sys'.lanes[i].acks == sys.lanes[i].acks
  {
    OneValue(k, e, x);
    WriteOne(k, e, d, i, Join(x), add, u);
    ApplyOne(k, e, d, u, u);
    var delta := Delta(k, map[e := u]);
    sys' := sys.(lanes := sys.lanes[i := Record(OrSets.CARRIER, sys.lanes[i], delta)]);
    assert ClientStep(sys, sys', j, i, k, e, add);
    assert Upto(k, e, top)(k, delta.value);
    UptoClosed(k, e, top);
    WriteHolds(OrSets.CARRIER, Upto(k, e, top), sys, sys', i, delta);
  }

  lemma MergeOne(l: Lane<OrSet>, k: Key, e: Elem, x: Dvv<bool>, y: Dvv<bool>, z: Dvv<bool>)
    requires l.state == One(k, e, y) && x != map[] && !DvvSets.Leq(x, y) && z == Sync(y, x)
    ensures var r := MergeKeys(OrSets.CARRIER, l, One(k, e, x), [k]);
            r.state == One(k, e, z) && r.acks == l.acks
  {
    var v, w := ValueOr(OrSets.CARRIER, l.state, k), map[e := x];
    assert [k][..0] == [];
    assert !Skips(OrSets.CARRIER, l, Delta(k, w)) by {
      if y != map[] {
        assert e in w && !DvvSets.Leq(w[e], y);
      }
    }
    MergeOfOnes(k, e, x, y, z);
    ApplyOne(k, e, y, x, z);
  }

  lemma MergeOfOnes(k: Key, e: Elem, x: Dvv<bool>, y: Dvv<bool>, z: Dvv<bool>)
    requires x != map[] && z == Sync(y, x)
    ensures OrSets.Merge(ValueOr(OrSets.CARRIER, One(k, e, y), k), map[e := x]) == map[e := z] && z != map[]
  {
    var r :| r in x;
    assert r in z;
    if y == map[] {
      assert z == x;
    }
  }

  /** The next scene but one: i sends its store to j, and j merges it. */
  lemma Deliver(run: seq<Sys<OrSet>>, k: Key, e: Elem, top: VV, stores: map<NodeID, Dvv<bool>>, i: NodeID, j: NodeID,
                z: Dvv<bool>)
    returns (run': seq<Sys<OrSet>>)
    requires Scene(run, k, e, top, stores) && i in stores && j in stores && stores[i] != map[]
    requires !DvvSets.Leq(stores[i], stores[j]) && z == Sync(stores[j], stores[i])
    ensures run <= run' && Scene(run', k, e, top, stores[j := z])
  {
    var sys := run[|run| - 1];
    var mid, sys' := Exchanged(sys, k, e, top, i, j, stores[i], stores[j], z);
    SameScene(run, mid, k, e, top, stores);
    var longer := run + [mid];
    assert longer[|longer| - 1] == mid;
    NextScene(longer, sys', k, e, top, stores, j, sys'.lanes[j], z);
    run' := longer + [sys'];
  }

  lemma Exchanged(sys: Sys<OrSet>, k: Key, e: Elem, top: VV, i: NodeID, j: NodeID, x: Dvv<bool>, y: Dvv<bool>,
                  z: Dvv<bool>)
    returns (mid: Sys<OrSet>, sys': Sys<OrSet>)
    requires i in sys.lanes && j in sys.lanes && sys.lanes[i].state == One(k, e, x)
             && sys.lanes[j].state == One(k, e, y)
    requires sys.lanes[i].acks == map[] && Holds(Upto(k, e, top), sys)
    requires x != map[] && !DvvSets.Leq(x, y) && z == Sync(y, x)
    ensures FreeStep(sys, mid) && FreeStep(mid, sys') && Holds(Upto(k, e, top), mid) && Holds(Upto(k, e, top), sys')
    ensures mid.lanes == sys.lanes && j in sys'.lanes && sys'.lanes == sys.lanes[j := sys'.lanes[j]]
    ensures sys'.lanes[j].state == One(k, e, z) && sys'.lanes[j].acks == sys.lanes[j].acks
  {
    var m := Payload(0, sys.lanes[i].Seq(), One(k, e, x));
    mid := sys.(sent := sys.sent + [Packet.Update(i, j, m)]);
    assert SendStep(OrSets.CARRIER, sys, mid, i, j);
    UptoClosed(k, e, top);
    GossipHolds(OrSets.CARRIER, Upto(k, e, top), sys, mid);
    sys' := Sys(mid.lanes[j := MergeKeys(OrSets.CARRIER, mid.lanes[j], m.content, [k])],
                mid.sent + [Confirm(j, i, m.upto)]);
    assert MergeStep(OrSets.CARRIER, mid, sys', Packet.Update(i, j, m), [k]);
    GossipHolds(OrSets.CARRIER, Upto(k, e, top), mid, sys');
    MergeOne(sys.lanes[j], k, e, x, y, z);
  }

  // ---------------------------------------------------------------- the story

  /** The counters at the end: two events of a, one of b, one of c. */
  function Last(a: NodeID, b: NodeID, c: NodeID): VV {
    map[a := 2, b := 1, c := 1]
  }

  lemma Values(a: NodeID, b: NodeID, c: NodeID)
    requires Three(a, b, c)
    ensures Added(a) == map[a := Entry(1, [true])] && Added(c) == map[c := Entry(1, [true])]
    ensures Sync(Added(a), Added(c)) == map[a := Entry(1, [true]), c := Entry(1, [true])]
    ensures RemovedAtA(a, c) == map[a := Entry(2, [false, true]), c := Entry(1, [])]
    ensures RemovedAtB(a, b, c) == map[a := Entry(2, []), b := Entry(1, [false])]
    ensures FinalB(a, b, c) == map[a := Entry(2, []), b := Entry(1, [false]), c := Entry(1, [true])]
    ensures FinalA(a, b, c) == map[a := Entry(2, []), b := Entry(1, [false]), c := Entry(1, [])]
  {
    AddedIs(a);
    AddedIs(c);
    RemoveAtA(a, c);
    RemovedAtAIs(a, c);
    RemovedAtBIs(a, b, c);
    FinalsAre(a, b, c);
  }

  /** The copies that occur: the two adds, both together, the two removes, and the ends at a and b. */
  datatype Cast = Cast(x: Dvv<bool>, y: Dvv<bool>, both: Dvv<bool>, w: Dvv<bool>, u: Dvv<bool>, endA: Dvv<bool>,
                       endB: Dvv<bool>)

  ghost predicate IsCast(a: NodeID, b: NodeID, c: NodeID, q: Cast) {
    && Three(a, b, c)
    && q.x == map[a := Entry(1, [true])] && q.y == map[c := Entry(1, [true])]
    && q.both == map[a := Entry(1, [true]), c := Entry(1, [true])]
    && q.w == map[a := Entry(2, [false, true]), c := Entry(1, [])]
    && q.u == map[a := Entry(2, []), b := Entry(1, [false])]
    && q.endA == map[a := Entry(2, []), b := Entry(1, [false]), c := Entry(1, [])]
    && q.endB == map[a := Entry(2, []), b := Entry(1, [false]), c := Entry(1, [true])]
  }

  /** How the copies come about. */
  ghost predicate Plot(a: NodeID, b: NodeID, c: NodeID, q: Cast) {
    && q.x == DvvSets.Update(map[], a, Join(NOTHING), true) && q.y == DvvSets.Update(map[], c, Join(NOTHING), true)
    && q.both == Sync(q.x, q.y) && q.w == DvvSets.Update(q.both, a, Join(q.y), false)
    && q.u == DvvSets.Update(q.x, b, Join(q.w), false) && q.endB == Sync(q.u, q.y) && q.endA == Sync(q.w, q.endB)
  }

  const NOTHING: Dvv<bool> := map[]

  lemma CastIs(a: NodeID, b: NodeID, c: NodeID) returns (q: Cast)
    requires Three(a, b, c)
    ensures IsCast(a, b, c, q) && Plot(a, b, c, q) && q.endA == FinalA(a, b, c) && q.endB == FinalB(a, b, c)
  {
    Values(a, b, c);
    assert Join(NOTHING) == NONE;
    assert Sync(NOTHING, Added(a)) == Added(a);
    q := Cast(Added(a), Added(c), Sync(Added(a), Added(c)), RemovedAtA(a, c), RemovedAtB(a, b, c), FinalA(a, b, c),
              FinalB(a, b, c));
  }

  /** The counters stay within the last ones, and every delivery brings something new. */
  ghost predicate Staged(q: Cast, top: VV) {
    && Below(q.x, top) && Below(q.y, top) && Below(q.w, top) && Below(q.u, top)
    && !DvvSets.Leq(q.x, NOTHING) && !DvvSets.Leq(q.y, q.x) && !DvvSets.Leq(q.y, q.u) && !DvvSets.Leq(q.endB, q.w)
    && q.x != NOTHING && q.y != NOTHING && q.both != NOTHING && q.endB != NOTHING
    && Sync(NOTHING, q.x) == q.x
  }

  lemma CastIsStaged(a: NodeID, b: NodeID, c: NodeID, q: Cast, top: VV)
    requires IsCast(a, b, c, q) && top == Last(a, b, c)
    ensures Staged(q, top)
  {
    assert a in q.x && c in q.y && a in q.both && b in q.endB;
    assert q.x[a].counter > 0 && q.y[c].counter > 0 && q.endB[b].counter > 0;
    assert Sync(NOTHING, q.x) == q.x;
  }

  lemma CastEnds(a: NodeID, b: NodeID, c: NodeID, q: Cast, top: VV)
    requires IsCast(a, b, c, q) && top == Last(a, b, c)
    ensures Join(q.endA) == top && Join(q.endB) == top
  {
    JoinThree(a, b, c, Entry(2, []), Entry(1, [false]), Entry(1, []));
    JoinThree(a, b, c, Entry(2, []), Entry(1, [false]), Entry(1, [true]));
  }

  lemma JoinThree(a: NodeID, b: NodeID, c: NodeID, x: Entry<bool>, y: Entry<bool>, z: Entry<bool>)
    requires Three(a, b, c)
    ensures Join(map[a := x, b := y, c := z]) == map[a := x.counter, b := y.counter, c := z.counter]
  {}

  /** The empty cluster of three. */
  lemma Opening(a: NodeID, b: NodeID, c: NodeID, k: Key, e: Elem, top: VV) returns (run: seq<Sys<OrSet>>)
    ensures Scene(run, k, e, top, Stores(a, b, c, NOTHING, NOTHING, NOTHING))
  {
    run := [Sys(map[a := NewLane(), b := NewLane(), c := NewLane()], [])];
  }

  function Stores<T>(a: NodeID, b: NodeID, c: NodeID, x: T, y: T, z: T): map<NodeID, T> {
    map[a := x, b := y, c := z]
  }

  lemma SetStore<T>(a: NodeID, b: NodeID, c: NodeID, x: T, y: T, z: T, d: T)
    requires Three(a, b, c)
    ensures Stores(a, b, c, x, y, z)[a := d] == Stores(a, b, c, d, y, z)
    ensures Stores(a, b, c, x, y, z)[b := d] == Stores(a, b, c, x, d, z)
    ensures Stores(a, b, c, x, y, z)[c := d] == Stores(a, b, c, x, y, d)
  {}

  /** a and c add the element. */
  lemma Adds(run: seq<Sys<OrSet>>, a: NodeID, b: NodeID, c: NodeID, k: Key, e: Elem, top: VV, x: Dvv<bool>,
             y: Dvv<bool>)
    returns (run': seq<Sys<OrSet>>)
    requires Three(a, b, c) && Scene(run, k, e, top, Stores(a, b, c, NOTHING, NOTHING, NOTHING))
    requires x == DvvSets.Update(NOTHING, a, Join(NOTHING), true) && Below(x, top)
    requires y == DvvSets.Update(NOTHING, c, Join(NOTHING), true) && Below(y, top)
    ensures Scene(run', k, e, top, Stores(a, b, c, x, NOTHING, y))
  {
    SetStore(a, b, c, NOTHING, NOTHING, NOTHING, x);
    run' := Client(run, k, e, top, Stores(a, b, c, NOTHING, NOTHING, NOTHING), a, a, true, x);
    SetStore(a, b, c, x, NOTHING, NOTHING, y);
    run' := Client(run', k, e, top, Stores(a, b, c, x, NOTHING, NOTHING), c, c, true, y);
  }

  /** The store of a reaches b. */
  lemma FromAToB(run: seq<Sys<OrSet>>, a: NodeID, b: NodeID, c: NodeID, k: Key, e: Elem, top: VV,
                 x: Dvv<bool>, y: Dvv<bool>, z: Dvv<bool>, r: Dvv<bool>)
    returns (run': seq<Sys<OrSet>>)
    requires Three(a, b, c) && Scene(run, k, e, top, Stores(a, b, c, x, y, z))
    requires x != NOTHING && !DvvSets.Leq(x, y) && r == Sync(y, x)
    ensures Scene(run', k, e, top, Stores(a, b, c, x, r, z))
  {
    SetStore(a, b, c, x, y, z, r);
    run' := Deliver(run, k, e, top, Stores(a, b, c, x, y, z), a, b, r);
  }

  /** The store of a node, whichever its place, reaches another: the places may be exchanged. */
  lemma Exchanging<T>(a: NodeID, b: NodeID, c: NodeID, x: T, y: T, z: T)
    requires Three(a, b, c)
    ensures Stores(a, b, c, x, y, z) == Stores(c, a, b, z, x, y) == Stores(b, c, a, y, z, x)
    ensures Stores(a, b, c, x, y, z) == Stores(c, b, a, z, y, x) == Stores(b, a, c, y, x, z)
  {}

  /** A client that has read c's context removes at a. */
  lemma RemovesAtA(run: seq<Sys<OrSet>>, a: NodeID, b: NodeID, c: NodeID, k: Key, e: Elem, top: VV,
                   x: Dvv<bool>, y: Dvv<bool>, z: Dvv<bool>, w: Dvv<bool>)
    returns (run': seq<Sys<OrSet>>)
    requires Three(a, b, c) && Scene(run, k, e, top, Stores(a, b, c, x, y, z)) && x != NOTHING
    requires w == DvvSets.Update(x, a, Join(z), false) && Below(w, top)
    ensures Scene(run', k, e, top, Stores(a, b, c, w, y, z))
  {
    SetStore(a, b, c, x, y, z, w);
    run' := Client(run, k, e, top, Stores(a, b, c, x, y, z), c, a, false, w);
  }

  /** And one that has then read a's removes at b. */
  lemma Removes(run: seq<Sys<OrSet>>, a: NodeID, b: NodeID, c: NodeID, k: Key, e: Elem, top: VV,
                x: Dvv<bool>, y: Dvv<bool>, z: Dvv<bool>, w: Dvv<bool>, u: Dvv<bool>)
    returns (run': seq<Sys<OrSet>>)
    requires Three(a, b, c) && Scene(run, k, e, top, Stores(a, b, c, x, y, z)) && x != NOTHING && y != NOTHING
    requires w == DvvSets.Update(x, a, Join(z), false) && Below(w, top)
    requires u == DvvSets.Update(y, b, Join(w), false) && Below(u, top)
    ensures Scene(run', k, e, top, Stores(a, b, c, w, u, z))
  {
    run' := RemovesAtA(run, a, b, c, k, e, top, x, y, z, w);
    Exchanging(a, b, c, w, y, z);
    run' := RemovesAtA(run', b, c, a, k, e, top, y, z, w, u);
    Exchanging(a, b, c, w, u, z);
  }

  /** Both adds meet at a, and a's has reached b. */
  lemma Spreads(run: seq<Sys<OrSet>>, a: NodeID, b: NodeID, c: NodeID, k: Key, e: Elem, top: VV, q: Cast)
    returns (run': seq<Sys<OrSet>>)
    requires Three(a, b, c) && Staged(q, top) && q.both == Sync(q.x, q.y)
    requires Scene(run, k, e, top, Stores(a, b, c, q.x, NOTHING, q.y))
    ensures Scene(run', k, e, top, Stores(a, b, c, q.both, q.x, q.y))
  {
    run' := FromAToB(run, a, b, c, k, e, top, q.x, NOTHING, q.y, q.x);
    Exchanging(a, b, c, q.x, q.x, q.y);
    run' := FromAToB(run', c, a, b, k, e, top, q.y, q.x, q.x, q.both);
    Exchanging(a, b, c, q.both, q.x, q.y);
  }

  /** c's add reaches b, and b's store reaches a. */
  lemma Meets(run: seq<Sys<OrSet>>, a: NodeID, b: NodeID, c: NodeID, k: Key, e: Elem, top: VV, q: Cast)
    returns (run': seq<Sys<OrSet>>)
    requires Three(a, b, c) && Staged(q, top) && q.endB == Sync(q.u, q.y) && q.endA == Sync(q.w, q.endB)
    requires Scene(run, k, e, top, Stores(a, b, c, q.w, q.u, q.y))
    ensures Scene(run', k, e, top, Stores(a, b, c, q.endA, q.endB, q.y))
  {
    Exchanging(a, b, c, q.w, q.u, q.y);
    run' := FromAToB(run, c, b, a, k, e, top, q.y, q.u, q.w, q.endB);
    Exchanging(a, b, c, q.w, q.endB, q.y);
    run' := FromAToB(run', b, a, c, k, e, top, q.endB, q.w, q.y, q.endA);
    Exchanging(a, b, c, q.endA, q.endB, q.y);
  }

  /** The whole story. */
  lemma Tell(a: NodeID, b: NodeID, c: NodeID, k: Key, e: Elem, top: VV, q: Cast) returns (run: seq<Sys<OrSet>>)
    requires Three(a, b, c) && Plot(a, b, c, q) && Staged(q, top)
    ensures Scene(run, k, e, top, Stores(a, b, c, q.endA, q.endB, q.y))
  {
    run := Opening(a, b, c, k, e, top);
    run := Adds(run, a, b, c, k, e, top, q.x, q.y);
    run := Spreads(run, a, b, c, k, e, top, q);
    run := Removes(run, a, b, c, k, e, top, q.both, q.x, q.y, q.w, q.u);
    run := Meets(run, a, b, c, k, e, top, q);
  }

  /** The two replicas have the same version vector for the element, and only b contains it. */
  ghost predicate Disagree(sys: Sys<OrSet>, a: NodeID, b: NodeID, k: Key, e: Elem) {
    && a in sys.lanes && b in sys.lanes && k in sys.lanes[a].state && k in sys.lanes[b].state
    && var x, y := sys.lanes[a].state[k], sys.lanes[b].state[k];
       CausalContext(x, e) == CausalContext(y, e) && Contains(y, e) && !Contains(x, e)
  }

  lemma HoldersDisagree(sys: Sys<OrSet>, a: NodeID, b: NodeID, c: NodeID, k: Key, e: Elem, q: Cast)
    requires IsCast(a, b, c, q) && Has(sys, a, k, e, q.endA) && Has(sys, b, k, e, q.endB)
    ensures Disagree(sys, a, b, k, e)
  {
    SameVectorOtherSiblings(q.endA, q.endB, a, b, c, e);
  }

  /** Along every path of protocol steps. */
  ghost predicate DisagreeEver(sys: Sys<OrSet>, a: NodeID, b: NodeID, k: Key, e: Elem) {
    forall path, n | IsPath(OrSets.CARRIER, path) && path[0] == sys && 0 <= n < |path| :: Disagree(path[n], a, b, k, e)
  }

  lemma HoldersDisagreeEver(sys: Sys<OrSet>, a: NodeID, b: NodeID, c: NodeID, k: Key, e: Elem, top: VV, q: Cast)
    requires IsCast(a, b, c, q) && Join(q.endA) == top && Join(q.endB) == top && Holds(Upto(k, e, top), sys)
    requires Has(sys, a, k, e, q.endA) && Has(sys, b, k, e, q.endB)
    ensures DisagreeEver(sys, a, b, k, e)
  {
    forall path, n | IsPath(OrSets.CARRIER, path) && path[0] == sys && 0 <= n < |path|
      ensures Disagree(path[n], a, b, k, e)
    {
      HoldersStay(path, n, a, k, e, top, q.endA);
      HoldersStay(path, n, b, k, e, top, q.endB);
      HoldersDisagree(path[n], a, b, c, k, e, q);
    }
  }

  lemma SceneHolds(run: seq<Sys<OrSet>>, k: Key, e: Elem, top: VV, stores: map<NodeID, Dvv<bool>>, i: NodeID,
                   d: Dvv<bool>)
    requires Scene(run, k, e, top, stores) && i in stores && stores[i] == d && d != NOTHING
    ensures Has(run[|run| - 1], i, k, e, d) && Holds(Upto(k, e, top), run[|run| - 1])
  {}

  /** Agreement is lost for good: in a cluster of any three nodes there is a run, with all contexts just
      read from a replica, after which two replicas hold the same version vector, one contains the element
      and the other does not, and no sequence of protocol steps whatever changes that. */
  lemma AgreementIsLost(a: NodeID, b: NodeID, c: NodeID, k: Key, e: Elem) returns (run: seq<Sys<OrSet>>)
    requires Three(a, b, c)
    ensures IsFreeRun(run) && Disagree(run[|run| - 1], a, b, k, e) && DisagreeEver(run[|run| - 1], a, b, k, e)
  {
    var q := CastIs(a, b, c);
    var top := Last(a, b, c);
    CastIsStaged(a, b, c, q, top);
    CastEnds(a, b, c, q, top);
    run := Tell(a, b, c, k, e, top, q);
    Curtain(run, a, b, c, k, e, top, q);
  }

  lemma Curtain(run: seq<Sys<OrSet>>, a: NodeID, b: NodeID, c: NodeID, k: Key, e: Elem, top: VV, q: Cast)
    requires Scene(run, k, e, top, Stores(a, b, c, q.endA, q.endB, q.y))
    requires IsCast(a, b, c, q) && Join(q.endA) == top && Join(q.endB) == top
    ensures Disagree(run[|run| - 1], a, b, k, e) && DisagreeEver(run[|run| - 1], a, b, k, e)
  {
    assert b in q.endA && b in q.endB;
    SceneHolds(run, k, e, top, Stores(a, b, c, q.endA, q.endB, q.y), a, q.endA);
    SceneHolds(run, k, e, top, Stores(a, b, c, q.endA, q.endB, q.y), b, q.endB);
    HoldersDisagree(run[|run| - 1], a, b, c, k, e, q);
    HoldersDisagreeEver(run[|run| - 1], a, b, c, k, e, top, q);
  }
}
