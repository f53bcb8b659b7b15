/** Counters over whole runs of the cluster: conservation of every accepted operation, and agreement
    once there is nothing left to send. */
module CounterRuns {
  import opened Bands
  import opened Gossip
  import opened Cluster
  import opened Convergence
  import opened Settling
  import opened Counters

  /** An accepted IncrementCounter (up) or DecrementCounter. */
  datatype Op = Op(node: NodeID, key: Key, up: bool, n: nat)

  datatype CounterSys = CounterSys(sys: Sys<PN>, ops: seq<Op>)

  /** What node r's accepted operations on key k add up to. */
  ghost function Total(ops: seq<Op>, k: Key, up: bool, r: NodeID): nat {
    if ops == [] then 0 else
      var o := ops[|ops| - 1];
      Total(ops[..|ops| - 1], k, up, r) + if o.key == k && o.up == up && o.node == r then o.n else 0
  }

  /** What all accepted operations on key k add up to. */
  ghost function GrandTotal(ops: seq<Op>, k: Key, up: bool): nat {
    if ops == [] then 0 else
      var o := ops[|ops| - 1];
      GrandTotal(ops[..|ops| - 1], k, up) + if o.key == k && o.up == up then o.n else 0
  }

  function Slot(v: PN, up: bool, r: NodeID): nat {
    Get(if up then v.inc else v.dec, r)
  }

  ghost predicate Start(s: CounterSys) {
    Init(s.sys) && s.ops == []
  }

  function OpDelta(l: Lane<PN>, o: Op): Delta<PN> {
    var v := ValueOr(CARRIER, l.state, o.key);
    Delta(o.key, if o.up then Increment(v, o.node, o.n) else Decrement(v, o.node, o.n))
  }

  /** A client operation; as the source does, overflow of a 64-bit slot is assumed away. */
  ghost predicate OpStep(s: CounterSys, s': CounterSys, o: Op) {
    && o.node in s.sys.lanes
    && Total(s.ops, o.key, o.up, o.node) + o.n < TWO64
    && s'.ops == s.ops + [o]
    && WriteStep(CARRIER, s.sys, s'.sys, o.node, OpDelta(s.sys.lanes[o.node], o))
  }

  ghost predicate Next(s: CounterSys, s': CounterSys) {
    || (exists o :: OpStep(s, s', o))
    || (GossipStep(CARRIER, s.sys, s'.sys) && s'.ops == s.ops)
  }

  ghost predicate IsRun(run: seq<CounterSys>) {
    && |run| > 0 && Start(run[0])
    && forall n | 0 <= n < |run| - 1 :: Next(run[n], run[n + 1])
  }

  // ---------------------------------------------------------------- invariant

  /** No slot of any value anywhere exceeds what its node's operations add up to. */
  ghost predicate Within(ops: seq<Op>, k: Key, v: PN) {
    forall up, r :: SlotWithin(ops, k, v, up, r)
  }

  ghost predicate SlotWithin(ops: seq<Op>, k: Key, v: PN, up: bool, r: NodeID) {
    Slot(v, up, r) <= Total(ops, k, up, r)
  }

  ghost function Bound(ops: seq<Op>): (Key, PN) -> bool {
    (k, v) => Within(ops, k, v)
  }

  /** A node's own slot is exactly what its operations add up to. */
  ghost predicate OwnExact(s: CounterSys) {
    forall i, k, up | i in s.sys.lanes :: OwnSlot(s.ops, s.sys.lanes[i], i, k, up)
  }

  ghost predicate OwnSlot(ops: seq<Op>, l: Lane<PN>, i: NodeID, k: Key, up: bool) {
    Total(ops, k, up, i) == Slot(ValueOr(CARRIER, l.state, k), up, i)
  }

  /** Only members of the cluster perform operations, and a key with an operation exists at its node. */
  ghost predicate OpsKnown(s: CounterSys) {
    forall n | 0 <= n < |s.ops| ::
      s.ops[n].node in s.sys.lanes && s.ops[n].key in s.sys.lanes[s.ops[n].node].state
  }

  ghost predicate Inv(s: CounterSys) {
    && Safe(CARRIER, s.sys) && Holds(Bound(s.ops), s.sys)
    && OwnExact(s) && OpsKnown(s)
  }

  lemma SlotOfMerge(a: PN, b: PN, up: bool, r: NodeID)
    ensures Slot(Merge(a, b), up, r) == Max(Slot(a, up, r), Slot(b, up, r))
  {}

  lemma BoundClosed(ops: seq<Op>)
    ensures Closed(CARRIER, Bound(ops)) && SkipSound(CARRIER, Bound(ops))
  {
    var P := Bound(ops);
    forall k, x, y ensures JoinHolds(CARRIER, P, k, x, y) {
      if P(k, x) && P(k, y) {
        forall up, r ensures SlotWithin(ops, k, Merge(x, y), up, r) {
          SlotOfMerge(x, y, up, r);
          assert SlotWithin(ops, k, x, up, r) && SlotWithin(ops, k, y, up, r);
        }
      }
    }
    forall k, x, m ensures SkipLosesNothing(CARRIER, P, k, x, m) {
      LeqIsOrder(m, x);
    }
  }

  lemma TotalAppend(ops: seq<Op>, o: Op, k: Key, up: bool, r: NodeID)
    ensures Total(ops + [o], k, up, r)
              == Total(ops, k, up, r) + if o.key == k && o.up == up && o.node == r then o.n else 0
  {
    assert (ops + [o])[..|ops|] == ops;
  }

  lemma BoundGrows(sys: Sys<PN>, ops: seq<Op>, o: Op)
    requires Holds(Bound(ops), sys)
    ensures Holds(Bound(ops + [o]), sys)
  {
    forall k, v | Bound(ops)(k, v) ensures Bound(ops + [o])(k, v) {
      forall up, r ensures SlotWithin(ops + [o], k, v, up, r) {
        assert SlotWithin(ops, k, v, up, r);
        TotalAppend(ops, o, k, up, r);
      }
    }
  }

  lemma DeltaWithin(s: CounterSys, o: Op)
    requires OwnExact(s) && o.node in s.sys.lanes && Total(s.ops, o.key, o.up, o.node) + o.n < TWO64
    ensures Within(s.ops + [o], o.key, OpDelta(s.sys.lanes[o.node], o).value)
  {
    var d := OpDelta(s.sys.lanes[o.node], o);
    assert OwnSlot(s.ops, s.sys.lanes[o.node], o.node, o.key, o.up);
    forall up, r ensures SlotWithin(s.ops + [o], o.key, d.value, up, r) {
      TotalAppend(s.ops, o, o.key, up, r);
    }
  }

  lemma OpKeepsValues(s: CounterSys, s': CounterSys, o: Op)
    requires Inv(s) && OpStep(s, s', o)
    ensures Holds(Bound(s'.ops), s'.sys)
  {
    BoundGrows(s.sys, s.ops, o);
    BoundClosed(s'.ops);
    DeltaWithin(s, o);
    WriteHolds(CARRIER, Bound(s'.ops), s.sys, s'.sys, o.node, OpDelta(s.sys.lanes[o.node], o));
  }

  /** Merging the delta of an operation adds it to the node's own slot and to no other. */
  lemma OpSlot(l: Lane<PN>, o: Op, up: bool, r: NodeID)
    requires Slot(ValueOr(CARRIER, l.state, o.key), o.up, o.node) + o.n < TWO64
    ensures var v := ValueOr(CARRIER, l.state, o.key);
            Slot(Merge(v, OpDelta(l, o).value), up, r) == Slot(v, up, r) + if o.up == up && o.node == r then o.n else 0
  {
    SlotOfMerge(ValueOr(CARRIER, l.state, o.key), OpDelta(l, o).value, up, r);
  }

  lemma OpKeepsOwn(s: CounterSys, s': CounterSys, o: Op)
    requires OwnExact(s) && OpStep(s, s', o)
    ensures OwnExact(s')
  {
    var l := s.sys.lanes[o.node];
    assert OwnSlot(s.ops, l, o.node, o.key, o.up);
    forall i, k, up | i in s'.sys.lanes ensures OwnSlot(s'.ops, s'.sys.lanes[i], i, k, up) {
      assert OwnSlot(s.ops, s.sys.lanes[i], i, k, up);
      if i == o.node {
        OpMovesOwn(s.ops, l, o, k, up);
      } else {
        TotalAppend(s.ops, o, k, up, i);
      }
    }
  }

  lemma OpMovesOwn(ops: seq<Op>, l: Lane<PN>, o: Op, k: Key, up: bool)
    requires OwnSlot(ops, l, o.node, k, up) && Slot(ValueOr(CARRIER, l.state, o.key), o.up, o.node) + o.n < TWO64
    ensures OwnSlot(ops + [o], Record(CARRIER, l, OpDelta(l, o)), o.node, k, up)
  {
    TotalAppend(ops, o, k, up, o.node);
    if k == o.key {
      OpSlot(l, o, up, o.node);
    }
  }

  lemma OpKeepsInv(s: CounterSys, s': CounterSys, o: Op)
    requires Inv(s) && OpStep(s, s', o)
    ensures Inv(s')
  {
    CounterLaws();
    WriteSafe(CARRIER, s.sys, s'.sys, o.node, OpDelta(s.sys.lanes[o.node], o));
    OpKeepsValues(s, s', o);
    OpKeepsOwn(s, s', o);
  }

  lemma SlotGrows(m: map<Key, PN>, m': map<Key, PN>, k: Key, up: bool, r: NodeID)
    requires Dominates(CARRIER, m', m)
    ensures Slot(ValueOr(CARRIER, m, k), up, r) <= Slot(ValueOr(CARRIER, m', k), up, r)
  {
    if k in m {
      LeqIsOrder(m[k], m'[k]);
    }
  }

  /** A gossip step only grows a node's view, and never past the bound: own slots do not move. */
  lemma OwnStays(s: CounterSys, l': Lane<PN>, i: NodeID, k: Key, up: bool)
    requires OwnExact(s) && i in s.sys.lanes
    requires Dominates(CARRIER, l'.state, s.sys.lanes[i].state) && LaneHolds(Bound(s.ops), l')
    ensures OwnSlot(s.ops, l', i, k, up)
  {
    assert OwnSlot(s.ops, s.sys.lanes[i], i, k, up);
    SlotGrows(s.sys.lanes[i].state, l'.state, k, up, i);
    if k in l'.state {
      assert Bound(s.ops)(k, l'.state[k]);
      assert SlotWithin(s.ops, k, l'.state[k], up, i);
    }
  }

  lemma GossipKeepsInv(s: CounterSys, s': CounterSys)
    requires Inv(s) && GossipStep(CARRIER, s.sys, s'.sys) && s'.ops == s.ops
    ensures Inv(s')
  {
    CounterLaws();
    BoundClosed(s.ops);
    GossipSafe(CARRIER, Bound(s.ops), s.sys, s'.sys);
    GossipGrows(CARRIER, Bound(s.ops), s.sys, s'.sys);
    forall i, k, up | i in s'.sys.lanes ensures OwnSlot(s'.ops, s'.sys.lanes[i], i, k, up) {
      OwnStays(s, s'.sys.lanes[i], i, k, up);
    }
  }

  lemma NextKeepsInv(s: CounterSys, s': CounterSys)
    requires Inv(s) && Next(s, s')
    ensures Inv(s')
  {
    if o :| OpStep(s, s', o) {
      OpKeepsInv(s, s', o);
    } else {
      GossipKeepsInv(s, s');
    }
  }

  /** Conservation over every run: at every point each node's own slots are exactly what its accepted
      operations add up to, and no store, buffer or packet claims more for any node. */
  lemma {:induction false} RunConserves(run: seq<CounterSys>, n: nat)
    requires IsRun(run) && n < |run|
    ensures Inv(run[n])
  {
    if n == 0 {
    } else {
      RunConserves(run, n - 1);
      NextKeepsInv(run[n - 1], run[n]);
    }
  }

  lemma {:induction false} SumIsGrandTotal(m: Slots, ops: seq<Op>, k: Key, up: bool)
    requires forall r :: Get(m, r) == Total(ops, k, up, r)
    ensures Sum(m) == GrandTotal(ops, k, up)
    decreases |ops|
  {
    if ops == [] {
      forall r | r in m ensures m[r] == 0 {
        assert Get(m, r) == Total(ops, k, up, r);
      }
      SumZero(m);
    } else {
      var o, rest := ops[|ops| - 1], ops[..|ops| - 1];
      if o.key == k && o.up == up {
        assert Get(m, o.node) == Total(ops, k, up, o.node);
        var m' := m[o.node := Get(m, o.node) - o.n];
        forall r ensures Get(m', r) == Total(rest, k, up, r) {
          assert Get(m, r) == Total(ops, k, up, r);
        }
        SumIsGrandTotal(m', rest, k, up);
        SumSet(m, o.node, Get(m, o.node) - o.n);
      } else {
        forall r ensures Get(m, r) == Total(rest, k, up, r) {
          assert Get(m, r) == Total(ops, k, up, r);
        }
        SumIsGrandTotal(m, rest, k, up);
      }
    }
  }

  lemma {:induction false} TotalOfStranger(ops: seq<Op>, k: Key, up: bool, r: NodeID)
    requires forall n | 0 <= n < |ops| :: ops[n].node != r
    ensures Total(ops, k, up, r) == 0
  {
    if ops != [] {
      TotalOfStranger(ops[..|ops| - 1], k, up, r);
    }
  }

  /** Node i dominates every node of the cluster. */
  ghost predicate KnowsAll(sys: Sys<PN>, i: NodeID) {
    i in sys.lanes && forall r | r in sys.lanes :: Dominates(CARRIER, sys.lanes[i].state, sys.lanes[r].state)
  }

  lemma SlotIsTotal(s: CounterSys, i: NodeID, k: Key, up: bool, r: NodeID)
    requires Inv(s) && KnowsAll(s.sys, i) && k in s.sys.lanes[i].state
    ensures Slot(s.sys.lanes[i].state[k], up, r) == Total(s.ops, k, up, r)
  {
    var m := s.sys.lanes[i].state;
    assert Bound(s.ops)(k, m[k]) by { assert LaneHolds(Bound(s.ops), s.sys.lanes[i]); }
    assert SlotWithin(s.ops, k, m[k], up, r);
    if r in s.sys.lanes {
      assert OwnSlot(s.ops, s.sys.lanes[r], r, k, up);
      SlotGrows(s.sys.lanes[r].state, m, k, up, r);
    } else {
      TotalOfStranger(s.ops, k, up, r);
    }
  }

  /** A store that has every counter ever written, each with exactly the increments and the decrements
      accepted anywhere. */
  ghost predicate Exact(ops: seq<Op>, m: map<Key, PN>) {
    && (forall n | 0 <= n < |ops| :: ops[n].key in m)
    && forall k | k in m :: Sum(m[k].inc) == GrandTotal(ops, k, true) && Sum(m[k].dec) == GrandTotal(ops, k, false)
  }

  /** A replica that dominates all others reads the totals. */
  lemma KnowingAllIsExact(s: CounterSys, i: NodeID)
    requires Inv(s) && KnowsAll(s.sys, i)
    ensures Exact(s.ops, s.sys.lanes[i].state)
  {
    var m := s.sys.lanes[i].state;
    forall n | 0 <= n < |s.ops| ensures s.ops[n].key in m {
      assert Dominates(CARRIER, m, s.sys.lanes[s.ops[n].node].state);
    }
    forall k | k in m
      ensures Sum(m[k].inc) == GrandTotal(s.ops, k, true) && Sum(m[k].dec) == GrandTotal(s.ops, k, false)
    {
      forall r ensures Get(m[k].inc, r) == Total(s.ops, k, true, r) && Get(m[k].dec, r) == Total(s.ops, k, false, r) {
        SlotIsTotal(s, i, k, true, r);
        SlotIsTotal(s, i, k, false, r);
      }
      SumIsGrandTotal(m[k].inc, s.ops, k, true);
      SumIsGrandTotal(m[k].dec, s.ops, k, false);
    }
  }

  lemma ExactAtRest(s: CounterSys, i: NodeID)
    requires Inv(s) && Quiescent(CARRIER, s.sys) && i in s.sys.lanes
    ensures KnowsAll(s.sys, i) && Exact(s.ops, s.sys.lanes[i].state)
  {
    CounterLaws();
    forall r | r in s.sys.lanes ensures Dominates(CARRIER, s.sys.lanes[i].state, s.sys.lanes[r].state) {
      QuiescentDominates(CARRIER, s.sys, r, i);
    }
    KnowingAllIsExact(s, i);
  }

  /** Agreement: once nothing is left to send, every replica has every key that was ever written,
      and reads the total of all increments minus the total of all decrements, exactly when that
      difference fits an int64. */
  lemma QuiescentValue(run: seq<CounterSys>, i: NodeID, k: Key)
    requires IsRun(run)
    requires var s := run[|run| - 1]; Quiescent(CARRIER, s.sys) && i in s.sys.lanes
    ensures var s := run[|run| - 1];
            (exists n :: 0 <= n < |s.ops| && s.ops[n].key == k) ==> k in s.sys.lanes[i].state
    ensures var s := run[|run| - 1];
            k in s.sys.lanes[i].state ==>
              var v, net := s.sys.lanes[i].state[k], GrandTotal(s.ops, k, true) - GrandTotal(s.ops, k, false);
              Reading(Sum(v.inc), Sum(v.dec)) == net <==> -TWO63 <= net < TWO63
  {
    var s := run[|run| - 1];
    RunConserves(run, |run| - 1);
    ExactAtRest(s, i);
    if k in s.sys.lanes[i].state {
      ReadingExact(Sum(s.sys.lanes[i].state[k].inc), Sum(s.sys.lanes[i].state[k].dec));
    }
  }

  lemma SkipIsComplete()
    ensures SkipComplete(CARRIER)
  {
    forall x, m ensures SkipCompleteAt(CARRIER, x, m) {
      LeqIsOrder(m, x);
    }
  }

  /** From every reachable state protocol steps alone lead to one in which nothing is left to send. */
  lemma ComesToRest(s: CounterSys, hub: NodeID, others: seq<NodeID>) returns (path: seq<Sys<PN>>)
    requires Inv(s) && hub !in others && forall j :: j in s.sys.lanes <==> j == hub || j in others
    ensures IsPath(CARRIER, path) && path[0] == s.sys && Quiescent(CARRIER, path[|path| - 1])
  {
    CounterLaws();
    BoundClosed(s.ops);
    SkipIsComplete();
    var sys';
    path, sys' := Settling.ComesToRest(CARRIER, Bound(s.ops), s.sys, hub, others);
  }
}
