/** OR-Sets over whole runs of the cluster: every copy of an element is determined by its version
    vector, the skip test loses nothing, membership is observed-remove, and the stores agree once
    there is nothing left to send. */
module SetRuns {
  import opened Bands
  import opened Gossip
  import opened Cluster
  import opened Convergence
  import opened Settling
  import opened DvvSets
  import opened OrSets
  import opened EventLog
  import opened Contexts

  /** An element of the set stored under a key. */
  datatype Slot = Slot(key: Key, elem: Elem)

  /** A causal context a client has read for an element. */
  datatype Read = Read(slot: Slot, vv: VV)

  datatype SetSys = SetSys(sys: Sys<OrSet>, logs: map<Slot, Log>, read: set<Read>)

  function LogOf(logs: map<Slot, Log>, k: Key, e: Elem): Log {
    if Slot(k, e) in logs then logs[Slot(k, e)] else map[]
  }

  ghost predicate Start(s: SetSys) {
    Init(s.sys) && s.logs == map[] && s.read == {}
  }

  /** GetSet on node i, as far as it concerns one element: a client learns the element's context. */
  ghost predicate ReadStep(s: SetSys, s': SetSys, i: NodeID, k: Key, e: Elem) {
    && i in s.sys.lanes && k in s.sys.lanes[i].state
    && s' == s.(read := s.read + {Read(Slot(k, e), CausalContext(s.sys.lanes[i].state[k], e))})
  }

  /** The contexts a write may carry: any, empty, stale or made up, that claims nothing new about the nodes
      its coordinator has entries for; or one read before, at any node and any time, that names no other
      nodes. */
  ghost predicate Allowed(s: SetSys, d: Dvv<bool>, i: NodeID, k: Key, e: Elem, vv: VV) {
    ContextKnown(d, i, vv) || (Read(Slot(k, e), vv) in s.read && NothingDropped(d, i, vv))
  }

  /** AddSet (add) or RemoveSet on node i. */
  ghost predicate SetStep(s: SetSys, s': SetSys, i: NodeID, k: Key, e: Elem, vv: VV, add: bool) {
    && i in s.sys.lanes
    && var set_ := ValueOr(OrSets.CARRIER, s.sys.lanes[i].state, k);
       if !add && e !in set_ then s' == s else
         && Allowed(s, DvvOf(set_, e), i, k, e, vv)
         && WriteStep(OrSets.CARRIER, s.sys, s'.sys, i, Delta(k, WriteDelta(set_, i, e, vv, add)))
         && s'.logs == s.logs[Slot(k, e) := Written(LogOf(s.logs, k, e), DvvOf(set_, e), i, vv, add)]
         && s'.read == s.read
  }

  ghost predicate Next(s: SetSys, s': SetSys) {
    || (exists i, k, e, vv, add :: SetStep(s, s', i, k, e, vv, add))
    || (exists i, k, e :: ReadStep(s, s', i, k, e))
    || (GossipStep(OrSets.CARRIER, s.sys, s'.sys) && s' == s.(sys := s'.sys))
  }

  ghost predicate IsRun(run: seq<SetSys>) {
    && |run| > 0 && Start(run[0])
    && forall n | 0 <= n < |run| - 1 :: Next(run[n], run[n + 1])
  }

  // ---------------------------------------------------------------- invariant

  /** Every element of the set tells the truth about the element's log. */
  ghost predicate GoodSet(logs: map<Slot, Log>, k: Key, v: OrSet) {
    forall e | e in v :: Good(LogOf(logs, k, e), v[e])
  }

  ghost function Truthful(logs: map<Slot, Log>): (Key, OrSet) -> bool {
    (k, v) => GoodSet(logs, k, v)
  }

  /** A node knows all events it coordinated itself. */
  ghost predicate KnowsOwn(logs: map<Slot, Log>, l: Lane<OrSet>, i: NodeID, k: Key, e: Elem) {
    |Events(LogOf(logs, k, e), i)| == Counter(DvvOf(ValueOr(OrSets.CARRIER, l.state, k), e), i)
  }

  ghost predicate Coordinated(s: SetSys, k: Key, e: Elem, r: NodeID) {
    Events(LogOf(s.logs, k, e), r) != [] ==> r in s.sys.lanes
  }

  /** What clients have read are contexts of truthful copies, and no event took up more than asked. */
  ghost predicate Honest(s: SetSys) {
    && (forall q | q in s.read :: Readable(LogOf(s.logs, q.slot.key, q.slot.elem), q.vv))
    && (forall k, e :: Modest(LogOf(s.logs, k, e)))
  }

  ghost predicate Inv(s: SetSys) {
    && Safe(OrSets.CARRIER, s.sys) && Holds(Truthful(s.logs), s.sys)
    && (forall i, k, e | i in s.sys.lanes :: KnowsOwn(s.logs, s.sys.lanes[i], i, k, e))
    && (forall k, e, r :: Coordinated(s, k, e, r))
    && Honest(s)
  }

  lemma EmptyIsGood(log: Log)
    ensures Good(log, map[])
  {}

  lemma ElemGood(logs: map<Slot, Log>, k: Key, v: OrSet, e: Elem)
    requires GoodSet(logs, k, v)
    ensures Good(LogOf(logs, k, e), DvvOf(v, e))
  {
    EmptyIsGood(LogOf(logs, k, e));
  }

  lemma MergeIsGood(logs: map<Slot, Log>, k: Key, x: OrSet, y: OrSet)
    requires GoodSet(logs, k, x) && GoodSet(logs, k, y)
    ensures GoodSet(logs, k, OrSets.Merge(x, y))
  {
    forall e | e in x && e in y ensures Good(LogOf(logs, k, e), Sync(x[e], y[e])) {
      SyncIsGood(LogOf(logs, k, e), x[e], y[e]);
    }
  }

  /** The skip test of Store.Merge compares counters only, and still loses nothing. */
  lemma MergeWithSmaller(logs: map<Slot, Log>, k: Key, x: OrSet, m: OrSet)
    requires GoodSet(logs, k, x) && GoodSet(logs, k, m) && OrSets.Leq(m, x)
    ensures OrSets.Merge(x, m) == x
  {
    forall e | e in m ensures e in x && Sync(x[e], m[e]) == x[e] {
      SyncWithSmaller(LogOf(logs, k, e), m[e], x[e]);
    }
    assert OrSets.Merge(x, m) == x;
  }

  lemma TruthfulClosed(logs: map<Slot, Log>)
    ensures Closed(OrSets.CARRIER, Truthful(logs)) && SkipSound(OrSets.CARRIER, Truthful(logs))
  {
    var P := Truthful(logs);
    forall k, x, y ensures JoinHolds(OrSets.CARRIER, P, k, x, y) {
      if P(k, x) && P(k, y) {
        MergeIsGood(logs, k, x, y);
      }
    }
    forall k, x, m ensures SkipLosesNothing(OrSets.CARRIER, P, k, x, m) {
      if P(k, x) && P(k, m) && OrSets.Leq(m, x) {
        MergeWithSmaller(logs, k, x, m);
      }
    }
  }

  lemma LogsGrow(sys: Sys<OrSet>, logs: map<Slot, Log>, t: Slot, r: NodeID, ev: Ev)
    requires Holds(Truthful(logs), sys)
    ensures Holds(Truthful(logs[t := Append(LogOf(logs, t.key, t.elem), r, ev)]), sys)
  {
    var logs' := logs[t := Append(LogOf(logs, t.key, t.elem), r, ev)];
    forall k, v | Truthful(logs)(k, v) ensures Truthful(logs')(k, v) {
      forall e | e in v ensures Good(LogOf(logs', k, e), v[e]) {
        AppendKeepsGood(LogOf(logs, k, e), r, ev, v[e]);
      }
    }
  }

  lemma AllowedIsCovered(s: SetSys, d: Dvv<bool>, i: NodeID, k: Key, e: Elem, vv: VV)
    requires Honest(s) && Allowed(s, d, i, k, e, vv)
    requires Good(LogOf(s.logs, k, e), d) && |Events(LogOf(s.logs, k, e), i)| == Counter(d, i)
    ensures ClaimsCovered(LogOf(s.logs, k, e), d, i, vv)
  {
    if ContextKnown(d, i, vv) {
      KnownIsCovered(LogOf(s.logs, k, e), d, i, vv);
    } else {
      assert Readable(LogOf(s.logs, k, e), vv) by { assert Read(Slot(k, e), vv) in s.read; }
      AcceptableIsCovered(LogOf(s.logs, k, e), d, i, vv);
    }
  }

  /** The delta of a write tells the truth about the log with the write in it. */
  lemma WriteIsGood(s: SetSys, v: OrSet, i: NodeID, k: Key, e: Elem, vv: VV, add: bool)
    requires Honest(s) && GoodSet(s.logs, k, v) && (add || e in v) && Allowed(s, DvvOf(v, e), i, k, e, vv)
    requires |Events(LogOf(s.logs, k, e), i)| == Counter(DvvOf(v, e), i)
    ensures GoodSet(s.logs[Slot(k, e) := Written(LogOf(s.logs, k, e), DvvOf(v, e), i, vv, add)], k,
                    WriteDelta(v, i, e, vv, add))
  {
    ElemGood(s.logs, k, v, e);
    AllowedIsCovered(s, DvvOf(v, e), i, k, e, vv);
    UpdateIsGood(LogOf(s.logs, k, e), DvvOf(v, e), i, vv, add);
  }

  lemma SetKeepsTruth(s: SetSys, s': SetSys, i: NodeID, k: Key, e: Elem, vv: VV, add: bool)
    requires Inv(s) && SetStep(s, s', i, k, e, vv, add) && s' != s
    ensures Holds(Truthful(s'.logs), s'.sys)
  {
    var l := s.sys.lanes[i];
    var v := ValueOr(OrSets.CARRIER, l.state, k);
    LogsGrow(s.sys, s.logs, Slot(k, e), i, Ev(vv, Honoured(DvvOf(v, e), i, vv), add));
    var d := Delta(k, WriteDelta(v, i, e, vv, add));
    assert GoodSet(s'.logs, k, d.value) by {
      assert GoodSet(s.logs, k, v) by {
        assert LaneHolds(Truthful(s.logs), l);
        assert Truthful(s.logs)(k, v);
      }
      assert KnowsOwn(s.logs, l, i, k, e);
      WriteIsGood(s, v, i, k, e, vv, add);
    }
    TruthfulClosed(s'.logs);
    WriteHolds(OrSets.CARRIER, Truthful(s'.logs), s.sys, s'.sys, i, d);
  }

  lemma SetKeepsHonest(s: SetSys, s': SetSys, i: NodeID, k: Key, e: Elem, vv: VV, add: bool)
    requires Honest(s) && SetStep(s, s', i, k, e, vv, add) && s' != s
    ensures Honest(s')
  {
    var d := DvvOf(ValueOr(OrSets.CARRIER, s.sys.lanes[i].state, k), e);
    forall q | q in s'.read ensures Readable(LogOf(s'.logs, q.slot.key, q.slot.elem), q.vv) {
      var log := LogOf(s.logs, q.slot.key, q.slot.elem);
      assert Readable(log, q.vv);
      var x :| Good(log, x) && Join(x) == q.vv;
      AppendKeepsGood(log, i, Ev(vv, Honoured(d, i, vv), add), x);
    }
    forall k', e' ensures Modest(LogOf(s'.logs, k', e')) {
      assert Modest(LogOf(s.logs, k', e'));
      WrittenIsModest(LogOf(s.logs, k, e), d, i, vv, add);
    }
  }

  /** The coordinator's own counter for the element rises by one; nothing else at the node moves. */
  lemma WriteCounts(l: Lane<OrSet>, i: NodeID, k: Key, e: Elem, vv: VV, add: bool, k': Key, e': Elem)
    requires add || e in ValueOr(OrSets.CARRIER, l.state, k)
    ensures var v := ValueOr(OrSets.CARRIER, l.state, k);
            var l' := Record(OrSets.CARRIER, l, Delta(k, WriteDelta(v, i, e, vv, add)));
            Counter(DvvOf(ValueOr(OrSets.CARRIER, l'.state, k'), e'), i)
              == Counter(DvvOf(ValueOr(OrSets.CARRIER, l.state, k'), e'), i) + if k' == k && e' == e then 1 else 0
  {
    var v := ValueOr(OrSets.CARRIER, l.state, k);
    WriteIsDelta(v, i, e, vv, add);
    UpdateSelf(DvvOf(v, e), i, vv, add);
  }

  lemma AppendCounts(logs: map<Slot, Log>, t: Slot, i: NodeID, ev: Ev, k: Key, e: Elem, j: NodeID)
    ensures var logs' := logs[t := Append(LogOf(logs, t.key, t.elem), i, ev)];
            |Events(LogOf(logs', k, e), j)|
              == |Events(LogOf(logs, k, e), j)| + if Slot(k, e) == t && j == i then 1 else 0
  {}

  lemma SetKeepsOwn(s: SetSys, s': SetSys, i: NodeID, k: Key, e: Elem, vv: VV, add: bool, j: NodeID, k': Key, e': Elem)
    requires SetStep(s, s', i, k, e, vv, add) && s' != s && j in s.sys.lanes && j in s'.sys.lanes
    requires KnowsOwn(s.logs, s.sys.lanes[j], j, k', e')
    ensures KnowsOwn(s'.logs, s'.sys.lanes[j], j, k', e')
  {
    var d := DvvOf(ValueOr(OrSets.CARRIER, s.sys.lanes[i].state, k), e);
    AppendCounts(s.logs, Slot(k, e), i, Ev(vv, Honoured(d, i, vv), add), k', e', j);
    if j == i {
      WriteCounts(s.sys.lanes[i], i, k, e, vv, add, k', e');
    }
  }

  lemma SetKeepsOwners(s: SetSys, s': SetSys, i: NodeID, k: Key, e: Elem, vv: VV, add: bool)
    requires Inv(s) && SetStep(s, s', i, k, e, vv, add) && s' != s
    ensures forall j, k', e' | j in s'.sys.lanes :: KnowsOwn(s'.logs, s'.sys.lanes[j], j, k', e')
  {
    forall j, k', e' | j in s'.sys.lanes ensures KnowsOwn(s'.logs, s'.sys.lanes[j], j, k', e') {
      assert KnowsOwn(s.logs, s.sys.lanes[j], j, k', e');
      SetKeepsOwn(s, s', i, k, e, vv, add, j, k', e');
    }
  }

  lemma SetKeepsCoordinated(s: SetSys, s': SetSys, i: NodeID, k: Key, e: Elem, vv: VV, add: bool)
    requires SetStep(s, s', i, k, e, vv, add) && s' != s && forall k', e', r :: Coordinated(s, k', e', r)
    ensures forall k', e', r :: Coordinated(s', k', e', r)
  {
    var d := DvvOf(ValueOr(OrSets.CARRIER, s.sys.lanes[i].state, k), e);
    forall k', e', r ensures Coordinated(s', k', e', r) {
      assert Coordinated(s, k', e', r);
      AppendCounts(s.logs, Slot(k, e), i, Ev(vv, Honoured(d, i, vv), add), k', e', r);
    }
  }

  lemma SetKeepsInv(s: SetSys, s': SetSys, i: NodeID, k: Key, e: Elem, vv: VV, add: bool)
    requires Inv(s) && SetStep(s, s', i, k, e, vv, add)
    ensures Inv(s')
  {
    if s' != s {
      var v := ValueOr(OrSets.CARRIER, s.sys.lanes[i].state, k);
      assert Safe(OrSets.CARRIER, s'.sys) by {
        OrSetLaws();
        WriteSafe(OrSets.CARRIER, s.sys, s'.sys, i, Delta(k, WriteDelta(v, i, e, vv, add)));
      }
      SetKeepsTruth(s, s', i, k, e, vv, add);
      SetKeepsHonest(s, s', i, k, e, vv, add);
      SetKeepsOwners(s, s', i, k, e, vv, add);
      SetKeepsCoordinated(s, s', i, k, e, vv, add);
    }
  }

  /** What a node knows of its own events does not move when its set grows within the truth. */
  lemma OwnStays(s: SetSys, l': Lane<OrSet>, i: NodeID, k: Key, e: Elem)
    requires Inv(s) && i in s.sys.lanes
    requires Dominates(OrSets.CARRIER, l'.state, s.sys.lanes[i].state) && LaneHolds(Truthful(s.logs), l')
    ensures KnowsOwn(s.logs, l', i, k, e)
  {
    var l := s.sys.lanes[i];
    assert KnowsOwn(s.logs, l, i, k, e);
    var a, b := ValueOr(OrSets.CARRIER, l.state, k), ValueOr(OrSets.CARRIER, l'.state, k);
    assert Truthful(s.logs)(k, b);
    ElemGood(s.logs, k, b, e);
    CounterGrows(l.state, l'.state, k, e, i);
  }

  lemma CounterGrows(m: map<Key, OrSet>, m': map<Key, OrSet>, k: Key, e: Elem, r: NodeID)
    requires Dominates(OrSets.CARRIER, m', m)
    ensures Counter(DvvOf(ValueOr(OrSets.CARRIER, m, k), e), r) <= Counter(DvvOf(ValueOr(OrSets.CARRIER, m', k), e), r)
  {
    if k in m && e in m[k] {
      assert OrSets.Merge(m'[k], m[k]) == m'[k];
      assert e in m'[k];
      if r in m[k][e] {
        assert Sync(m'[k][e], m[k][e]) == m'[k][e];
        assert r in m'[k][e];
      }
    }
  }

  lemma ReadKeepsInv(s: SetSys, s': SetSys, i: NodeID, k: Key, e: Elem)
    requires Inv(s) && ReadStep(s, s', i, k, e)
    ensures Inv(s')
  {
    var v := s.sys.lanes[i].state[k];
    assert Truthful(s.logs)(k, v) by { assert LaneHolds(Truthful(s.logs), s.sys.lanes[i]); }
    ElemGood(s.logs, k, v, e);
    assert Readable(LogOf(s.logs, k, e), CausalContext(v, e));
    forall i', k', e' | i' in s'.sys.lanes ensures KnowsOwn(s'.logs, s'.sys.lanes[i'], i', k', e') {
      assert KnowsOwn(s.logs, s.sys.lanes[i'], i', k', e');
    }
    forall k', e', r ensures Coordinated(s', k', e', r) {
      assert Coordinated(s, k', e', r);
    }
  }

  lemma GossipKeepsInv(s: SetSys, s': SetSys)
    requires Inv(s) && GossipStep(OrSets.CARRIER, s.sys, s'.sys) && s' == s.(sys := s'.sys)
    ensures Inv(s')
  {
    OrSetLaws();
    TruthfulClosed(s.logs);
    GossipSafe(OrSets.CARRIER, Truthful(s.logs), s.sys, s'.sys);
    GossipGrows(OrSets.CARRIER, Truthful(s.logs), s.sys, s'.sys);
    forall i, k, e | i in s'.sys.lanes ensures KnowsOwn(s'.logs, s'.sys.lanes[i], i, k, e) {
      OwnStays(s, s'.sys.lanes[i], i, k, e);
    }
    forall k, e, r ensures Coordinated(s', k, e, r) {
      assert Coordinated(s, k, e, r);
    }
  }

  lemma NextKeepsInv(s: SetSys, s': SetSys)
    requires Inv(s) && Next(s, s')
    ensures Inv(s')
  {
    if i, k, e, vv, add :| SetStep(s, s', i, k, e, vv, add) {
      SetKeepsInv(s, s', i, k, e, vv, add);
    } else if i, k, e :| ReadStep(s, s', i, k, e) {
      ReadKeepsInv(s, s', i, k, e);
    } else {
      GossipKeepsInv(s, s');
    }
  }

  lemma {:induction false} RunKeepsInv(run: seq<SetSys>, n: nat)
    requires IsRun(run) && n < |run|
    ensures Inv(run[n])
  {
    if n == 0 {
    } else {
      RunKeepsInv(run, n - 1);
      NextKeepsInv(run[n - 1], run[n]);
    }
  }

  // ---------------------------------------------------------------- theorems

  /** v is a set stored under k in some store, some delta buffer or some packet. */
  ghost predicate Copy(sys: Sys<OrSet>, k: Key, v: OrSet) {
    || (exists i :: i in sys.lanes && k in sys.lanes[i].state && sys.lanes[i].state[k] == v)
    || (exists i, n :: i in sys.lanes && 0 <= n < |sys.lanes[i].buf| && sys.lanes[i].buf[n] == Delta(k, v))
    || (exists p :: p in sys.sent && p.Update? && k in p.payload.content && p.payload.content[k] == v)
  }

  lemma CopyIsGood(s: SetSys, k: Key, v: OrSet)
    requires Inv(s) && Copy(s.sys, k, v)
    ensures GoodSet(s.logs, k, v)
  {
    if i :| i in s.sys.lanes && k in s.sys.lanes[i].state && s.sys.lanes[i].state[k] == v {
      assert LaneHolds(Truthful(s.logs), s.sys.lanes[i]);
      assert Truthful(s.logs)(k, v);
    } else if i, n :| i in s.sys.lanes && 0 <= n < |s.sys.lanes[i].buf| && s.sys.lanes[i].buf[n] == Delta(k, v) {
      assert LaneHolds(Truthful(s.logs), s.sys.lanes[i]);
      assert Truthful(s.logs)(k, v);
    } else if p :| p in s.sys.sent && p.Update? && k in p.payload.content && p.payload.content[k] == v {
      assert MapHolds(Truthful(s.logs), p.payload.content);
      assert Truthful(s.logs)(k, v);
    }
  }

  /** In every reachable state, any two copies of an element with the same version vector are equal,
      and smaller counters mean smaller discarded prefixes. */
  lemma CopiesAreDeterminedByVector(run: seq<SetSys>, n: nat, k: Key, e: Elem, a: OrSet, b: OrSet)
    requires IsRun(run) && n < |run|
    requires Copy(run[n].sys, k, a) && Copy(run[n].sys, k, b) && e in a && e in b
    ensures Join(a[e]) == Join(b[e]) ==> a[e] == b[e]
    ensures DvvSets.Leq(a[e], b[e]) ==> forall r :: Base(a[e], r) <= Base(b[e], r)
  {
    RunKeepsInv(run, n);
    CopyIsGood(run[n], k, a);
    CopyIsGood(run[n], k, b);
    var log := LogOf(run[n].logs, k, e);
    if Join(a[e]) == Join(b[e]) {
      DeterminedByVector(log, a[e], b[e]);
    }
    if DvvSets.Leq(a[e], b[e]) {
      forall r ensures Base(a[e], r) <= Base(b[e], r) {
        BaseIsMonotone(log, a[e], b[e], r);
      }
    }
  }

  /** In every reachable state, what Store.Merge skips would not have changed the local set. */
  lemma SkipLosesNothingInRuns(run: seq<SetSys>, n: nat, k: Key, local: OrSet, incoming: OrSet)
    requires IsRun(run) && n < |run|
    requires Copy(run[n].sys, k, local) && Copy(run[n].sys, k, incoming) && OrSets.Leq(incoming, local)
    ensures OrSets.Merge(local, incoming) == local
  {
    RunKeepsInv(run, n);
    CopyIsGood(run[n], k, local);
    CopyIsGood(run[n], k, incoming);
    MergeWithSmaller(run[n].logs, k, local, incoming);
  }

  /** Some add event the copy knows was observed by no event the copy knows. */
  ghost predicate ObservedRemove(log: Log, d: Dvv<bool>) {
    exists r, k :: Knows(d, r, k) && k <= |Events(log, r)| && Events(log, r)[k - 1].add &&
                   forall t, m | Knows(d, t, m) :: Observed(log, t, m, r) < k
  }

  lemma ContainsIffLiveAdd(d: Dvv<bool>, s: OrSet, e: Elem)
    requires e in s && s[e] == d && WellFormed(d)
    ensures Contains(s, e) <==> exists r, k :: Live(d, r, k) && At(d, r, k)
  {
    if Contains(s, e) {
      var r :| r in d && true in d[r].values;
      var j :| 0 <= j < |d[r].values| && d[r].values[j];
      assert Live(d, r, d[r].counter - j) && At(d, r, d[r].counter - j);
    }
    if r, k :| Live(d, r, k) && At(d, r, k) {
      assert d[r].values[d[r].counter - k] in d[r].values;
    }
  }

  lemma ContainsIffObservedRemove(log: Log, s: OrSet, e: Elem)
    requires Good(log, DvvOf(s, e))
    ensures Contains(s, e) <==> ObservedRemove(log, DvvOf(s, e))
  {
    var d := DvvOf(s, e);
    if e in s {
      ContainsIffLiveAdd(d, s, e);
      if r, k :| Live(d, r, k) && At(d, r, k) {
        assert Faithful(log, d, r, k);
        LiveIffUnobserved(log, d, r, k);
      }
      if ObservedRemove(log, d) {
        var r, k :| Knows(d, r, k) && k <= |Events(log, r)| && Events(log, r)[k - 1].add &&
                    forall t, m | Knows(d, t, m) :: Observed(log, t, m, r) < k;
        LiveIffUnobserved(log, d, r, k);
        assert Faithful(log, d, r, k);
      }
    }
  }

  /** The observed-remove specification, in every reachable state: a replica contains an element
      exactly when some add it knows was observed by no event it knows. */
  lemma MembershipIsObservedRemove(run: seq<SetSys>, n: nat, i: NodeID, k: Key, e: Elem)
    requires IsRun(run) && n < |run| && i in run[n].sys.lanes && k in run[n].sys.lanes[i].state
    ensures var s := run[n].sys.lanes[i].state[k];
            Contains(s, e) <==> ObservedRemove(LogOf(run[n].logs, k, e), DvvOf(s, e))
  {
    RunKeepsInv(run, n);
    var s := run[n].sys.lanes[i].state[k];
    assert Copy(run[n].sys, k, s);
    CopyIsGood(run[n], k, s);
    ElemGood(run[n].logs, k, s, e);
    ContainsIffObservedRemove(LogOf(run[n].logs, k, e), s, e);
  }

  /** The client's side of it, in every reachable state: an element is contained if the replica knows an
      add that no client of an event it knows asked to supersede; and only then, if no event it knows lost
      a part of its client's context. */
  lemma MembershipIsAskedRemove(run: seq<SetSys>, n: nat, i: NodeID, k: Key, e: Elem)
    requires IsRun(run) && n < |run| && i in run[n].sys.lanes && k in run[n].sys.lanes[i].state
    ensures var s, log := run[n].sys.lanes[i].state[k], LogOf(run[n].logs, k, e);
            && ((exists r, m :: UncoveredAdd(log, DvvOf(s, e), r, m)) ==> Contains(s, e))
            && (NothingLost(log, DvvOf(s, e)) && Contains(s, e) ==> exists r, m :: UncoveredAdd(log, DvvOf(s, e), r, m))
  {
    RunKeepsInv(run, n);
    var s, log := run[n].sys.lanes[i].state[k], LogOf(run[n].logs, k, e);
    assert Copy(run[n].sys, k, s);
    CopyIsGood(run[n], k, s);
    ElemGood(run[n].logs, k, s, e);
    assert Modest(log);
    ContainsIfUncovered(log, s, e);
  }

  lemma ContainsIfUncovered(log: Log, s: OrSet, e: Elem)
    requires Good(log, DvvOf(s, e)) && Modest(log)
    ensures (exists r, m :: UncoveredAdd(log, DvvOf(s, e), r, m)) ==> Contains(s, e)
    ensures NothingLost(log, DvvOf(s, e)) && Contains(s, e) ==> exists r, m :: UncoveredAdd(log, DvvOf(s, e), r, m)
  {
    var d := DvvOf(s, e);
    if e in s {
      ContainsIffLiveAdd(d, s, e);
      if r, m :| UncoveredAdd(log, d, r, m) {
        UncoveredIsLive(log, d, r, m);
      }
      if NothingLost(log, d) {
        if r, m :| Live(d, r, m) && At(d, r, m) {
          LiveIffUncovered(log, d, r, m);
        }
      }
    }
  }

  /** Once nothing is left to send, every replica knows every event of every element. */
  lemma QuiescentKnowsAll(s: SetSys, i: NodeID, k: Key, e: Elem, r: NodeID)
    requires Inv(s) && Quiescent(OrSets.CARRIER, s.sys) && i in s.sys.lanes
    ensures Counter(DvvOf(ValueOr(OrSets.CARRIER, s.sys.lanes[i].state, k), e), r) == |Events(LogOf(s.logs, k, e), r)|
  {
    var v := ValueOr(OrSets.CARRIER, s.sys.lanes[i].state, k);
    assert Truthful(s.logs)(k, v) by { assert LaneHolds(Truthful(s.logs), s.sys.lanes[i]); }
    ElemGood(s.logs, k, v, e);
    assert Coordinated(s, k, e, r);
    if r in s.sys.lanes {
      assert KnowsOwn(s.logs, s.sys.lanes[r], r, k, e);
      OrSetLaws();
      QuiescentDominates(OrSets.CARRIER, s.sys, r, i);
      CounterGrows(s.sys.lanes[r].state, s.sys.lanes[i].state, k, e, r);
    }
  }

  /** Stores that dominate one another are equal. */
  lemma MutualIsEqual(s: SetSys, i: NodeID, j: NodeID)
    requires Inv(s) && i in s.sys.lanes && j in s.sys.lanes
    requires Dominates(OrSets.CARRIER, s.sys.lanes[i].state, s.sys.lanes[j].state)
    requires Dominates(OrSets.CARRIER, s.sys.lanes[j].state, s.sys.lanes[i].state)
    ensures s.sys.lanes[i].state == s.sys.lanes[j].state
  {
    var a, b := s.sys.lanes[i].state, s.sys.lanes[j].state;
    forall k | k in a ensures a[k] == b[k] {
      assert Copy(s.sys, k, a[k]) && Copy(s.sys, k, b[k]);
      CopyIsGood(s, k, a[k]);
      CopyIsGood(s, k, b[k]);
      MutualMerge(s.logs, k, a[k], b[k]);
    }
  }

  /** Once nothing is left to send, all set stores are equal: the same keys, elements, siblings and
      causal contexts. */
  lemma AgreementAtRest(s: SetSys, i: NodeID, j: NodeID)
    requires Inv(s) && Quiescent(OrSets.CARRIER, s.sys) && i in s.sys.lanes && j in s.sys.lanes
    ensures s.sys.lanes[i].state == s.sys.lanes[j].state
  {
    OrSetLaws();
    QuiescentDominates(OrSets.CARRIER, s.sys, i, j);
    QuiescentDominates(OrSets.CARRIER, s.sys, j, i);
    MutualIsEqual(s, i, j);
  }

  lemma SkipIsComplete()
    ensures SkipComplete(OrSets.CARRIER)
  {
    forall x: OrSet, m: OrSet ensures SkipCompleteAt(OrSets.CARRIER, x, m) {
      if OrSets.Merge(x, m) == x {
        forall e | e in m ensures e in x && DvvSets.Leq(m[e], x[e]) {
          assert e in OrSets.Merge(x, m) && Sync(x[e], m[e]) == x[e];
          forall r | r in m[e] ensures m[e][r].counter <= Counter(x[e], r) {
            assert r in Sync(x[e], m[e]);
          }
        }
      }
    }
  }

  /** From every reachable state protocol steps alone lead to one in which nothing is left to send. */
  lemma ComesToRest(s: SetSys, hub: NodeID, others: seq<NodeID>) returns (path: seq<Sys<OrSet>>)
    requires Inv(s) && hub !in others && forall j :: j in s.sys.lanes <==> j == hub || j in others
    ensures IsPath(OrSets.CARRIER, path) && path[0] == s.sys && Quiescent(OrSets.CARRIER, path[|path| - 1])
  {
    OrSetLaws();
    TruthfulClosed(s.logs);
    SkipIsComplete();
    var sys';
    path, sys' := Settling.ComesToRest(OrSets.CARRIER, Truthful(s.logs), s.sys, hub, others);
  }

  lemma MutualMerge(logs: map<Slot, Log>, k: Key, a: OrSet, b: OrSet)
    requires GoodSet(logs, k, a) && GoodSet(logs, k, b)
    requires OrSets.Merge(a, b) == a && OrSets.Merge(b, a) == b
    ensures a == b
  {
    assert a.Keys == b.Keys;
    forall e | e in a ensures a[e] == b[e] {
      GoodAgree(LogOf(logs, k, e), a[e], b[e]);
      SyncCommutes(a[e], b[e]);
    }
  }
}
