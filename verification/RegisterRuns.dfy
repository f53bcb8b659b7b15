/** Registers over whole runs: a stamp never names two values in the stores, even when a clock stands
    still or runs backwards, and the stores agree once there is nothing left to send. */
module RegisterRuns {
  import opened Bands
  import opened Gossip
  import opened Cluster
  import opened Convergence
  import opened Settling
  import opened Registers

  /** A key, a timestamp and a writer. */
  datatype Stamp = Stamp(key: Key, time: int, writer: NodeID)

  /** won records, for each write its own node adopted, the value written under that stamp. */
  datatype RegisterSys = RegisterSys(sys: Sys<Entry>, won: map<Stamp, string>)

  function StampOf(k: Key, e: Entry): Stamp {
    Stamp(k, e.time, e.writer)
  }

  ghost predicate Start(s: RegisterSys) {
    Init(s.sys) && s.won == map[]
  }

  /** SetRegister on node e.writer at whatever time its clock shows.  The delta is buffered and
      gossiped whether or not the write wins. */
  ghost predicate SetStep(s: RegisterSys, s': RegisterSys, k: Key, e: Entry) {
    && e.writer in s.sys.lanes
    && WriteStep(CARRIER, s.sys, s'.sys, e.writer, Delta(k, e))
    && s'.won == if After(e, ValueOr(CARRIER, s.sys.lanes[e.writer].state, k)) then s.won[StampOf(k, e) := e.value]
                 else s.won
  }

  ghost predicate Next(s: RegisterSys, s': RegisterSys) {
    || (exists k, e :: SetStep(s, s', k, e))
    || (GossipStep(CARRIER, s.sys, s'.sys) && s'.won == s.won)
  }

  ghost predicate IsRun(run: seq<RegisterSys>) {
    && |run| > 0 && Start(run[0])
    && forall n | 0 <= n < |run| - 1 :: Next(run[n], run[n + 1])
  }

  // ---------------------------------------------------------------- invariant

  /** e is the initial entry or the value its own node adopted under its stamp. */
  ghost predicate Genuine(won: map<Stamp, string>, k: Key, e: Entry) {
    e == ZERO_ENTRY || (StampOf(k, e) in won && won[StampOf(k, e)] == e.value)
  }

  ghost predicate GenuineMap(won: map<Stamp, string>, m: map<Key, Entry>) {
    forall k | k in m :: Genuine(won, k, m[k])
  }

  ghost predicate GenuineAt(won: map<Stamp, string>, l: Lane<Entry>, n: nat) {
    n <= l.Seq() ==> GenuineMap(won, StateAt(CARRIER, l, n))
  }

  /** Every state the replica ever had holds genuine entries only, although its buffer may not. */
  ghost predicate GenuineHistory(won: map<Stamp, string>, l: Lane<Entry>) {
    forall n: nat :: GenuineAt(won, l, n)
  }

  /** A recorded stamp is not later than what its writer holds now. */
  ghost predicate Remembered(s: RegisterSys, t: Stamp) {
    && t.writer in s.sys.lanes && t.key in s.sys.lanes[t.writer].state
    && !After(Entry(t.writer, t.time, ""), s.sys.lanes[t.writer].state[t.key])
  }

  ghost predicate Inv(s: RegisterSys) {
    && Safe(CARRIER, s.sys)
    && (forall i | i in s.sys.lanes :: GenuineHistory(s.won, s.sys.lanes[i]))
    && (forall t | t in s.won :: Remembered(s, t))
  }

  ghost function Any(): (Key, Entry) -> bool {
    (k, e) => true
  }

  lemma AnyClosed()
    ensures Closed(CARRIER, Any()) && SkipSound(CARRIER, Any())
  {
    forall k, x, m ensures SkipLosesNothing(CARRIER, Any(), k, x, m) {}
  }

  lemma RecordGenuine(won: map<Stamp, string>, l: Lane<Entry>, d: Delta<Entry>)
    requires Buffered(CARRIER, l) && GenuineHistory(won, l)
    requires Genuine(won, d.key, Merge(ValueOr(CARRIER, l.state, d.key), d.value))
    ensures GenuineHistory(won, Record(CARRIER, l, d))
  {
    var r := Record(CARRIER, l, d);
    assert GenuineAt(won, l, l.Seq());
    assert l.buf[..|l.buf|] == l.buf;
    RecordBuffered(CARRIER, l, d);
    forall n: nat ensures GenuineAt(won, r, n) {
      if n <= l.Seq() {
        assert GenuineAt(won, l, n);
        assert n > 0 ==> r.buf[..n - 1] == l.buf[..n - 1];
      } else if n == r.Seq() {
        assert r.buf[..n - 1] == r.buf;
      }
    }
  }

  lemma {:induction false} MergeKeysGenuine(won: map<Stamp, string>, l: Lane<Entry>, content: map<Key, Entry>,
                                            order: seq<Key>)
    requires Buffered(CARRIER, l) && GenuineHistory(won, l)
    requires forall k | k in order :: k in content && Genuine(won, k, Merge(ValueOr(CARRIER, l.state, k), content[k]))
    requires forall a, b | 0 <= a < b < |order| :: order[a] != order[b]
    ensures var r := MergeKeys(CARRIER, l, content, order); GenuineHistory(won, r) && Buffered(CARRIER, r)
  {
    if order != [] {
      var o, k := order[..|order| - 1], order[|order| - 1];
      MergeKeysGenuine(won, l, content, o);
      RegisterLaws();
      AnyClosed();
      MergeKeysMerged(CARRIER, Any(), l, content, o);
      var mid := MergeKeys(CARRIER, l, content, o);
      assert k !in o;
      assert ValueOr(CARRIER, mid.state, k) == ValueOr(CARRIER, l.state, k);
      RecordGenuine(won, mid, Delta(k, content[k]));
      RecordBuffered(CARRIER, mid, Delta(k, content[k]));
    }
  }

  /** Where merging a delta and merging the full state it stands for agree, a receiver that adopts an
      entry adopts one that the sender held. */
  lemma AdoptedIsGenuine(won: map<Stamp, string>, m: map<Key, Entry>, content: map<Key, Entry>,
                         y: map<Key, Entry>, r: map<Key, Entry>, k: Key)
    requires GenuineMap(won, m) && GenuineMap(won, y) && k in content
    requires Merged(CARRIER, m, content, r) && Merged(CARRIER, m, y, r)
    ensures Genuine(won, k, Merge(ValueOr(CARRIER, m, k), content[k]))
  {
    assert k in r;
    assert r[k] == Merge(ValueOr(CARRIER, m, k), content[k]);
  }

  lemma StateGenuine(won: map<Stamp, string>, l: Lane<Entry>)
    requires Buffered(CARRIER, l) && GenuineHistory(won, l)
    ensures GenuineMap(won, l.state)
  {
    assert GenuineAt(won, l, l.Seq());
    assert l.buf[..|l.buf|] == l.buf;
  }

  lemma MergeKeepsGenuine(s: RegisterSys, sys': Sys<Entry>, p: Packet<Entry>, order: seq<Key>)
    requires Inv(s) && MergeStep(CARRIER, s.sys, sys', p, order)
    ensures GenuineHistory(s.won, sys'.lanes[p.dst])
  {
    var l, m := s.sys.lanes[p.dst], p.payload;
    var r := sys'.lanes[p.dst].state;
    assert PacketTrue(CARRIER, s.sys, p);
    assert Merged(CARRIER, l.state, m.content, r) by {
      RegisterLaws();
      AnyClosed();
      MergeKeysMerged(CARRIER, Any(), l, m.content, order);
    }
    if m.upto > 0 {
      var y := StateAt(CARRIER, s.sys.lanes[p.src], m.upto);
      assert Merged(CARRIER, l.state, y, r) by {
        RegisterLaws();
        AnyClosed();
        MergeSafe(CARRIER, Any(), s.sys, sys', p, order);
      }
      StateGenuine(s.won, l);
      assert GenuineAt(s.won, s.sys.lanes[p.src], m.upto);
      forall k | k in order ensures Genuine(s.won, k, Merge(ValueOr(CARRIER, l.state, k), m.content[k])) {
        AdoptedIsGenuine(s.won, l.state, m.content, y, r, k);
      }
    }
    MergeKeysGenuine(s.won, l, m.content, order);
  }

  lemma RememberedGrows(s: RegisterSys, s': RegisterSys, t: Stamp)
    requires Remembered(s, t) && t.writer in s'.sys.lanes
    requires Dominates(CARRIER, s'.sys.lanes[t.writer].state, s.sys.lanes[t.writer].state)
    ensures Remembered(s', t)
  {
    var e, e' := s.sys.lanes[t.writer].state[t.key], s'.sys.lanes[t.writer].state[t.key];
    var w := Entry(t.writer, t.time, "");
    AfterIsOrder(w, e', e);
    AfterIsOrder(e, e', w);
    AfterIsOrder(e', e, w);
  }

  lemma GossipKeepsGenuine(s: RegisterSys, s': RegisterSys, i: NodeID)
    requires Inv(s) && GossipStep(CARRIER, s.sys, s'.sys) && i in s.sys.lanes && i in s'.sys.lanes
    ensures GenuineHistory(s.won, s'.sys.lanes[i])
  {
    var l, l' := s.sys.lanes[i], s'.sys.lanes[i];
    if p, order :| MergeStep(CARRIER, s.sys, s'.sys, p, order) && p.dst == i {
      MergeKeepsGenuine(s, s'.sys, p, order);
    } else {
      assert l'.buf == l.buf;
      forall n: nat ensures GenuineAt(s.won, l', n) {
        assert GenuineAt(s.won, l, n);
      }
    }
  }

  lemma GossipKeepsSafe(sys: Sys<Entry>, sys': Sys<Entry>)
    requires Safe(CARRIER, sys) && GossipStep(CARRIER, sys, sys')
    ensures Safe(CARRIER, sys') && sys'.lanes.Keys == sys.lanes.Keys
    ensures forall i | i in sys.lanes :: Dominates(CARRIER, sys'.lanes[i].state, sys.lanes[i].state)
  {
    RegisterLaws();
    AnyClosed();
    assert Holds(Any(), sys);
    GossipSafe(CARRIER, Any(), sys, sys');
    GossipGrows(CARRIER, Any(), sys, sys');
  }

  lemma GossipKeepsInv(s: RegisterSys, s': RegisterSys)
    requires Inv(s) && GossipStep(CARRIER, s.sys, s'.sys) && s'.won == s.won
    ensures Inv(s')
  {
    GossipKeepsSafe(s.sys, s'.sys);
    forall t | t in s'.won ensures Remembered(s', t) {
      RememberedGrows(s, s', t);
    }
    forall i | i in s'.sys.lanes ensures GenuineHistory(s'.won, s'.sys.lanes[i]) {
      GossipKeepsGenuine(s, s', i);
    }
  }

  lemma WonGrows(won: map<Stamp, string>, won': map<Stamp, string>, l: Lane<Entry>)
    requires GenuineHistory(won, l) && forall t | t in won :: t in won' && won'[t] == won[t]
    ensures GenuineHistory(won', l)
  {
    forall n: nat ensures GenuineAt(won', l, n) {
      assert GenuineAt(won, l, n);
    }
  }

  lemma SetKeepsInv(s: RegisterSys, s': RegisterSys, k: Key, e: Entry)
    requires Inv(s) && SetStep(s, s', k, e)
    ensures Inv(s')
  {
    RegisterLaws();
    var l := s.sys.lanes[e.writer];
    WriteSafe(CARRIER, s.sys, s'.sys, e.writer, Delta(k, e));
    if After(e, ValueOr(CARRIER, l.state, k)) {
      // the stamp is new: a second write under a recorded stamp would not be later
      assert StampOf(k, e) in s.won ==> Remembered(s, StampOf(k, e));
      forall i | i in s.sys.lanes ensures GenuineHistory(s'.won, s.sys.lanes[i]) {
        WonGrows(s.won, s'.won, s.sys.lanes[i]);
      }
    }
    StateGenuine(s'.won, l);
    RecordGenuine(s'.won, l, Delta(k, e));
    ReplayGrows(CARRIER, l.buf, l.buf + [Delta(k, e)], l.state) by { DominatesSelf(CARRIER, l.state); }
    forall t | t in s'.won ensures Remembered(s', t) {
      if t in s.won {
        DominatesSelf(CARRIER, s.sys.lanes[t.writer].state);
        RememberedGrows(s, s', t);
      } else {
        AfterIsOrder(e, e, e);
        AfterIsOrder(Entry(t.writer, t.time, ""), e, e);
      }
    }
  }

  lemma NextKeepsInv(s: RegisterSys, s': RegisterSys)
    requires Inv(s) && Next(s, s')
    ensures Inv(s')
  {
    if k, e :| SetStep(s, s', k, e) {
      SetKeepsInv(s, s', k, e);
    } else {
      GossipKeepsInv(s, s');
    }
  }

  lemma {:induction false} RunKeepsInv(run: seq<RegisterSys>, n: nat)
    requires IsRun(run) && n < |run|
    ensures Inv(run[n])
  {
    if n == 0 {
      forall i, m: nat | i in run[0].sys.lanes ensures GenuineAt(run[0].won, run[0].sys.lanes[i], m) {}
    } else {
      RunKeepsInv(run, n - 1);
      NextKeepsInv(run[n - 1], run[n]);
    }
  }

  lemma StateIsGenuine(s: RegisterSys, i: NodeID, k: Key)
    requires Inv(s) && i in s.sys.lanes && k in s.sys.lanes[i].state
    ensures var e := s.sys.lanes[i].state[k]; Genuine(s.won, k, e) && (SameStamp(e, ZERO_ENTRY) ==> e == ZERO_ENTRY)
  {
    var l := s.sys.lanes[i];
    StateGenuine(s.won, l);
    RegisterLaws();
    ReplayRooted(CARRIER, l.buf);
    AfterIsOrder(l.state[k], ZERO_ENTRY, ZERO_ENTRY);
  }

  lemma SameStampSameValue(s: RegisterSys, i: NodeID, j: NodeID, k: Key)
    requires Inv(s) && i in s.sys.lanes && k in s.sys.lanes[i].state && j in s.sys.lanes && k in s.sys.lanes[j].state
    requires SameStamp(s.sys.lanes[i].state[k], s.sys.lanes[j].state[k])
    ensures s.sys.lanes[i].state[k] == s.sys.lanes[j].state[k]
  {
    StateIsGenuine(s, i, k);
    StateIsGenuine(s, j, k);
  }

  /** In every reachable state, two stores that hold the same timestamp and writer for a key hold the
      same value. */
  lemma StampsAreUnambiguous(run: seq<RegisterSys>, n: nat, i: NodeID, j: NodeID, k: Key)
    requires IsRun(run) && n < |run|
    requires i in run[n].sys.lanes && k in run[n].sys.lanes[i].state
    requires j in run[n].sys.lanes && k in run[n].sys.lanes[j].state
    requires SameStamp(run[n].sys.lanes[i].state[k], run[n].sys.lanes[j].state[k])
    ensures run[n].sys.lanes[i].state[k] == run[n].sys.lanes[j].state[k]
  {
    RunKeepsInv(run, n);
    SameStampSameValue(run[n], i, j, k);
  }

  /** Stores that dominate one another are equal. */
  lemma MutualIsEqual(s: RegisterSys, i: NodeID, j: NodeID)
    requires Inv(s) && i in s.sys.lanes && j in s.sys.lanes
    requires Dominates(CARRIER, s.sys.lanes[i].state, s.sys.lanes[j].state)
    requires Dominates(CARRIER, s.sys.lanes[j].state, s.sys.lanes[i].state)
    ensures s.sys.lanes[i].state == s.sys.lanes[j].state
  {
    var a, b := s.sys.lanes[i].state, s.sys.lanes[j].state;
    forall k | k in a ensures a[k] == b[k] {
      AfterIsOrder(a[k], b[k], a[k]);
      SameStampSameValue(s, i, j, k);
    }
  }

  /** Once nothing is left to send, all register stores are equal. */
  lemma AgreementAtRest(s: RegisterSys, i: NodeID, j: NodeID)
    requires Inv(s) && Quiescent(CARRIER, s.sys) && i in s.sys.lanes && j in s.sys.lanes
    ensures s.sys.lanes[i].state == s.sys.lanes[j].state
  {
    RegisterLaws();
    QuiescentDominates(CARRIER, s.sys, i, j);
    QuiescentDominates(CARRIER, s.sys, j, i);
    MutualIsEqual(s, i, j);
  }

  lemma SkipIsComplete()
    ensures SkipComplete(CARRIER)
  {
    forall x, m ensures SkipCompleteAt(CARRIER, x, m) {
      AfterIsOrder(m, x, m);
    }
  }

  /** From every reachable state protocol steps alone lead to one in which nothing is left to send. */
  lemma ComesToRest(s: RegisterSys, hub: NodeID, others: seq<NodeID>) returns (path: seq<Sys<Entry>>)
    requires Inv(s) && hub !in others && forall j :: j in s.sys.lanes <==> j == hub || j in others
    ensures IsPath(CARRIER, path) && path[0] == s.sys && Quiescent(CARRIER, path[|path| - 1])
  {
    RegisterLaws();
    AnyClosed();
    SkipIsComplete();
    assert Holds(Any(), s.sys);
    var sys';
    path, sys' := Settling.ComesToRest(CARRIER, Any(), s.sys, hub, others);
  }
}
