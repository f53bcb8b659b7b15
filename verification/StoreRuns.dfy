/** Runs of whole stores: the three CRDT types side by side, each under its own lock, interleaved in
    any way. */
module StoreRuns {
  import opened Gossip
  import opened Cluster
  import opened Convergence
  import Counters
  import Registers
  import OrSets
  import CounterRuns
  import RegisterRuns
  import SetRuns

  datatype StoreSys = StoreSys(counters: CounterRuns.CounterSys, registers: RegisterRuns.RegisterSys,
                               sets: SetRuns.SetSys)

  ghost predicate Start(s: StoreSys) {
    CounterRuns.Start(s.counters) && RegisterRuns.Start(s.registers) && SetRuns.Start(s.sets)
  }

  /** A step of one type leaves the others alone. */
  ghost predicate Next(s: StoreSys, s': StoreSys) {
    || (CounterRuns.Next(s.counters, s'.counters) && s' == s.(counters := s'.counters))
    || (RegisterRuns.Next(s.registers, s'.registers) && s' == s.(registers := s'.registers))
    || (SetRuns.Next(s.sets, s'.sets) && s' == s.(sets := s'.sets))
  }

  ghost predicate IsRun(run: seq<StoreSys>) {
    && |run| > 0 && Start(run[0])
    && forall n | 0 <= n < |run| - 1 :: Next(run[n], run[n + 1])
  }

  ghost predicate Inv(s: StoreSys) {
    CounterRuns.Inv(s.counters) && RegisterRuns.Inv(s.registers) && SetRuns.Inv(s.sets)
  }

  lemma StartHasInv(s: StoreSys)
    requires Start(s)
    ensures Inv(s)
  {
    CounterRuns.RunConserves([s.counters], 0);
    RegisterRuns.RunKeepsInv([s.registers], 0);
    SetRuns.RunKeepsInv([s.sets], 0);
  }

  lemma NextKeepsInv(s: StoreSys, s': StoreSys)
    requires Inv(s) && Next(s, s')
    ensures Inv(s')
  {
    if CounterRuns.Next(s.counters, s'.counters) {
      CounterRuns.NextKeepsInv(s.counters, s'.counters);
    }
    if RegisterRuns.Next(s.registers, s'.registers) {
      RegisterRuns.NextKeepsInv(s.registers, s'.registers);
    }
    if SetRuns.Next(s.sets, s'.sets) {
      SetRuns.NextKeepsInv(s.sets, s'.sets);
    }
  }

  lemma {:induction false} RunKeepsInv(run: seq<StoreSys>, n: nat)
    requires IsRun(run) && n < |run|
    ensures Inv(run[n])
  {
    if n == 0 {
      StartHasInv(run[0]);
    } else {
      RunKeepsInv(run, n - 1);
      NextKeepsInv(run[n - 1], run[n]);
    }
  }

  /** Acknowledgements are safe in every run with loss, duplication and reordering: whatever node i
      has recorded for node j, in any of the three types, is a number i has reached, and j dominates
      the state i had at it; and every packet in flight is true. */
  lemma AcksAreSafe(run: seq<StoreSys>, n: nat)
    requires IsRun(run) && n < |run|
    ensures Safe(Counters.CARRIER, run[n].counters.sys)
    ensures Safe(Registers.CARRIER, run[n].registers.sys)
    ensures Safe(OrSets.CARRIER, run[n].sets.sys)
  {
    RunKeepsInv(run, n);
  }

  /** Store.Delta returns nothing for any pair of different nodes. */
  ghost predicate AtRest(s: StoreSys) {
    && Quiescent(Counters.CARRIER, s.counters.sys) && Quiescent(Registers.CARRIER, s.registers.sys)
    && Quiescent(OrSets.CARRIER, s.sets.sys)
  }

  /** All stores hold the same: the same registers and sets, and the same counters, each with exactly
      the increments and decrements accepted anywhere. */
  ghost predicate Agreed(s: StoreSys) {
    var c, r, t := s.counters.sys.lanes, s.registers.sys.lanes, s.sets.sys.lanes;
    && (forall i | i in c :: CounterRuns.Exact(s.counters.ops, c[i].state))
    && (forall i, j | i in c && j in c :: c[i].state.Keys == c[j].state.Keys)
    && (forall i, j | i in r && j in r :: r[i].state == r[j].state)
    && (forall i, j | i in t && j in t :: t[i].state == t[j].state)
  }

  /** Agreement: once no store has anything left to send to any other, all stores agree. */
  lemma StoresAgreeAtRest(run: seq<StoreSys>)
    requires IsRun(run) && AtRest(run[|run| - 1])
    ensures Agreed(run[|run| - 1])
  {
    var s := run[|run| - 1];
    var c, r, t := s.counters.sys.lanes, s.registers.sys.lanes, s.sets.sys.lanes;
    RunKeepsInv(run, |run| - 1);
    forall i | i in c ensures CounterRuns.KnowsAll(s.counters.sys, i) && CounterRuns.Exact(s.counters.ops, c[i].state) {
      CounterRuns.ExactAtRest(s.counters, i);
    }
    KnowingAllIsMutual(s.counters.sys);
    forall i, j | i in r && j in r ensures r[i].state == r[j].state {
      RegisterRuns.AgreementAtRest(s.registers, i, j);
    }
    forall i, j | i in t && j in t ensures t[i].state == t[j].state {
      SetRuns.AgreementAtRest(s.sets, i, j);
    }
  }

  lemma SameKeys(a: map<Key, Counters.PN>, b: map<Key, Counters.PN>)
    requires Dominates(Counters.CARRIER, a, b) && Dominates(Counters.CARRIER, b, a)
    ensures a.Keys == b.Keys
  {}

  lemma KnowingAllIsMutual(sys: Sys<Counters.PN>)
    requires forall i | i in sys.lanes :: CounterRuns.KnowsAll(sys, i)
    ensures forall i, j | i in sys.lanes && j in sys.lanes :: sys.lanes[i].state.Keys == sys.lanes[j].state.Keys
  {
    forall i, j | i in sys.lanes && j in sys.lanes ensures sys.lanes[i].state.Keys == sys.lanes[j].state.Keys {
      assert CounterRuns.KnowsAll(sys, i) && CounterRuns.KnowsAll(sys, j);
      SameKeys(sys.lanes[i].state, sys.lanes[j].state);
    }
  }

  /** The cluster consists of the hub and the others. */
  ghost predicate Nodes<S>(sys: Sys<S>, hub: NodeID, others: seq<NodeID>) {
    hub !in others && forall j :: j in sys.lanes <==> j == hub || j in others
  }

  /** A step of the protocol, and no write or read. */
  ghost predicate Quiet(s: StoreSys, s': StoreSys) {
    || (GossipStep(Counters.CARRIER, s.counters.sys, s'.counters.sys)
        && s' == s.(counters := s.counters.(sys := s'.counters.sys)))
    || (GossipStep(Registers.CARRIER, s.registers.sys, s'.registers.sys)
        && s' == s.(registers := s.registers.(sys := s'.registers.sys)))
    || (GossipStep(OrSets.CARRIER, s.sets.sys, s'.sets.sys) && s' == s.(sets := s.sets.(sys := s'.sets.sys)))
  }

  /** run goes on to run' by protocol steps only. */
  ghost predicate GoesOn(run: seq<StoreSys>, run': seq<StoreSys>) {
    |run| > 0 && IsRun(run') && run <= run' && forall n | |run| - 1 <= n < |run'| - 1 :: Quiet(run'[n], run'[n + 1])
  }

  lemma GoOn(run: seq<StoreSys>, mid: seq<StoreSys>, s': StoreSys)
    requires IsRun(run) && GoesOn(run, mid) && Quiet(mid[|mid| - 1], s')
    ensures GoesOn(run, mid + [s'])
  {
    var run' := mid + [s'];
    forall n | 0 <= n < |run'| - 1
      ensures Next(run'[n], run'[n + 1]) && (n >= |run| - 1 ==> Quiet(run'[n], run'[n + 1]))
    {
      if n < |mid| - 1 {
        assert Next(mid[n], mid[n + 1]);
      }
    }
  }

  lemma {:induction false} CountersGoOn(run: seq<StoreSys>, path: seq<Sys<Counters.PN>>, n: nat)
    returns (run': seq<StoreSys>)
    requires IsRun(run) && IsPath(Counters.CARRIER, path) && path[0] == run[|run| - 1].counters.sys && n < |path|
    ensures GoesOn(run, run')
    ensures var s := run[|run| - 1]; run'[|run'| - 1] == s.(counters := s.counters.(sys := path[n]))
  {
    if n == 0 {
      run' := run;
    } else {
      var mid := CountersGoOn(run, path, n - 1);
      var s := mid[|mid| - 1];
      var s' := s.(counters := s.counters.(sys := path[n]));
      assert GossipStep(Counters.CARRIER, path[n - 1], path[n]);
      GoOn(run, mid, s');
      run' := mid + [s'];
    }
  }

  lemma {:induction false} RegistersGoOn(run: seq<StoreSys>, path: seq<Sys<Registers.Entry>>, n: nat)
    returns (run': seq<StoreSys>)
    requires IsRun(run) && IsPath(Registers.CARRIER, path) && path[0] == run[|run| - 1].registers.sys && n < |path|
    ensures GoesOn(run, run')
    ensures var s := run[|run| - 1]; run'[|run'| - 1] == s.(registers := s.registers.(sys := path[n]))
  {
    if n == 0 {
      run' := run;
    } else {
      var mid := RegistersGoOn(run, path, n - 1);
      var s := mid[|mid| - 1];
      var s' := s.(registers := s.registers.(sys := path[n]));
      assert GossipStep(Registers.CARRIER, path[n - 1], path[n]);
      GoOn(run, mid, s');
      run' := mid + [s'];
    }
  }

  lemma {:induction false} SetsGoOn(run: seq<StoreSys>, path: seq<Sys<OrSets.OrSet>>, n: nat)
    returns (run': seq<StoreSys>)
    requires IsRun(run) && IsPath(OrSets.CARRIER, path) && path[0] == run[|run| - 1].sets.sys && n < |path|
    ensures GoesOn(run, run')
    ensures var s := run[|run| - 1]; run'[|run'| - 1] == s.(sets := s.sets.(sys := path[n]))
  {
    if n == 0 {
      run' := run;
    } else {
      var mid := SetsGoOn(run, path, n - 1);
      var s := mid[|mid| - 1];
      var s' := s.(sets := s.sets.(sys := path[n]));
      assert GossipStep(OrSets.CARRIER, path[n - 1], path[n]);
      GoOn(run, mid, s');
      run' := mid + [s'];
    }
  }

  lemma GoesOnFollows(x: seq<StoreSys>, y: seq<StoreSys>, z: seq<StoreSys>)
    requires IsRun(x) && GoesOn(x, y) && GoesOn(y, z)
    ensures GoesOn(x, z)
  {
    forall n | |x| - 1 <= n < |z| - 1 ensures Quiet(z[n], z[n + 1]) {
      if n < |y| - 1 {
        assert Quiet(y[n], y[n + 1]);
      }
    }
  }

  /** Rest can always be reached: every run, whatever was lost in it, goes on by protocol steps alone to a
      state in which no store has anything left to send, and there all stores agree. */
  lemma StoresComeToRest(run: seq<StoreSys>, hub: NodeID, others: seq<NodeID>) returns (run': seq<StoreSys>)
    requires IsRun(run)
    requires var s := run[|run| - 1];
             Nodes(s.counters.sys, hub, others) && Nodes(s.registers.sys, hub, others) && Nodes(s.sets.sys, hub, others)
    ensures GoesOn(run, run') && AtRest(run'[|run'| - 1]) && Agreed(run'[|run'| - 1])
  {
    var s := run[|run| - 1];
    RunKeepsInv(run, |run| - 1);
    var pc := CounterRuns.ComesToRest(s.counters, hub, others);
    var pr := RegisterRuns.ComesToRest(s.registers, hub, others);
    var ps := SetRuns.ComesToRest(s.sets, hub, others);
    var x := CountersGoOn(run, pc, |pc| - 1);
    var y := RegistersGoOn(x, pr, |pr| - 1);
    run' := SetsGoOn(y, ps, |ps| - 1);
    GoesOnFollows(run, x, y);
    GoesOnFollows(run, y, run');
    StoresAgreeAtRest(run');
  }

  /** Each type's skip test recognizes what was just merged, so a message delivered twice does what it
      does when delivered once. */
  lemma MergesAreRecognized()
    ensures Recognizes(Counters.CARRIER) && Recognizes(Registers.CARRIER) && Recognizes(OrSets.CARRIER)
  {
    forall x, m ensures RecognizesAt(Counters.CARRIER, x, m) {
      assert Counters.Leq(m, Counters.Merge(x, m));
    }
    forall x, m ensures RecognizesAt(Registers.CARRIER, x, m) {
      Registers.AfterIsOrder(m, m, m);
    }
    forall x, m ensures RecognizesAt(OrSets.CARRIER, x, m) {
      assert OrSets.Leq(m, OrSets.Merge(x, m));
    }
  }
}
