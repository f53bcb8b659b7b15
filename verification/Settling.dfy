/** The protocol comes to rest: from every safe state, protocol steps alone lead to one in which no node has
    anything left to send to any other. */
module Settling {
  import opened Bands
  import opened Gossip
  import opened Cluster
  import opened Convergence

  /** The skip test recognizes everything a replica already knows. */
  ghost predicate SkipComplete<S(!new), A>(c: Carrier<S, A>) {
    forall x, m :: SkipCompleteAt(c, x, m)
  }

  ghost predicate SkipCompleteAt<S, A>(c: Carrier<S, A>, x: S, m: S) {
    c.op(c.view(x), c.view(m)) == c.view(x) ==> c.leq(m, x)
  }

  /** Every replica knows what every other knows. */
  ghost predicate Mutual<S, A>(c: Carrier<S, A>, sys: Sys<S>) {
    forall i, j | i in sys.lanes && j in sys.lanes :: Dominates(c, sys.lanes[i].state, sys.lanes[j].state)
  }

  /** There are protocol steps from one state to the other. */
  ghost predicate Reaches<S(!new), A>(c: Carrier<S, A>, sys: Sys<S>, sys': Sys<S>) {
    exists path :: Leads(c, path, sys, sys')
  }

  lemma ReachesItself<S(!new), A>(c: Carrier<S, A>, sys: Sys<S>)
    ensures Reaches(c, sys, sys)
  {
    assert Leads(c, [sys], sys, sys);
  }

  lemma ReachesOn<S(!new), A>(c: Carrier<S, A>, x: Sys<S>, y: Sys<S>, z: Sys<S>)
    requires Reaches(c, x, y) && Reaches(c, y, z)
    ensures Reaches(c, x, z)
  {
    var p :| Leads(c, p, x, y);
    var q :| Leads(c, q, y, z);
    Follows(c, p, q, x, y, z);
  }

  /** Node i has sent everything to j and knows it. */
  ghost predicate Settled<S>(sys: Sys<S>, i: NodeID, j: NodeID) {
    i in sys.lanes && sys.lanes[i].Acked(j) == sys.lanes[i].Seq()
  }

  /** What a node sends it knows itself. */
  lemma SenderKnows<S(!new), A(!new)>(c: Carrier<S, A>, sys: Sys<S>, i: NodeID, j: NodeID)
    requires Laws(c) && Safe(c, sys) && i in sys.lanes
    ensures Dominates(c, sys.lanes[i].state, DeltaFor(c, sys.lanes[i], j).content)
  {
    var l := sys.lanes[i];
    var a := l.Acked(j);
    assert Buffered(c, l);
    if a == 0 {
      DominatesSelf(c, l.state);
    } else if a < l.Seq() {
      var p, q := l.buf[..a - 1], l.buf[a - 1..];
      assert p + q == l.buf;
      ReplayGather(c, p, q);
      MergedDominates(c, Replay(c, p), Gather(c, q), l.state);
    }
  }

  /** A message of things known is skipped as a whole. */
  lemma KnownIsSkipped<S(!new), A(!new)>(c: Carrier<S, A>, l: Lane<S>, content: map<Key, S>, order: seq<Key>)
    requires SkipComplete(c) && Dominates(c, l.state, content) && forall k | k in order :: k in content
    ensures MergeKeys(c, l, content, order) == l
  {
    forall k | k in order ensures Skips(c, l, Delta(k, content[k])) {
      assert SkipCompleteAt(c, l.state[k], content[k]);
    }
    AllSkipped(c, l, content, order);
  }

  /** When all know the same, one send, one merge and one acknowledgement settle a pair. */
  lemma SettlePair<S(!new), A(!new)>(c: Carrier<S, A>, P: (Key, S) -> bool, sys: Sys<S>, i: NodeID, j: NodeID)
    returns (path: seq<Sys<S>>, sys': Sys<S>)
    requires Healthy(c, P, sys) && SkipComplete(c) && Mutual(c, sys) && i in sys.lanes && j in sys.lanes
    requires sys.lanes[i].Acked(j) < sys.lanes[i].Seq()
    ensures Leads(c, path, sys, sys') && Healthy(c, P, sys')
    ensures sys'.lanes == sys.lanes[i := RecordAck(sys.lanes[i], j, sys.lanes[i].Seq())]
  {
    var m := DeltaFor(c, sys.lanes[i], j);
    var mid := SendTo(c, P, sys, i, j);
    var far := Recognize(c, P, mid, i, j, m);
    sys' := Acknowledge(c, P, far, i, j, m.upto);
    path := [sys, mid, far, sys'];
    ThreeSteps(c, sys, mid, far, sys');
  }

  lemma Acknowledge<S(!new), A(!new)>(c: Carrier<S, A>, P: (Key, S) -> bool, far: Sys<S>, i: NodeID, j: NodeID, n: nat)
    returns (sys': Sys<S>)
    requires Healthy(c, P, far) && Confirm(j, i, n) in far.sent && i in far.lanes
    ensures GossipStep(c, far, sys') && Healthy(c, P, sys')
    ensures sys' == far.(lanes := far.lanes[i := RecordAck(far.lanes[i], j, n)])
  {
    sys' := far.(lanes := far.lanes[i := RecordAck(far.lanes[i], j, n)]);
    assert AckStep(far, sys', Confirm(j, i, n));
    GossipSafe(c, P, far, sys');
  }

  lemma Recognize<S(!new), A(!new)>(c: Carrier<S, A>, P: (Key, S) -> bool, mid: Sys<S>, i: NodeID, j: NodeID,
                                    m: Payload<S>)
    returns (far: Sys<S>)
    requires Healthy(c, P, mid) && SkipComplete(c) && Mutual(c, mid) && i in mid.lanes && j in mid.lanes
    requires m == DeltaFor(c, mid.lanes[i], j) && Update(i, j, m) in mid.sent
    ensures GossipStep(c, mid, far) && Healthy(c, P, far)
    ensures far == Sys(mid.lanes, mid.sent + [Confirm(j, i, m.upto)])
  {
    var order := SomeOrder(m.content);
    SenderKnows(c, mid, i, j);
    DominatesTransitive(c, mid.lanes[j].state, mid.lanes[i].state, m.content);
    KnownIsSkipped(c, mid.lanes[j], m.content, order);
    far := Sys(mid.lanes, mid.sent + [Confirm(j, i, m.upto)]);
    assert mid.lanes[j := mid.lanes[j]] == mid.lanes;
    assert MergeStep(c, mid, far, Update(i, j, m), order);
    GossipSafe(c, P, mid, far);
  }

  lemma ThreeSteps<S(!new), A>(c: Carrier<S, A>, w: Sys<S>, x: Sys<S>, y: Sys<S>, z: Sys<S>)
    requires GossipStep(c, w, x) && GossipStep(c, x, y) && GossipStep(c, y, z)
    ensures Leads(c, [w, x, y, z], w, z)
  {
    TwoSteps(c, w, x, y);
    var path := [w, x, y, z];
    forall n | 0 <= n < |path| - 1 ensures GossipStep(c, path[n], path[n + 1]) {
      if n == 2 {
        assert path[n] == y && path[n + 1] == z;
      } else {
        assert path[n] == [w, x, y][n] && path[n + 1] == [w, x, y][n + 1];
      }
    }
  }

  /** The pairs settled before are settled after. */
  ghost predicate Keeps<S>(sys: Sys<S>, sys': Sys<S>) {
    forall i, j | Settled(sys, i, j) :: Settled(sys', i, j)
  }

  /** All know the same, and the protocol is sound. */
  ghost predicate Calm<S(!new), A(!new)>(c: Carrier<S, A>, P: (Key, S) -> bool, sys: Sys<S>, nodes: set<NodeID>) {
    Healthy(c, P, sys) && SkipComplete(c) && Mutual(c, sys) && sys.lanes.Keys == nodes
  }

  lemma SettleOne<S(!new), A(!new)>(c: Carrier<S, A>, P: (Key, S) -> bool, sys: Sys<S>, nodes: set<NodeID>, i: NodeID,
                                    j: NodeID)
    returns (sys': Sys<S>)
    requires Calm(c, P, sys, nodes) && i in nodes && j in nodes
    ensures Calm(c, P, sys', nodes) && Reaches(c, sys, sys') && Keeps(sys, sys') && Settled(sys', i, j)
  {
    if sys.lanes[i].Acked(j) < sys.lanes[i].Seq() {
      var path;
      path, sys' := SettlePair(c, P, sys, i, j);
      AckSettles(c, sys, sys', i, j);
    } else {
      sys' := sys;
      ReachesItself(c, sys);
      assert AckTrue(c, sys, i, j, sys.lanes[i].acks[j]);
    }
  }

  lemma AckSettles<S, A>(c: Carrier<S, A>, sys: Sys<S>, sys': Sys<S>, i: NodeID, j: NodeID)
    requires Mutual(c, sys) && i in sys.lanes && sys.lanes[i].Acked(j) < sys.lanes[i].Seq()
    requires sys'.lanes == sys.lanes[i := RecordAck(sys.lanes[i], j, sys.lanes[i].Seq())]
    ensures Mutual(c, sys') && sys'.lanes.Keys == sys.lanes.Keys && Keeps(sys, sys') && Settled(sys', i, j)
  {}

  ghost predicate CanDo<T(!new), U>(Q: T -> bool, R: (T, T) -> bool, Done: (T, U) -> bool, a: T, u: U) {
    exists b :: Q(b) && R(a, b) && Done(b, u)
  }

  /** If each task can be done from every state in Q, reaching a state in Q by R, and R leaves what is done
      done, then all tasks can be done. */
  lemma {:induction false} DoAll<T(!new), U(!new)>(Q: T -> bool, R: (T, T) -> bool, Done: (T, U) -> bool, x: T,
                                                   todo: seq<U>)
    returns (y: T)
    requires Q(x) && (forall a :: R(a, a)) && (forall a, b, d | R(a, b) && R(b, d) :: R(a, d))
    requires forall a, b, u | R(a, b) && Done(a, u) :: Done(b, u)
    requires forall a, u | Q(a) && u in todo :: CanDo(Q, R, Done, a, u)
    ensures Q(y) && R(x, y) && forall u | u in todo :: Done(y, u)
  {
    if todo == [] {
      y := x;
    } else {
      var rest, u := todo[..|todo| - 1], todo[|todo| - 1];
      forall a, w | Q(a) && w in rest ensures CanDo(Q, R, Done, a, w) {
        assert w in todo;
      }
      var mid := DoAll(Q, R, Done, x, rest);
      assert CanDo(Q, R, Done, mid, u);
      y :| Q(y) && R(mid, y) && Done(y, u);
      forall w | w in todo ensures Done(y, w) {
        if w != u {
          assert w in rest;
        }
      }
    }
  }

  ghost function IsCalm<S(!new), A(!new)>(c: Carrier<S, A>, P: (Key, S) -> bool, nodes: set<NodeID>): Sys<S> -> bool {
    sys => Calm(c, P, sys, nodes)
  }

  ghost function ReachesKeeping<S(!new), A>(c: Carrier<S, A>): (Sys<S>, Sys<S>) -> bool {
    (sys, sys') => Reaches(c, sys, sys') && Keeps(sys, sys')
  }

  ghost function IsSettled<S(!new)>(): (Sys<S>, (NodeID, NodeID)) -> bool {
    (sys: Sys<S>, t: (NodeID, NodeID)) => Settled(sys, t.0, t.1)
  }

  /** Settling pairs one after the other never unsettles another. */
  lemma SettleAll<S(!new), A(!new)>(c: Carrier<S, A>, P: (Key, S) -> bool, sys: Sys<S>, nodes: set<NodeID>,
                                    todo: seq<(NodeID, NodeID)>)
    returns (sys': Sys<S>)
    requires Calm(c, P, sys, nodes) && forall t | t in todo :: t.0 in nodes && t.1 in nodes
    ensures Calm(c, P, sys', nodes) && Reaches(c, sys, sys') && forall t | t in todo :: Settled(sys', t.0, t.1)
  {
    var Q, R, Done := IsCalm(c, P, nodes), ReachesKeeping<S, A>(c), IsSettled<S>();
    forall a ensures R(a, a) {
      ReachesItself(c, a);
    }
    forall a, b, d | R(a, b) && R(b, d) ensures R(a, d) {
      ReachesOn(c, a, b, d);
    }
    forall a, t | Q(a) && t in todo ensures CanDo(Q, R, Done, a, t) {
      var b := SettleOne(c, P, a, nodes, t.0, t.1);
      assert Q(b) && R(a, b) && Done(b, t);
    }
    sys' := DoAll(Q, R, Done, sys, todo);
    forall t | t in todo ensures Settled(sys', t.0, t.1) {
      assert Done(sys', t);
    }
  }

  /** All ordered pairs of nodes. */
  lemma {:induction false} AllPairs(nodes: set<(NodeID, NodeID)>) returns (todo: seq<(NodeID, NodeID)>)
    ensures forall t :: t in todo <==> t in nodes
    decreases |nodes|
  {
    todo := [];
    if t :| t in nodes {
      assert |nodes - {t}| < |nodes|;
      var rest := AllPairs(nodes - {t});
      todo := rest + [t];
      forall q ensures q in todo <==> q in nodes {
        assert q in rest <==> q in nodes - {t};
      }
    }
  }

  /** From every safe state there are protocol steps to a state in which nothing is left to send. */
  lemma ComesToRest<S(!new), A(!new)>(c: Carrier<S, A>, P: (Key, S) -> bool, sys: Sys<S>, hub: NodeID,
                                      others: seq<NodeID>)
    returns (path: seq<Sys<S>>, sys': Sys<S>)
    requires Healthy(c, P, sys) && SkipComplete(c) && hub in sys.lanes && hub !in others
    requires forall j :: j in sys.lanes <==> j == hub || j in others
    ensures Leads(c, path, sys, sys') && Healthy(c, P, sys') && sys'.lanes.Keys == sys.lanes.Keys && Quiescent(c, sys')
  {
    var p, mid := TwoSweeps(c, P, sys, hub, others);
    sys' := Settle(c, P, mid, sys.lanes.Keys);
    ReachesOn(c, sys, mid, sys');
    path :| Leads(c, path, sys, sys');
  }

  lemma Settle<S(!new), A(!new)>(c: Carrier<S, A>, P: (Key, S) -> bool, sys: Sys<S>, nodes: set<NodeID>)
    returns (sys': Sys<S>)
    requires Calm(c, P, sys, nodes)
    ensures Calm(c, P, sys', nodes) && Reaches(c, sys, sys') && Quiescent(c, sys')
  {
    var pairs := set i, j | i in nodes && j in nodes :: (i, j);
    var todo := AllPairs(pairs);
    sys' := SettleAll(c, P, sys, nodes, todo);
    SettledIsQuiescent(c, sys', nodes, todo);
  }

  lemma SettledIsQuiescent<S, A>(c: Carrier<S, A>, sys: Sys<S>, nodes: set<NodeID>, todo: seq<(NodeID, NodeID)>)
    requires sys.lanes.Keys == nodes && (forall t | t in todo :: Settled(sys, t.0, t.1))
    requires forall t :: t in todo <==> t in set i, j | i in nodes && j in nodes :: (i, j)
    ensures Quiescent(c, sys)
  {
    forall i, j | i in nodes && j in nodes && i != j ensures DeltaFor(c, sys.lanes[i], j).upto == 0 {
      var t := (i, j);
      assert t in todo;
      assert Settled(sys, t.0, t.1);
    }
  }
}
