/** What the acknowledgements are worth after a crash.  A restarted node comes back with an empty store
    under its old id, while its peers keep the acknowledgements it gave before. */
module RestartGap {
  import opened Bands
  import opened Gossip
  import opened Cluster
  import opened Convergence
  import opened Settling

  /** Node j restarts, and some of the packets sent before can still be delivered. */
  ghost predicate Restarts<S(!new)>(sys: Sys<S>, sys': Sys<S>, j: NodeID) {
    j in sys.lanes && sys'.lanes == sys.lanes[j := NewLane()] && forall p | p in sys'.sent :: p in sys.sent
  }

  lemma EmptyIff<S, A>(c: Carrier<S, A>, buf: seq<Delta<S>>)
    ensures Replay(c, buf) == map[] <==> buf == []
  {
    if buf != [] {
      assert buf[|buf| - 1].key in Replay(c, buf);
    }
  }

  /** What i recorded for j stays true through a restart of j exactly when i had recorded nothing to
      forget: no acknowledgement, or one of the empty store. */
  lemma RestartKeepsAckIff<S(!new), A>(c: Carrier<S, A>, sys: Sys<S>, sys': Sys<S>, i: NodeID, j: NodeID)
    requires Safe(c, sys) && Restarts(sys, sys', j) && i in sys.lanes && i != j
    ensures AckTrue(c, sys', i, j, sys.lanes[i].Acked(j)) <==> sys.lanes[i].Acked(j) <= 1
  {
    var l, n := sys.lanes[i], sys.lanes[i].Acked(j);
    if j in l.acks {
      assert AckTrue(c, sys, i, j, l.acks[j]);
    }
    if n > 0 {
      EmptyIff(c, l.buf[..n - 1]);
      if n > 1 {
        assert l.buf[n - 2].key in Replay(c, l.buf[..n - 1]);
      }
    }
  }

  // ---------------------------------------------------------------- the gap

  /** Node i has a store, believes j has all of it, and j is empty. */
  ghost predicate Stuck<S(!new)>(sys: Sys<S>, i: NodeID, j: NodeID, l: Lane<S>) {
    && i != j && sys.lanes.Keys == {i, j} && l.buf != []
    && sys.lanes[i].state == l.state && sys.lanes[i].buf == l.buf && sys.lanes[i].Acked(j) == l.Seq()
    && sys.lanes[j].state == map[] && sys.lanes[j].buf == []
    && forall p | p in sys.sent :: Idle(p, i, l)
  }

  /** A packet that carries no key, and to i no number beyond its own. */
  ghost predicate Idle<S>(p: Packet<S>, i: NodeID, l: Lane<S>) {
    match p
    case Update(src, _, m) => m.content == map[] && (src == i ==> m.upto <= l.Seq())
    case Confirm(_, dst, n) => dst == i ==> n <= l.Seq()
  }

  ghost predicate NoSelfSends<S(!new)>(sys: Sys<S>) {
    forall p | p in sys.sent :: p.src != p.dst
  }

  ghost predicate NoKeysInFlight<S(!new)>(sys: Sys<S>) {
    forall p | p in sys.sent && p.Update? :: p.payload.content == map[]
  }

  lemma RestartSticks<S(!new), A>(c: Carrier<S, A>, sys: Sys<S>, sys': Sys<S>, i: NodeID, j: NodeID)
    requires Safe(c, sys) && i != j && sys.lanes.Keys == {i, j} && sys.lanes[i].Acked(j) == sys.lanes[i].Seq() > 1
    requires Restarts(sys, sys', j) && NoKeysInFlight(sys')
    ensures Stuck(sys', i, j, sys.lanes[i])
  {
    forall p | p in sys'.sent ensures Idle(p, i, sys.lanes[i]) {
      assert PacketTrue(c, sys, p);
    }
  }

  lemma StuckStep<S(!new), A>(c: Carrier<S, A>, sys: Sys<S>, sys': Sys<S>, i: NodeID, j: NodeID, l: Lane<S>)
    requires Stuck(sys, i, j, l) && GossipStep(c, sys, sys') && NoSelfSends(sys')
    ensures Stuck(sys', i, j, l)
  {
    if a, b :| SendStep(c, sys, sys', a, b) {
      var p := Update(a, b, DeltaFor(c, sys.lanes[a], b));
      assert p in sys'.sent;
    } else if p, order :| MergeStep(c, sys, sys', p, order) {
      NoKeys(order, p.payload.content);
      assert Idle(p, i, l) && p in sys'.sent;
    } else {
      var p :| AckStep(sys, sys', p);
      assert Idle(p, i, l);
    }
  }

  /** The gap: in a cluster of two, when the node that restarts had acknowledged everything and no old update
      with keys is delivered once more, no sequence of protocol steps whatever gives it anything back. */
  lemma {:induction false} RestartedStaysEmpty<S(!new), A>(c: Carrier<S, A>, sys: Sys<S>, i: NodeID, j: NodeID,
                                                           path: seq<Sys<S>>, n: nat)
    requires Safe(c, sys) && i != j && sys.lanes.Keys == {i, j} && sys.lanes[i].Acked(j) == sys.lanes[i].Seq() > 1
    requires IsPath(c, path) && Restarts(sys, path[0], j) && NoKeysInFlight(path[0]) && n < |path|
    requires forall m | 0 <= m < |path| :: NoSelfSends(path[m])
    ensures Stuck(path[n], i, j, sys.lanes[i])
  {
    if n == 0 {
      RestartSticks(c, sys, path[0], i, j);
    } else {
      RestartedStaysEmpty(c, sys, i, j, path, n - 1);
      assert GossipStep(c, path[n - 1], path[n]);
      StuckStep(c, path[n - 1], path[n], i, j, sys.lanes[i]);
    }
  }

  // ---------------------------------------------------------------- that it is reached

  lemma {:induction false} PathGrows<S(!new), A(!new)>(c: Carrier<S, A>, P: (Key, S) -> bool, path: seq<Sys<S>>,
                                                       n: nat, i: NodeID)
    requires IsPath(c, path) && n < |path| && Healthy(c, P, path[0]) && i in path[0].lanes
    ensures Healthy(c, P, path[n]) && i in path[n].lanes && Dominates(c, path[n].lanes[i].state, path[0].lanes[i].state)
  {
    if n == 0 {
      DominatesSelf(c, path[0].lanes[i].state);
    } else {
      PathGrows(c, P, path, n - 1, i);
      assert GossipStep(c, path[n - 1], path[n]);
      GossipSafe(c, P, path[n - 1], path[n]);
      GossipGrows(c, P, path[n - 1], path[n]);
      DominatesTransitive(c, path[n].lanes[i].state, path[n - 1].lanes[i].state, path[0].lanes[i].state);
    }
  }

  /** From every state of a cluster of two in which i has written or merged anything, the protocol can reach
      one in which j has acknowledged all of it: the state a restart then falls from. */
  lemma GapIsReached<S(!new), A(!new)>(c: Carrier<S, A>, P: (Key, S) -> bool, sys: Sys<S>, i: NodeID, j: NodeID)
    returns (path: seq<Sys<S>>, sys': Sys<S>)
    requires Healthy(c, P, sys) && SkipComplete(c) && i != j && sys.lanes.Keys == {i, j} && sys.lanes[i].buf != []
    ensures Leads(c, path, sys, sys') && Safe(c, sys') && sys'.lanes.Keys == {i, j}
    ensures sys'.lanes[i].Acked(j) == sys'.lanes[i].Seq() > 1
  {
    assert forall k :: k in sys.lanes <==> k == i || k in [j];
    path, sys' := ComesToRest(c, P, sys, i, [j]);
    PathGrows(c, P, path, |path| - 1, i);
    RestIsAcked(c, sys, sys', i, j);
  }

  lemma RestIsAcked<S(!new), A>(c: Carrier<S, A>, sys: Sys<S>, sys': Sys<S>, i: NodeID, j: NodeID)
    requires Safe(c, sys) && Safe(c, sys') && Quiescent(c, sys') && i != j && i in sys'.lanes && j in sys'.lanes
    requires i in sys.lanes && sys.lanes[i].buf != [] && Dominates(c, sys'.lanes[i].state, sys.lanes[i].state)
    ensures sys'.lanes[i].Acked(j) == sys'.lanes[i].Seq() > 1
  {
    var l := sys'.lanes[i];
    assert DeltaFor(c, l, j).upto == 0;
    assert AckTrue(c, sys', i, j, l.acks[j]);
    assert Buffered(c, sys.lanes[i]) && Buffered(c, l);
    EmptyIff(c, sys.lanes[i].buf);
    EmptyIff(c, l.buf);
  }
}
