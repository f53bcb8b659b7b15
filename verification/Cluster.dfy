/** A cluster running the gossip protocol of one CRDT type over a network that may lose, duplicate
    and reorder messages, and the safety of its acknowledgements over every run. */
module Cluster {
  import opened Bands
  import opened Gossip

  datatype Packet<S> =
    | Update(src: NodeID, dst: NodeID, payload: Payload<S>)
    | Confirm(src: NodeID, dst: NodeID, upto: nat)

  /** sent holds every packet ever sent; delivering does not remove it, so a packet can be delivered
      never, once or many times, in any order. */
  datatype Sys<S> = Sys(lanes: map<NodeID, Lane<S>>, sent: seq<Packet<S>>)

  ghost predicate Init<S>(sys: Sys<S>) {
    sys.sent == [] && forall i | i in sys.lanes :: sys.lanes[i] == NewLane()
  }

  // ---------------------------------------------------------------- steps

  ghost predicate WriteStep<S, A>(c: Carrier<S, A>, sys: Sys<S>, sys': Sys<S>, i: NodeID, d: Delta<S>) {
    i in sys.lanes && sys' == sys.(lanes := sys.lanes[i := Record(c, sys.lanes[i], d)])
  }

  ghost predicate SendStep<S, A>(c: Carrier<S, A>, sys: Sys<S>, sys': Sys<S>, i: NodeID, j: NodeID) {
    && i in sys.lanes && j in sys.lanes
    && sys' == sys.(sent := sys.sent + [Update(i, j, DeltaFor(c, sys.lanes[i], j))])
  }

  /** The keys of a map, each once, in some order. */
  ghost predicate Enumerates<S>(order: seq<Key>, content: map<Key, S>) {
    && (forall k :: k in order <==> k in content)
    && forall a, b | 0 <= a < b < |order| :: order[a] != order[b]
  }

  ghost predicate MergeStep<S, A>(c: Carrier<S, A>, sys: Sys<S>, sys': Sys<S>, p: Packet<S>, order: seq<Key>) {
    && p in sys.sent && p.Update? && p.dst in sys.lanes
    && Enumerates(order, p.payload.content)
    && sys' == Sys(sys.lanes[p.dst := MergeKeys(c, sys.lanes[p.dst], p.payload.content, order)],
                   sys.sent + [Confirm(p.dst, p.src, p.payload.upto)])
  }

  ghost predicate AckStep<S>(sys: Sys<S>, sys': Sys<S>, p: Packet<S>) {
    && p in sys.sent && p.Confirm? && p.dst in sys.lanes
    && sys' == sys.(lanes := sys.lanes[p.dst := RecordAck(sys.lanes[p.dst], p.src, p.upto)])
  }

  /** A step of the protocol proper: everything but a client write. */
  ghost predicate GossipStep<S(!new), A>(c: Carrier<S, A>, sys: Sys<S>, sys': Sys<S>) {
    || (exists i, j :: SendStep(c, sys, sys', i, j))
    || (exists p, order :: MergeStep(c, sys, sys', p, order))
    || (exists p :: AckStep(sys, sys', p))
  }

  // ---------------------------------------------------------------- invariant

  /** The acknowledgement n of j for i is true: n is a sequence number i has reached and j knows
      everything i knew then. */
  ghost predicate AckTrue<S, A>(c: Carrier<S, A>, sys: Sys<S>, i: NodeID, j: NodeID, n: nat) {
    && i in sys.lanes && j in sys.lanes && n <= sys.lanes[i].Seq()
    && Dominates(c, sys.lanes[j].state, StateAt(c, sys.lanes[i], n))
  }

  /** An update in flight starts at a state its receiver dominates and leads to the state its sender
      had at the number it carries. */
  ghost predicate UpdateTrue<S, A>(c: Carrier<S, A>, sys: Sys<S>, i: NodeID, j: NodeID, m: Payload<S>) {
    && AckTrue(c, sys, i, j, m.start) && m.upto <= sys.lanes[i].Seq()
    && (m.upto == 0 ==> m.content == map[])
    && (m.upto > 0 ==>
          && m.start < m.upto
          && Merged(c, StateAt(c, sys.lanes[i], m.start), m.content, StateAt(c, sys.lanes[i], m.upto)))
  }

  ghost predicate PacketTrue<S, A>(c: Carrier<S, A>, sys: Sys<S>, p: Packet<S>) {
    match p
    case Update(i, j, m) => UpdateTrue(c, sys, i, j, m)
    case Confirm(j, i, n) => AckTrue(c, sys, i, j, n)
  }

  /** Every state is the replay of its delta buffer. */
  ghost predicate Buffered<S, A>(c: Carrier<S, A>, l: Lane<S>) {
    l.state == Replay(c, l.buf)
  }

  ghost predicate Safe<S(!new), A>(c: Carrier<S, A>, sys: Sys<S>) {
    && (forall i | i in sys.lanes :: Buffered(c, sys.lanes[i]))
    && (forall i, j | i in sys.lanes && j in sys.lanes[i].acks :: AckTrue(c, sys, i, j, sys.lanes[i].acks[j]))
    && (forall p | p in sys.sent :: PacketTrue(c, sys, p))
  }

  // ---------------------------------------------------------------- the values in a cluster

  /** P holds of every value anywhere in the cluster: stores, delta buffers and packets. */
  ghost predicate LaneHolds<S>(P: (Key, S) -> bool, l: Lane<S>) {
    && (forall k | k in l.state :: P(k, l.state[k]))
    && (forall n | 0 <= n < |l.buf| :: P(l.buf[n].key, l.buf[n].value))
  }

  ghost predicate MapHolds<S>(P: (Key, S) -> bool, m: map<Key, S>) {
    forall k | k in m :: P(k, m[k])
  }

  ghost predicate Holds<S(!new)>(P: (Key, S) -> bool, sys: Sys<S>) {
    && (forall i | i in sys.lanes :: LaneHolds(P, sys.lanes[i]))
    && (forall p | p in sys.sent && p.Update? :: MapHolds(P, p.payload.content))
  }

  ghost predicate JoinHolds<S, A>(c: Carrier<S, A>, P: (Key, S) -> bool, k: Key, x: S, y: S) {
    P(k, x) && P(k, y) ==> P(k, c.join(x, y))
  }

  ghost predicate Closed<S(!new), A>(c: Carrier<S, A>, P: (Key, S) -> bool) {
    (forall k :: P(k, c.bot)) && forall k, x, y :: JoinHolds(c, P, k, x, y)
  }

  /** The skip test loses nothing on values satisfying P. */
  ghost predicate SkipLosesNothing<S, A>(c: Carrier<S, A>, P: (Key, S) -> bool, k: Key, x: S, m: S) {
    P(k, x) && P(k, m) && c.leq(m, x) ==> c.op(c.view(x), c.view(m)) == c.view(x)
  }

  ghost predicate SkipSound<S(!new), A>(c: Carrier<S, A>, P: (Key, S) -> bool) {
    forall k, x, m :: SkipLosesNothing(c, P, k, x, m)
  }

  lemma {:induction false} GatherHolds<S(!new), A(!new)>(c: Carrier<S, A>, P: (Key, S) -> bool, buf: seq<Delta<S>>)
    requires Closed(c, P)
    requires forall n | 0 <= n < |buf| :: P(buf[n].key, buf[n].value)
    ensures MapHolds(P, Gather(c, buf))
  {
    if buf != [] {
      var acc, d := Gather(c, buf[..|buf| - 1]), buf[|buf| - 1];
      GatherHolds(c, P, buf[..|buf| - 1]);
      assert d.key in acc ==> JoinHolds(c, P, d.key, acc[d.key], d.value);
    }
  }

  lemma RecordHolds<S(!new), A(!new)>(c: Carrier<S, A>, P: (Key, S) -> bool, l: Lane<S>, d: Delta<S>)
    requires Closed(c, P) && LaneHolds(P, l) && P(d.key, d.value)
    ensures LaneHolds(P, Record(c, l, d))
  {
    assert JoinHolds(c, P, d.key, ValueOr(c, l.state, d.key), d.value);
  }

  lemma WriteHolds<S(!new), A(!new)>(c: Carrier<S, A>, P: (Key, S) -> bool, sys: Sys<S>, sys': Sys<S>, i: NodeID,
                                     d: Delta<S>)
    requires Closed(c, P) && Holds(P, sys) && P(d.key, d.value) && WriteStep(c, sys, sys', i, d)
    ensures Holds(P, sys')
  {
    RecordHolds(c, P, sys.lanes[i], d);
  }

  lemma {:induction false} MergeKeysHolds<S(!new), A(!new)>(c: Carrier<S, A>, P: (Key, S) -> bool, l: Lane<S>,
                                                            content: map<Key, S>, order: seq<Key>)
    requires Closed(c, P) && LaneHolds(P, l) && MapHolds(P, content)
    requires forall k | k in order :: k in content
    ensures LaneHolds(P, MergeKeys(c, l, content, order))
  {
    if order != [] {
      var k := order[|order| - 1];
      MergeKeysHolds(c, P, l, content, order[..|order| - 1]);
      RecordHolds(c, P, MergeKeys(c, l, content, order[..|order| - 1]), Delta(k, content[k]));
    }
  }

  lemma GossipHolds<S(!new), A(!new)>(c: Carrier<S, A>, P: (Key, S) -> bool, sys: Sys<S>, sys': Sys<S>)
    requires Closed(c, P) && Holds(P, sys) && GossipStep(c, sys, sys')
    ensures Holds(P, sys')
  {
    if i, j :| SendStep(c, sys, sys', i, j) {
      var a := sys.lanes[i].Acked(j);
      if 0 < a < sys.lanes[i].Seq() {
        GatherHolds(c, P, sys.lanes[i].buf[a - 1..]);
      }
    } else if p, order :| MergeStep(c, sys, sys', p, order) {
      MergeKeysHolds(c, P, sys.lanes[p.dst], p.payload.content, order);
    }
  }

  // ---------------------------------------------------------------- preservation

  lemma RecordBuffered<S(!new), A(!new)>(c: Carrier<S, A>, l: Lane<S>, d: Delta<S>)
    requires Buffered(c, l)
    ensures Buffered(c, Record(c, l, d))
  {
    assert (l.buf + [d])[..|l.buf|] == l.buf;
  }

  /** Merging a message, skips included, has the observable effect of merging its whole content. */
  lemma {:induction false} MergeKeysMerged<S(!new), A(!new)>(c: Carrier<S, A>, P: (Key, S) -> bool, l: Lane<S>,
                                                             content: map<Key, S>, order: seq<Key>)
    requires Laws(c) && Closed(c, P) && SkipSound(c, P)
    requires Buffered(c, l) && LaneHolds(P, l) && MapHolds(P, content)
    requires forall k | k in order :: k in content
    requires forall a, b | 0 <= a < b < |order| :: order[a] != order[b]
    ensures Buffered(c, MergeKeys(c, l, content, order))
            && MergedSoFar(c, l, MergeKeys(c, l, content, order), content, order)
  {
    if order != [] {
      var o, k := order[..|order| - 1], order[|order| - 1];
      MergeKeysMerged(c, P, l, content, o);
      MergeKeysHolds(c, P, l, content, o);
      assert order == o + [k] && k !in o;
      MergeKeyMerged(c, P, l, MergeKeys(c, l, content, o), content, o, k);
    }
  }

  /** r is l after the keys of order were merged, observably. */
  ghost predicate MergedSoFar<S, A>(c: Carrier<S, A>, l: Lane<S>, r: Lane<S>, content: map<Key, S>, order: seq<Key>)
    requires forall k | k in order :: k in content
  {
    && l.buf <= r.buf && r.acks == l.acks
    && (forall k :: k in r.state <==> k in l.state || k in order)
    && (forall k | k in r.state && k !in order :: r.state[k] == l.state[k])
    && (forall k | k in order :: c.view(r.state[k]) == c.op(c.view(ValueOr(c, l.state, k)), c.view(content[k])))
  }

  lemma MergeKeyMerged<S(!new), A(!new)>(c: Carrier<S, A>, P: (Key, S) -> bool, l: Lane<S>, mid: Lane<S>,
                                         content: map<Key, S>, o: seq<Key>, k: Key)
    requires Laws(c) && SkipSound(c, P) && k in content && k !in o && forall q | q in o :: q in content
    requires Buffered(c, mid) && LaneHolds(P, mid) && P(k, content[k]) && MergedSoFar(c, l, mid, content, o)
    ensures var r := MergeKey(c, mid, Delta(k, content[k])); Buffered(c, r) && MergedSoFar(c, l, r, content, o + [k])
  {
    RecordBuffered(c, mid, Delta(k, content[k]));
    assert ValueOr(c, mid.state, k) == ValueOr(c, l.state, k);
    assert ViewOfJoin(c, ValueOr(c, l.state, k), content[k]);
    if k in mid.state {
      assert SkipLosesNothing(c, P, k, mid.state[k], content[k]);
    }
  }

  /** lanes may have grown: what was true of acknowledgements and packets stays true. */
  ghost predicate Grown<S, A>(c: Carrier<S, A>, l: Lane<S>, l': Lane<S>) {
    Buffered(c, l) && Buffered(c, l') && l.buf <= l'.buf
  }

  lemma AckStable<S(!new), A(!new)>(c: Carrier<S, A>, sys: Sys<S>, sys': Sys<S>, i: NodeID, j: NodeID, n: nat)
    requires Laws(c) && AckTrue(c, sys, i, j, n)
    requires i in sys'.lanes && Grown(c, sys.lanes[i], sys'.lanes[i])
    requires j in sys'.lanes && Grown(c, sys.lanes[j], sys'.lanes[j])
    ensures AckTrue(c, sys', i, j, n) && StateAt(c, sys'.lanes[i], n) == StateAt(c, sys.lanes[i], n)
  {
    if n > 0 {
      assert sys'.lanes[i].buf[..n - 1] == sys.lanes[i].buf[..n - 1];
    }
    ReplayGrows(c, sys.lanes[j].buf, sys'.lanes[j].buf, StateAt(c, sys.lanes[i], n));
  }

  lemma PacketStable<S(!new), A(!new)>(c: Carrier<S, A>, sys: Sys<S>, sys': Sys<S>, p: Packet<S>)
    requires Laws(c) && PacketTrue(c, sys, p) && sys.lanes.Keys <= sys'.lanes.Keys
    requires forall i | i in sys.lanes :: Grown(c, sys.lanes[i], sys'.lanes[i])
    ensures PacketTrue(c, sys', p)
  {
    match p
    case Confirm(j, i, n) => AckStable(c, sys, sys', i, j, n);
    case Update(i, j, m) =>
      AckStable(c, sys, sys', i, j, m.start);
      if m.upto > 0 {
        assert sys'.lanes[i].buf[..m.upto - 1] == sys.lanes[i].buf[..m.upto - 1];
      }
  }

  /** The general step: if every lane only grew, only new acknowledgements and packets need a reason. */
  lemma SafeStable<S(!new), A(!new)>(c: Carrier<S, A>, sys: Sys<S>, sys': Sys<S>)
    requires Laws(c) && Safe(c, sys) && sys.lanes.Keys == sys'.lanes.Keys
    requires forall i | i in sys.lanes :: Grown(c, sys.lanes[i], sys'.lanes[i])
    requires forall i, j | i in sys'.lanes && j in sys'.lanes[i].acks ::
               || (j in sys.lanes[i].acks && sys'.lanes[i].acks[j] == sys.lanes[i].acks[j])
               || AckTrue(c, sys', i, j, sys'.lanes[i].acks[j])
    requires forall p | p in sys'.sent :: p in sys.sent || PacketTrue(c, sys', p)
    ensures Safe(c, sys')
  {
    forall i, j | i in sys'.lanes && j in sys'.lanes[i].acks
      ensures AckTrue(c, sys', i, j, sys'.lanes[i].acks[j])
    {
      if j in sys.lanes[i].acks && sys'.lanes[i].acks[j] == sys.lanes[i].acks[j] {
        AckStable(c, sys, sys', i, j, sys'.lanes[i].acks[j]);
      }
    }
    forall p | p in sys'.sent ensures PacketTrue(c, sys', p) {
      if p in sys.sent {
        PacketStable(c, sys, sys', p);
      }
    }
  }

  lemma WriteSafe<S(!new), A(!new)>(c: Carrier<S, A>, sys: Sys<S>, sys': Sys<S>, i: NodeID, d: Delta<S>)
    requires Laws(c) && Safe(c, sys) && WriteStep(c, sys, sys', i, d)
    ensures Safe(c, sys')
  {
    RecordBuffered(c, sys.lanes[i], d);
    SafeStable(c, sys, sys');
  }

  /** Merging what Delta sends into the state it starts from gives the sender's state. */
  lemma DeltaReachesState<S(!new), A(!new)>(c: Carrier<S, A>, l: Lane<S>, peer: NodeID)
    requires Laws(c) && Buffered(c, l) && l.Acked(peer) < l.Seq()
    ensures var m := DeltaFor(c, l, peer);
            m.start == l.Acked(peer) && m.upto == l.Seq() &&
            Merged(c, StateAt(c, l, m.start), m.content, StateAt(c, l, m.upto))
  {
    var a := l.Acked(peer);
    assert l.buf[..|l.buf|] == l.buf;
    if a == 0 {
      ReplayRooted(c, l.buf);
    } else {
      ReplayGather(c, l.buf[..a - 1], l.buf[a - 1..]);
      assert l.buf[..a - 1] + l.buf[a - 1..] == l.buf;
    }
  }

  lemma SendSafe<S(!new), A(!new)>(c: Carrier<S, A>, sys: Sys<S>, sys': Sys<S>, i: NodeID, j: NodeID)
    requires Laws(c) && Safe(c, sys) && SendStep(c, sys, sys', i, j)
    ensures Safe(c, sys')
  {
    var l := sys.lanes[i];
    assert AckTrue(c, sys, i, j, l.Acked(j));
    if l.Acked(j) < l.Seq() {
      DeltaReachesState(c, l, j);
    }
    var p := Update(i, j, DeltaFor(c, sys.lanes[i], j));
    PacketStable(c, sys, sys', p);
    SafeStable(c, sys, sys');
  }

  /** Merging a true update has the effect of merging the whole state its sender had, and the receiver
      then dominates that state. */
  lemma MergeReaches<S(!new), A(!new)>(c: Carrier<S, A>, P: (Key, S) -> bool, l: Lane<S>, m: Payload<S>,
                                       x: map<Key, S>, y: map<Key, S>, order: seq<Key>)
    requires Laws(c) && Closed(c, P) && SkipSound(c, P)
    requires Buffered(c, l) && LaneHolds(P, l) && MapHolds(P, m.content) && Enumerates(order, m.content)
    requires Dominates(c, l.state, x) && Merged(c, x, m.content, y)
    ensures var r := MergeKeys(c, l, m.content, order); Merged(c, l.state, y, r.state) && Dominates(c, r.state, y)
  {
    var r := MergeKeys(c, l, m.content, order);
    MergeKeysMerged(c, P, l, m.content, order);
    assert Merged(c, l.state, m.content, r.state);
    ReplayRooted(c, l.buf);
    DeltaIsFullState(c, l.state, x, m.content, y, r.state);
  }

  lemma MergeGrows<S(!new), A(!new)>(c: Carrier<S, A>, P: (Key, S) -> bool, l: Lane<S>, content: map<Key, S>,
                                     order: seq<Key>)
    requires Laws(c) && Closed(c, P) && SkipSound(c, P)
    requires Buffered(c, l) && LaneHolds(P, l) && MapHolds(P, content) && Enumerates(order, content)
    ensures var r := MergeKeys(c, l, content, order); Grown(c, l, r) && r.acks == l.acks
  {
    MergeKeysMerged(c, P, l, content, order);
  }

  /** The acknowledgement of a merge is true. */
  lemma MergeAckTrue<S(!new), A(!new)>(c: Carrier<S, A>, sys: Sys<S>, sys': Sys<S>, i: NodeID, j: NodeID, n: nat)
    requires i in sys.lanes && i in sys'.lanes && j in sys'.lanes && n <= sys.lanes[i].Seq()
    requires sys.lanes[i].buf <= sys'.lanes[i].buf
    requires n > 0 ==> Dominates(c, sys'.lanes[j].state, StateAt(c, sys.lanes[i], n))
    ensures AckTrue(c, sys', i, j, n)
  {
    if n > 0 {
      assert sys'.lanes[i].buf[..n - 1] == sys.lanes[i].buf[..n - 1];
    }
  }

  lemma MergeSafe<S(!new), A(!new)>(c: Carrier<S, A>, P: (Key, S) -> bool, sys: Sys<S>, sys': Sys<S>, p: Packet<S>,
                                    order: seq<Key>)
    requires Laws(c) && Closed(c, P) && SkipSound(c, P)
    requires Safe(c, sys) && Holds(P, sys) && MergeStep(c, sys, sys', p, order)
    ensures Safe(c, sys')
    ensures p.payload.upto > 0 ==>
              && p.src in sys.lanes && p.payload.upto <= sys.lanes[p.src].Seq()
              && Merged(c, sys.lanes[p.dst].state, StateAt(c, sys.lanes[p.src], p.payload.upto),
                        sys'.lanes[p.dst].state)
  {
    var i, j, m := p.src, p.dst, p.payload;
    var l := sys.lanes[j];
    assert UpdateTrue(c, sys, i, j, m) by { assert PacketTrue(c, sys, p); }
    assert Buffered(c, l) && LaneHolds(P, l) && MapHolds(P, m.content);
    MergeGrows(c, P, l, m.content, order);
    if m.upto > 0 {
      MergeReaches(c, P, l, m, StateAt(c, sys.lanes[i], m.start), StateAt(c, sys.lanes[i], m.upto), order);
    }
    MergeAckTrue(c, sys, sys', i, j, m.upto);
    MergeSafeStable(c, sys, sys', p);
  }

  lemma MergeSafeStable<S(!new), A(!new)>(c: Carrier<S, A>, sys: Sys<S>, sys': Sys<S>, p: Packet<S>)
    requires Laws(c) && Safe(c, sys) && p.Update? && p.dst in sys.lanes && p.dst in sys'.lanes
    requires Grown(c, sys.lanes[p.dst], sys'.lanes[p.dst]) && sys'.lanes[p.dst].acks == sys.lanes[p.dst].acks
    requires sys'.lanes == sys.lanes[p.dst := sys'.lanes[p.dst]]
    requires sys'.sent == sys.sent + [Confirm(p.dst, p.src, p.payload.upto)]
    requires AckTrue(c, sys', p.src, p.dst, p.payload.upto)
    ensures Safe(c, sys')
  {
    SafeStable(c, sys, sys');
  }

  lemma AckSafe<S(!new), A(!new)>(c: Carrier<S, A>, sys: Sys<S>, sys': Sys<S>, p: Packet<S>)
    requires Laws(c) && Safe(c, sys) && AckStep(sys, sys', p)
    ensures Safe(c, sys')
  {
    assert PacketTrue(c, sys, p);
    AckStable(c, sys, sys', p.dst, p.src, p.upto);
    SafeStable(c, sys, sys');
  }

  /** Every protocol step keeps every acknowledgement and every packet true. */
  lemma GossipSafe<S(!new), A(!new)>(c: Carrier<S, A>, P: (Key, S) -> bool, sys: Sys<S>, sys': Sys<S>)
    requires Laws(c) && Closed(c, P) && SkipSound(c, P)
    requires Safe(c, sys) && Holds(P, sys) && GossipStep(c, sys, sys')
    ensures Safe(c, sys') && Holds(P, sys')
  {
    GossipHolds(c, P, sys, sys');
    if i, j :| SendStep(c, sys, sys', i, j) {
      SendSafe(c, sys, sys', i, j);
    } else if p, order :| MergeStep(c, sys, sys', p, order) {
      MergeSafe(c, P, sys, sys', p, order);
    } else if p :| AckStep(sys, sys', p) {
      AckSafe(c, sys, sys', p);
    }
  }

  /** A protocol step never makes a replica forget anything. */
  lemma GossipGrows<S(!new), A(!new)>(c: Carrier<S, A>, P: (Key, S) -> bool, sys: Sys<S>, sys': Sys<S>)
    requires Laws(c) && Closed(c, P) && SkipSound(c, P)
    requires Safe(c, sys) && Holds(P, sys) && GossipStep(c, sys, sys')
    ensures sys'.lanes.Keys == sys.lanes.Keys
    ensures forall i | i in sys.lanes :: Dominates(c, sys'.lanes[i].state, sys.lanes[i].state)
  {
    forall i | i in sys.lanes ensures i in sys'.lanes && Dominates(c, sys'.lanes[i].state, sys.lanes[i].state) {
      DominatesSelf(c, sys.lanes[i].state);
      if p, order :| MergeStep(c, sys, sys', p, order) && p.dst == i {
        MergeKeysMerged(c, P, sys.lanes[i], p.payload.content, order);
        ReplayGrows(c, sys.lanes[i].buf, sys'.lanes[i].buf, sys.lanes[i].state);
      }
    }
  }

  // ---------------------------------------------------------------- quiescence

  /** Delta has nothing to send from any node to any other. */
  ghost predicate Quiescent<S, A>(c: Carrier<S, A>, sys: Sys<S>) {
    forall i, j | i in sys.lanes && j in sys.lanes && i != j :: DeltaFor(c, sys.lanes[i], j).upto == 0
  }

  /** When there is nothing left to send, every replica knows what every other knows. */
  lemma QuiescentDominates<S(!new), A(!new)>(c: Carrier<S, A>, sys: Sys<S>, i: NodeID, j: NodeID)
    requires Laws(c) && Safe(c, sys) && Quiescent(c, sys)
    requires i in sys.lanes && j in sys.lanes
    ensures Dominates(c, sys.lanes[j].state, sys.lanes[i].state)
  {
    var l := sys.lanes[i];
    if i == j {
      DominatesSelf(c, l.state);
    } else {
      assert DeltaFor(c, l, j).upto == 0;
      assert AckTrue(c, sys, i, j, l.acks[j]);
      assert l.buf[..l.Seq() - 1] == l.buf;
    }
  }
}
