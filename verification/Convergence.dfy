/** What the protocol sends, and that it converges: from every safe state, a sweep of exchanges towards
    one node and a sweep back make all replicas know the same. */
module Convergence {
  import opened Bands
  import opened Gossip
  import opened Cluster

  // ---------------------------------------------------------------- single lanes

  lemma {:induction false} GatherKeys<S, A>(c: Carrier<S, A>, buf: seq<Delta<S>>, k: Key)
    ensures k in Gather(c, buf) <==> exists n :: 0 <= n < |buf| && buf[n].key == k
  {
    if buf != [] {
      var rest := buf[..|buf| - 1];
      GatherKeys(c, rest, k);
      assert forall n | 0 <= n < |rest| :: rest[n] == buf[n];
    }
  }

  /** An interval covers exactly the gap: it carries the keys recorded since the acknowledgement (entry n
      of the buffer has number n + 1). */
  lemma DeltaCoversGap<S, A>(c: Carrier<S, A>, l: Lane<S>, peer: NodeID, k: Key)
    requires 0 < l.Acked(peer) < l.Seq()
    ensures k in DeltaFor(c, l, peer).content <==> exists n :: l.Acked(peer) - 1 <= n < |l.buf| && l.buf[n].key == k
  {
    var a := l.Acked(peer) - 1;
    var tail := l.buf[a..];
    GatherKeys(c, tail, k);
    if n :| 0 <= n < |tail| && tail[n].key == k {
      assert l.buf[n + a].key == k;
    }
    if n :| a <= n < |l.buf| && l.buf[n].key == k {
      assert tail[n - a].key == k;
    }
  }

  /** The values recorded for a key, oldest first. */
  function OfKey<S>(buf: seq<Delta<S>>, k: Key): seq<S> {
    if buf == [] then [] else (if buf[0].key == k then [buf[0].value] else []) + OfKey(buf[1..], k)
  }

  /** The join of a list of values, from the first on. */
  function JoinOf<S, A>(c: Carrier<S, A>, values: seq<S>): S
    requires values != []
  {
    if |values| == 1 then values[0] else c.join(JoinOf(c, values[..|values| - 1]), values[|values| - 1])
  }

  lemma {:induction false} OfKeySnoc<S>(buf: seq<Delta<S>>, d: Delta<S>, k: Key)
    ensures OfKey(buf + [d], k) == OfKey(buf, k) + if d.key == k then [d.value] else []
  {
    if buf == [] {
      assert [d][1..] == [];
    } else {
      assert (buf + [d])[1..] == buf[1..] + [d];
      OfKeySnoc(buf[1..], d, k);
    }
  }

  lemma JoinOfSnoc<S, A>(c: Carrier<S, A>, values: seq<S>, x: S)
    ensures JoinOf(c, values + [x]) == if values == [] then x else c.join(JoinOf(c, values), x)
  {
    assert (values + [x])[..|values|] == values;
  }

  lemma {:induction false} GatherIsJoin<S, A>(c: Carrier<S, A>, buf: seq<Delta<S>>, k: Key)
    ensures k in Gather(c, buf) <==> OfKey(buf, k) != []
    ensures k in Gather(c, buf) ==> Gather(c, buf)[k] == JoinOf(c, OfKey(buf, k))
  {
    if buf != [] {
      var rest, d := buf[..|buf| - 1], buf[|buf| - 1];
      assert buf == rest + [d];
      GatherIsJoin(c, rest, k);
      OfKeySnoc(rest, d, k);
      JoinOfSnoc(c, OfKey(rest, k), d.value);
      if d.key != k {
        assert OfKey(buf, k) == OfKey(rest, k);
      }
    }
  }

  /** What is sent: the whole state before the first acknowledgement; after it, for each key recorded since,
      exactly the join of what was recorded for it since. */
  lemma DeltaCarriesJoins<S, A>(c: Carrier<S, A>, l: Lane<S>, peer: NodeID, k: Key)
    ensures var m, a := DeltaFor(c, l, peer), l.Acked(peer);
            if a == 0 then m.content == l.state && m.upto == l.Seq()
            else if a < l.Seq() then
              && m.upto == l.Seq() && (k in m.content <==> OfKey(l.buf[a - 1..], k) != [])
              && (k in m.content ==> m.content[k] == JoinOf(c, OfKey(l.buf[a - 1..], k)))
            else m.content == map[] && m.upto == 0
  {
    var a := l.Acked(peer);
    if 0 < a < l.Seq() {
      GatherIsJoin(c, l.buf[a - 1..], k);
    }
  }

  /** Acknowledging what was sent leaves nothing to send; no acknowledgement is ever rolled back. */
  lemma AckCompletes<S, A>(c: Carrier<S, A>, l: Lane<S>, peer: NodeID, n: nat)
    ensures DeltaFor(c, RecordAck(l, peer, DeltaFor(c, l, peer).upto), peer).upto == 0
    ensures RecordAck(l, peer, n).Acked(peer) >= l.Acked(peer) && RecordAck(l, peer, n).Acked(peer) >= n
  {}

  /** What merging a message does to one of its keys: skipped, nothing; else the value is merged in, and the
      delta recorded as it came. */
  ghost predicate MergedKey<S, A>(c: Carrier<S, A>, l: Lane<S>, r: Lane<S>, d: Delta<S>) {
    && d.key in r.state && (Recorded(l, r, d.key) <==> !Skips(c, l, d))
    && r.state[d.key] == if Skips(c, l, d) then l.state[d.key] else c.join(ValueOr(c, l.state, d.key), d.value)
  }

  /** r has recorded the key since l. */
  ghost predicate Recorded<S>(l: Lane<S>, r: Lane<S>, k: Key) {
    exists n :: |l.buf| <= n < |r.buf| && r.buf[n].key == k
  }

  ghost predicate SameAt<S>(l: Lane<S>, r: Lane<S>, k: Key) {
    (k in r.state <==> k in l.state) && (k in l.state ==> r.state[k] == l.state[k])
  }

  /** r is l with some deltas of the message recorded, each key at most once. */
  ghost predicate RecordsFrom<S>(l: Lane<S>, r: Lane<S>, content: map<Key, S>, order: seq<Key>) {
    && l.buf <= r.buf && r.acks == l.acks
    && (forall n | |l.buf| <= n < |r.buf| :: r.buf[n].key in order && r.buf[n].key in content
                                             && r.buf[n].value == content[r.buf[n].key])
    && (forall n, m | |l.buf| <= n < m < |r.buf| :: r.buf[n].key != r.buf[m].key)
  }

  /** Store.Merge, exactly: whatever the order of the keys, each key that is news is merged into the state and
      its delta recorded once, as it came; other keys and the acknowledgements stay. */
  lemma {:induction false} MergeRecordsNews<S, A>(c: Carrier<S, A>, l: Lane<S>, content: map<Key, S>, order: seq<Key>)
    requires (forall k | k in order :: k in content) && forall a, b | 0 <= a < b < |order| :: order[a] != order[b]
    ensures var r := MergeKeys(c, l, content, order);
            && RecordsFrom(l, r, content, order)
            && (forall k | k in order :: MergedKey(c, l, r, Delta(k, content[k])))
            && (forall k | k !in order :: SameAt(l, r, k))
  {
    if order != [] {
      var o, k := order[..|order| - 1], order[|order| - 1];
      MergeRecordsNews(c, l, content, o);
      assert order == o + [k];
      assert k !in o;
      MergeOneMore(c, l, MergeKeys(c, l, content, o), content, o, k);
    }
  }

  lemma MergeOneMore<S, A>(c: Carrier<S, A>, l: Lane<S>, mid: Lane<S>, content: map<Key, S>, o: seq<Key>, k: Key)
    requires (forall q | q in o :: q in content) && k in content && k !in o && RecordsFrom(l, mid, content, o)
    requires forall q | q in o :: MergedKey(c, l, mid, Delta(q, content[q]))
    requires forall q | q !in o :: SameAt(l, mid, q)
    ensures var r := MergeKey(c, mid, Delta(k, content[k]));
            && RecordsFrom(l, r, content, o + [k])
            && (forall q | q in o + [k] :: MergedKey(c, l, r, Delta(q, content[q])))
            && (forall q | q !in o + [k] :: SameAt(l, r, q))
  {
    var d := Delta(k, content[k]);
    var r := MergeKey(c, mid, d);
    assert SameAt(l, mid, k);
    assert Skips(c, mid, d) <==> Skips(c, l, d);
    forall q | q !in o + [k] ensures SameAt(l, r, q) {
      assert SameAt(l, mid, q);
    }
    forall q | q in o + [k] ensures MergedKey(c, l, r, Delta(q, content[q])) {
      if q != k {
        assert MergedKey(c, l, mid, Delta(q, content[q]));
        OneMoreRecorded(l, mid, r, d, q);
      } else {
        assert !Recorded(l, mid, k);
        if r != mid {
          assert r.buf[|mid.buf|].key == k;
        }
      }
    }
  }

  lemma OneMoreRecorded<S>(l: Lane<S>, mid: Lane<S>, r: Lane<S>, d: Delta<S>, q: Key)
    requires |l.buf| <= |mid.buf| && (r.buf == mid.buf || r.buf == mid.buf + [d]) && q != d.key
    ensures Recorded(l, r, q) <==> Recorded(l, mid, q)
  {
    if n :| |l.buf| <= n < |mid.buf| && mid.buf[n].key == q {
      assert r.buf[n].key == q;
    }
  }

  /** The skip test recognizes what was just merged. */
  ghost predicate Recognizes<S(!new), A>(c: Carrier<S, A>) {
    forall x, m :: RecognizesAt(c, x, m)
  }

  ghost predicate RecognizesAt<S, A>(c: Carrier<S, A>, x: S, m: S) {
    c.leq(m, c.join(x, m))
  }

  lemma {:induction false} MergeKeysRecognized<S(!new), A>(c: Carrier<S, A>, l: Lane<S>, content: map<Key, S>,
                                                           order: seq<Key>)
    requires Recognizes(c) && (forall k | k in order :: k in content)
    requires forall a, b | 0 <= a < b < |order| :: order[a] != order[b]
    ensures forall k | k in order :: Skips(c, MergeKeys(c, l, content, order), Delta(k, content[k]))
  {
    if order != [] {
      var o, k := order[..|order| - 1], order[|order| - 1];
      MergeKeysRecognized(c, l, content, o);
      var mid := MergeKeys(c, l, content, o);
      assert RecognizesAt(c, ValueOr(c, mid.state, k), content[k]);
      assert order == o + [k];
    }
  }

  lemma {:induction false} AllSkipped<S, A>(c: Carrier<S, A>, l: Lane<S>, content: map<Key, S>, order: seq<Key>)
    requires forall k | k in order :: k in content && Skips(c, l, Delta(k, content[k]))
    ensures MergeKeys(c, l, content, order) == l
  {
    if order != [] {
      AllSkipped(c, l, content, order[..|order| - 1]);
    }
  }

  /** A message delivered again, in any order of its keys, changes and records nothing. */
  lemma RedeliveryIsNoop<S(!new), A>(c: Carrier<S, A>, l: Lane<S>, content: map<Key, S>, first: seq<Key>,
                                     again: seq<Key>)
    requires Recognizes(c) && Enumerates(first, content) && Enumerates(again, content)
    ensures var r := MergeKeys(c, l, content, first); MergeKeys(c, r, content, again) == r
  {
    MergeKeysRecognized(c, l, content, first);
    AllSkipped(c, MergeKeys(c, l, content, first), content, again);
  }

  // ---------------------------------------------------------------- exchanges

  /** Adjacent states are one protocol step apart. */
  ghost predicate IsPath<S(!new), A>(c: Carrier<S, A>, path: seq<Sys<S>>) {
    |path| > 0 && forall n | 0 <= n < |path| - 1 :: GossipStep(c, path[n], path[n + 1])
  }

  ghost predicate Leads<S(!new), A>(c: Carrier<S, A>, path: seq<Sys<S>>, sys: Sys<S>, sys': Sys<S>) {
    IsPath(c, path) && path[0] == sys && path[|path| - 1] == sys'
  }

  lemma Follows<S(!new), A>(c: Carrier<S, A>, p: seq<Sys<S>>, q: seq<Sys<S>>, x: Sys<S>, y: Sys<S>, z: Sys<S>)
    requires Leads(c, p, x, y) && Leads(c, q, y, z)
    ensures Leads(c, p + q[1..], x, z)
  {
    var r := p + q[1..];
    forall n | 0 <= n < |r| - 1 ensures GossipStep(c, r[n], r[n + 1]) {
      if n < |p| - 1 {
        assert GossipStep(c, p[n], p[n + 1]);
      } else {
        var k := n - (|p| - 1);
        assert r[n] == q[k] && r[n + 1] == q[k + 1];
        assert GossipStep(c, q[k], q[k + 1]);
      }
    }
  }

  lemma {:induction false} SomeOrder<S>(content: map<Key, S>) returns (order: seq<Key>)
    ensures Enumerates(order, content)
    decreases |content|
  {
    order := [];
    if k :| k in content {
      var rest := content - {k};
      assert rest.Keys == content.Keys - {k};
      assert |rest.Keys| < |content.Keys|;
      var o := SomeOrder(rest);
      order := o + [k];
      assert k !in o;
      forall q ensures q in order <==> q in content {
        assert q in o <==> q in rest;
      }
    }
  }

  /** All that holds of a safe cluster. */
  ghost predicate Healthy<S(!new), A(!new)>(c: Carrier<S, A>, P: (Key, S) -> bool, sys: Sys<S>) {
    Laws(c) && Closed(c, P) && SkipSound(c, P) && Safe(c, sys) && Holds(P, sys)
  }

  /** Only the replica j changed. */
  ghost predicate OnlyLane<S>(sys: Sys<S>, sys': Sys<S>, j: NodeID) {
    sys'.lanes.Keys == sys.lanes.Keys && forall k | k in sys.lanes && k != j :: sys'.lanes[k] == sys.lanes[k]
  }

  lemma MergedIsDominated<S(!new), A(!new)>(c: Carrier<S, A>, h: map<Key, S>, x: map<Key, S>, r: map<Key, S>)
    requires Laws(c) && Rooted(c, h) && Dominates(c, h, x) && Merged(c, x, h, r)
    ensures Dominates(c, h, r)
  {
    forall k | k in r ensures k in h && c.op(c.view(h[k]), c.view(r[k])) == c.view(h[k]) {
      var hk, xk := c.view(h[k]), c.view(ValueOr(c, x, k));
      if k !in x {
        assert Idem(c.op, xk) && Regular(c.op, xk, hk);
      }
      assert c.op(hk, xk) == hk;
      assert Assoc(c.op, hk, xk, hk) && Idem(c.op, hk);
    }
  }

  lemma SendTo<S(!new), A(!new)>(c: Carrier<S, A>, P: (Key, S) -> bool, sys: Sys<S>, i: NodeID, j: NodeID)
    returns (mid: Sys<S>)
    requires Healthy(c, P, sys) && i in sys.lanes && j in sys.lanes
    ensures Healthy(c, P, mid) && GossipStep(c, sys, mid)
    ensures mid == sys.(sent := sys.sent + [Update(i, j, DeltaFor(c, sys.lanes[i], j))])
  {
    mid := sys.(sent := sys.sent + [Update(i, j, DeltaFor(c, sys.lanes[i], j))]);
    assert SendStep(c, sys, mid, i, j);
    GossipSafe(c, P, sys, mid);
  }

  lemma MergeAt<S(!new), A(!new)>(c: Carrier<S, A>, P: (Key, S) -> bool, mid: Sys<S>, p: Packet<S>)
    returns (sys': Sys<S>)
    requires Healthy(c, P, mid) && p in mid.sent && p.Update? && p.dst in mid.lanes
    ensures Healthy(c, P, sys') && GossipStep(c, mid, sys') && OnlyLane(mid, sys', p.dst)
    ensures Dominates(c, sys'.lanes[p.dst].state, mid.lanes[p.dst].state)
    ensures p.payload.upto > 0 ==>
              && p.src in mid.lanes && p.payload.upto <= mid.lanes[p.src].Seq()
              && Merged(c, mid.lanes[p.dst].state, StateAt(c, mid.lanes[p.src], p.payload.upto),
                        sys'.lanes[p.dst].state)
    ensures p.payload.content == map[] ==> sys'.lanes[p.dst] == mid.lanes[p.dst]
  {
    var order := SomeOrder(p.payload.content);
    sys' := Sys(mid.lanes[p.dst := MergeKeys(c, mid.lanes[p.dst], p.payload.content, order)],
                mid.sent + [Confirm(p.dst, p.src, p.payload.upto)]);
    assert MergeStep(c, mid, sys', p, order);
    GossipSafe(c, P, mid, sys');
    GossipGrows(c, P, mid, sys');
    MergeSafe(c, P, mid, sys', p, order);
    NoKeys(order, p.payload.content);
  }

  lemma NoKeys<S>(order: seq<Key>, content: map<Key, S>)
    requires Enumerates(order, content)
    ensures content == map[] ==> order == []
  {
    if order != [] {
      assert order[0] in order;
    }
  }

  lemma TwoSteps<S(!new), A>(c: Carrier<S, A>, x: Sys<S>, y: Sys<S>, z: Sys<S>)
    requires GossipStep(c, x, y) && GossipStep(c, y, z)
    ensures Leads(c, [x, y, z], x, z)
  {
    var path := [x, y, z];
    forall n | 0 <= n < |path| - 1 ensures GossipStep(c, path[n], path[n + 1]) {
      if n == 0 {
      } else {
        assert path[n] == y && path[n + 1] == z;
      }
    }
  }

  /** One exchange: i sends, j merges.  Then j dominates what i knew, only j changed, and if i dominated j
      it still does. */
  lemma Exchange<S(!new), A(!new)>(c: Carrier<S, A>, P: (Key, S) -> bool, sys: Sys<S>, i: NodeID, j: NodeID)
    returns (path: seq<Sys<S>>, sys': Sys<S>)
    requires Healthy(c, P, sys) && i in sys.lanes && j in sys.lanes && i != j
    ensures Healthy(c, P, sys') && Leads(c, path, sys, sys') && OnlyLane(sys, sys', j)
    ensures Dominates(c, sys'.lanes[j].state, sys.lanes[i].state)
    ensures Dominates(c, sys'.lanes[j].state, sys.lanes[j].state)
    ensures Dominates(c, sys.lanes[i].state, sys.lanes[j].state) ==>
              Dominates(c, sys'.lanes[i].state, sys'.lanes[j].state)
  {
    var mid := SendTo(c, P, sys, i, j);
    var m := DeltaFor(c, sys.lanes[i], j);
    sys' := MergeAt(c, P, mid, Update(i, j, m));
    path := [sys, mid, sys'];
    TwoSteps(c, sys, mid, sys');
    assert mid.lanes == sys.lanes;
    ExchangeDominates(c, sys, sys', i, j, m);
  }

  lemma ExchangeDominates<S(!new), A(!new)>(c: Carrier<S, A>, sys: Sys<S>, sys': Sys<S>, i: NodeID, j: NodeID,
                                            m: Payload<S>)
    requires Laws(c) && Safe(c, sys) && i in sys.lanes && j in sys.lanes && i != j
    requires j in sys'.lanes && i in sys'.lanes && sys'.lanes[i] == sys.lanes[i]
    requires m == DeltaFor(c, sys.lanes[i], j)
    requires m.upto > 0 ==> Merged(c, sys.lanes[j].state, StateAt(c, sys.lanes[i], m.upto), sys'.lanes[j].state)
    requires m.upto == 0 ==> sys'.lanes[j].state == sys.lanes[j].state
    ensures Dominates(c, sys'.lanes[j].state, sys.lanes[i].state)
    ensures Dominates(c, sys.lanes[i].state, sys.lanes[j].state) ==>
              Dominates(c, sys'.lanes[i].state, sys'.lanes[j].state)
  {
    var l := sys.lanes[i];
    assert Buffered(c, l) && l.buf[..|l.buf|] == l.buf;
    if m.upto > 0 {
      assert StateAt(c, l, m.upto) == l.state;
      MergedDominates(c, sys.lanes[j].state, l.state, sys'.lanes[j].state);
      ReplayRooted(c, l.buf);
      if Dominates(c, l.state, sys.lanes[j].state) {
        MergedIsDominated(c, l.state, sys.lanes[j].state, sys'.lanes[j].state);
      }
    } else {
      assert AckTrue(c, sys, i, j, l.acks[j]);
    }
  }

  lemma MergedDominates<S(!new), A(!new)>(c: Carrier<S, A>, x: map<Key, S>, y: map<Key, S>, r: map<Key, S>)
    requires Laws(c) && Merged(c, x, y, r)
    ensures Dominates(c, r, y)
  {
    forall k | k in y ensures k in r && c.op(c.view(r[k]), c.view(y[k])) == c.view(r[k]) {
      assert Assoc(c.op, c.view(ValueOr(c, x, k)), c.view(y[k]), c.view(y[k])) && Idem(c.op, c.view(y[k]));
    }
  }

  // ---------------------------------------------------------------- sweeps

  /** One exchange from each of the others to the hub: the hub then dominates all of them, and only the hub
      changed. */
  lemma {:induction false} SweepIn<S(!new), A(!new)>(c: Carrier<S, A>, P: (Key, S) -> bool, sys: Sys<S>, hub: NodeID,
                                                     others: seq<NodeID>)
    returns (path: seq<Sys<S>>, sys': Sys<S>)
    requires Healthy(c, P, sys) && hub in sys.lanes && hub !in others && forall j | j in others :: j in sys.lanes
    ensures Healthy(c, P, sys') && Leads(c, path, sys, sys') && OnlyLane(sys, sys', hub)
    ensures forall j | j in others :: Dominates(c, sys'.lanes[hub].state, sys'.lanes[j].state)
  {
    if others == [] {
      path, sys' := [sys], sys;
    } else {
      var rest, j := others[..|others| - 1], others[|others| - 1];
      var p, mid := SweepIn(c, P, sys, hub, rest);
      var q, last := Exchange(c, P, mid, j, hub);
      Follows(c, p, q, sys, mid, last);
      path, sys' := p + q[1..], last;
      forall k | k in others ensures Dominates(c, sys'.lanes[hub].state, sys'.lanes[k].state) {
        if k != j {
          assert k in rest;
          DominatesTransitive(c, sys'.lanes[hub].state, mid.lanes[hub].state, mid.lanes[k].state);
        }
      }
    }
  }

  lemma DominatesTransitive<S(!new), A(!new)>(c: Carrier<S, A>, x: map<Key, S>, y: map<Key, S>, z: map<Key, S>)
    requires Laws(c) && Dominates(c, x, y) && Dominates(c, y, z)
    ensures Dominates(c, x, z)
  {
    forall k | k in z ensures c.op(c.view(x[k]), c.view(z[k])) == c.view(x[k]) {
      assert Assoc(c.op, c.view(x[k]), c.view(y[k]), c.view(z[k]));
    }
  }

  /** One exchange from the hub, which dominates them, to each of the others: then the hub and each of
      them dominate one another, and the hub did not change. */
  lemma {:induction false} SweepOut<S(!new), A(!new)>(c: Carrier<S, A>, P: (Key, S) -> bool, sys: Sys<S>, hub: NodeID,
                                                      others: seq<NodeID>)
    returns (path: seq<Sys<S>>, sys': Sys<S>)
    requires Healthy(c, P, sys) && hub in sys.lanes && hub !in others
    requires forall j | j in others :: j in sys.lanes && Dominates(c, sys.lanes[hub].state, sys.lanes[j].state)
    ensures Healthy(c, P, sys') && Leads(c, path, sys, sys')
    ensures sys'.lanes.Keys == sys.lanes.Keys
    ensures forall j | j in sys.lanes && j !in others :: sys'.lanes[j] == sys.lanes[j]
    ensures forall j | j in others :: Dominates(c, sys'.lanes[hub].state, sys'.lanes[j].state) &&
                                      Dominates(c, sys'.lanes[j].state, sys'.lanes[hub].state)
  {
    if others == [] {
      path, sys' := [sys], sys;
    } else {
      var rest, j := others[..|others| - 1], others[|others| - 1];
      assert others == rest + [j];
      var p, mid := SweepOut(c, P, sys, hub, rest);
      assert mid.lanes[hub] == sys.lanes[hub];
      assert Dominates(c, mid.lanes[hub].state, mid.lanes[j].state);
      var q, last := Exchange(c, P, mid, hub, j);
      Follows(c, p, q, sys, mid, last);
      path, sys' := p + q[1..], last;
    }
  }

  /** Two sweeps through any node are enough: afterwards every replica dominates every other, with the
      hub's state in between. */
  lemma TwoSweeps<S(!new), A(!new)>(c: Carrier<S, A>, P: (Key, S) -> bool, sys: Sys<S>, hub: NodeID,
                                    others: seq<NodeID>)
    returns (path: seq<Sys<S>>, sys': Sys<S>)
    requires Healthy(c, P, sys) && hub in sys.lanes && hub !in others
    requires forall j :: j in sys.lanes <==> j == hub || j in others
    ensures Healthy(c, P, sys') && Leads(c, path, sys, sys') && sys'.lanes.Keys == sys.lanes.Keys
    ensures forall i, j | i in sys.lanes && j in sys.lanes :: Dominates(c, sys'.lanes[i].state, sys'.lanes[j].state)
  {
    var p, mid := SweepIn(c, P, sys, hub, others);
    var q, last := SweepOut(c, P, mid, hub, others);
    Follows(c, p, q, sys, mid, last);
    path, sys' := p + q[1..], last;
    DominatesSelf(c, sys'.lanes[hub].state);
    forall i, j | i in sys.lanes && j in sys.lanes ensures Dominates(c, sys'.lanes[i].state, sys'.lanes[j].state) {
      DominatesTransitive(c, sys'.lanes[i].state, sys'.lanes[hub].state, sys'.lanes[j].state);
    }
  }
}
