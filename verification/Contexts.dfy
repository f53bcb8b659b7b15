/** Which causal contexts a write may carry: when the coordinator's copy stays truthful, and when what the
    client asked to remove stays removed. */
module Contexts {
  import opened Bands
  import opened Gossip
  import opened DvvSets
  import opened OrSets
  import opened EventLog

  // ---------------------------------------------------------------- truthful copies

  /** vv is the causal context of a truthful copy. */
  ghost predicate Readable(log: Log, vv: VV) {
    exists x :: Good(log, x) && Join(x) == vv
  }

  /** What a coordinator can check about a context that was read from some replica: it has nothing new
      about the nodes the coordinator has entries for, or it names no other nodes. */
  predicate Acceptable(d: Dvv<bool>, self: NodeID, vv: VV) {
    ContextKnown(d, self, vv) || NothingDropped(d, self, vv)
  }

  /** A history in which the coordinator holds d and a client has read vv somewhere. */
  ghost predicate Possible(log: Log, d: Dvv<bool>, self: NodeID, vv: VV) {
    Good(log, d) && |Events(log, self)| == Counter(d, self) && Readable(log, vv)
  }

  /** A context that claims nothing is covered, wherever it comes from. */
  lemma KnownIsCovered(log: Log, d: Dvv<bool>, self: NodeID, vv: VV)
    requires ContextKnown(d, self, vv)
    ensures ClaimsCovered(log, d, self, vv)
  {
    forall s, m, r ensures ClaimCovered(log, d, self, vv, s, m, r) {}
  }

  /** A context that was read and loses no id is covered: what it claims, its copy has accounted for. */
  lemma ReadIsCovered(log: Log, d: Dvv<bool>, self: NodeID, vv: VV, x: Dvv<bool>)
    requires Good(log, d) && Good(log, x) && Join(x) == vv && |Events(log, self)| == Counter(d, self)
    requires NothingDropped(d, self, vv)
    ensures ClaimsCovered(log, d, self, vv)
  {
    forall s, m, r ensures ClaimCovered(log, d, self, vv, s, m, r) {
      if Claims(d, self, vv, s, m) {
        assert Knows(x, s, m);
        assert Covers(log, x, s, m, r);
        assert VVGet(vv, r) == Counter(x, r) >= Base(x, r);
        assert VVGet(Honoured(d, self, vv), r) == VVGet(vv, r);
      }
    }
  }

  lemma AcceptableIsCovered(log: Log, d: Dvv<bool>, self: NodeID, vv: VV)
    requires Possible(log, d, self, vv) && Acceptable(d, self, vv)
    ensures ClaimsCovered(log, d, self, vv)
  {
    if ContextKnown(d, self, vv) {
      KnownIsCovered(log, d, self, vv);
    } else {
      var x :| Good(log, x) && Join(x) == vv;
      ReadIsCovered(log, d, self, vv, x);
    }
  }

  /** The event m of node s, as if it had also observed the dots of c up to n. */
  function AlsoObserving(log: Log, s: NodeID, m: int, c: NodeID, n: nat): Log
    requires 1 <= m <= |Events(log, s)|
  {
    var ev := Events(log, s)[m - 1];
    log[s := Events(log, s)[m - 1 := ev.(ctx := ev.ctx[c := n])]]
  }

  lemma AlsoObserved(log: Log, s: NodeID, m: int, c: NodeID, n: nat, t: NodeID, k: int, r: NodeID)
    requires 1 <= m <= |Events(log, s)|
    ensures var log' := AlsoObserving(log, s, m, c, n);
            && |Events(log', t)| == |Events(log, t)|
            && Observed(log', t, k, r) == if (t, k) == (s, m) && r == c then n else Observed(log, t, k, r)
  {}

  /** A copy that does not know the event cannot tell the difference. */
  lemma UnknownEventMayDiffer(log: Log, s: NodeID, m: int, c: NodeID, n: nat, d: Dvv<bool>)
    requires 1 <= m <= |Events(log, s)| && Good(log, d) && !Knows(d, s, m)
    ensures Good(AlsoObserving(log, s, m, c, n), d)
  {
    var log' := AlsoObserving(log, s, m, c, n);
    forall r | r in d ensures d[r].counter <= |Events(log', r)| {
      AlsoObserved(log, s, m, c, n, r, 0, r);
    }
    forall r, k ensures Faithful(log', d, r, k) {
      assert Faithful(log, d, r, k);
    }
    forall t, k, r ensures Covers(log', d, t, k, r) {
      assert Covers(log, d, t, k, r);
      AlsoObserved(log, s, m, c, n, t, k, r);
    }
    forall r ensures Justified(log', d, r) {
      assert Justified(log, d, r);
      if Base(d, r) > 0 {
        var t, k :| Knows(d, t, k) && Observed(log, t, k, r) == Base(d, r);
        AlsoObserved(log, s, m, c, n, t, k, r);
      }
    }
  }

  /** A copy that knows the event is truthful again once it has discarded the dots of c. */
  lemma KnownEventDiscards(log: Log, s: NodeID, m: int, c: NodeID, x: Dvv<bool>)
    requires 1 <= m <= |Events(log, s)| && Good(log, x) && Knows(x, s, m) && c in x && c != s && x[c].counter > 0
    ensures Good(AlsoObserving(log, s, m, c, x[c].counter), x[c := Entry(x[c].counter, [])])
    ensures Join(x[c := Entry(x[c].counter, [])]) == Join(x)
  {
    var n := x[c].counter;
    var log', y := AlsoObserving(log, s, m, c, n), x[c := Entry(n, [])];
    forall r | r in y ensures y[r].counter <= |Events(log', r)| {
      AlsoObserved(log, s, m, c, n, r, 0, r);
    }
    forall r, k ensures Faithful(log', y, r, k) {
      assert Faithful(log, x, r, k);
    }
    forall t, k, r ensures Covers(log', y, t, k, r) {
      assert Covers(log, x, t, k, r);
      AlsoObserved(log, s, m, c, n, t, k, r);
      assert Base(x, c) <= n;
    }
    forall r ensures Justified(log', y, r) {
      assert Justified(log, x, r);
      AlsoObserved(log, s, m, c, n, s, m, c);
      if r == c {
        assert Knows(y, s, m) && Observed(log', s, m, c) == Base(y, c);
      } else if Base(y, r) > 0 {
        var t, k :| Knows(x, t, k) && Observed(log, t, k, r) == Base(x, r);
        AlsoObserved(log, s, m, c, n, t, k, r);
        assert Knows(y, t, k);
      }
    }
  }

  /** The context claims event m of s, and loses the id c. */
  ghost predicate ClaimsAndLoses(d: Dvv<bool>, self: NodeID, vv: VV, s: NodeID, m: int, c: NodeID) {
    Claims(d, self, vv, s, m) && m == VVGet(vv, s) && VVGet(vv, c) > 0 && c !in d && c != self
  }

  lemma HistoryIsPossible(log: Log, d: Dvv<bool>, self: NodeID, x: Dvv<bool>, s: NodeID, m: int, c: NodeID)
    requires Good(log, d) && |Events(log, self)| == Counter(d, self) && Good(log, x)
    requires ClaimsAndLoses(d, self, Join(x), s, m, c)
    ensures m <= |Events(log, s)| && Possible(AlsoObserving(log, s, m, c, Counter(x, c)), d, self, Join(x))
  {
    UnknownEventMayDiffer(log, s, m, c, Counter(x, c), d);
    KnownEventDiscards(log, s, m, c, x);
    AlsoObserved(log, s, m, c, Counter(x, c), self, 0, self);
  }

  lemma ClaimIsUncovered(log: Log, d: Dvv<bool>, self: NodeID, vv: VV, s: NodeID, m: int, c: NodeID)
    requires ClaimsAndLoses(d, self, vv, s, m, c) && m <= |Events(log, s)|
    ensures !ClaimsCovered(AlsoObserving(log, s, m, c, VVGet(vv, c)), d, self, vv)
  {
    AlsoObserved(log, s, m, c, VVGet(vv, c), s, m, c);
    assert !ClaimCovered(AlsoObserving(log, s, m, c, VVGet(vv, c)), d, self, vv, s, m, c);
  }

  /** If the context claims events of one node and loses the id of another, the same copy and the same
      context also occur in a history in which the claims are not covered. */
  lemma OtherHistory(log: Log, d: Dvv<bool>, self: NodeID, vv: VV) returns (log': Log)
    requires Possible(log, d, self, vv) && !Acceptable(d, self, vv)
    ensures Possible(log', d, self, vv) && !ClaimsCovered(log', d, self, vv)
  {
    var x :| Good(log, x) && Join(x) == vv;
    var s :| s in d && s != self && VVGet(vv, s) > d[s].counter;
    var c :| c in vv && vv[c] > 0 && c !in d && c != self;
    HistoryIsPossible(log, d, self, x, s, vv[s], c);
    ClaimIsUncovered(log, d, self, vv, s, vv[s], c);
    log' := AlsoObserving(log, s, vv[s], c, vv[c]);
  }

  /** The guard is exact: given the coordinator's copy and a context read from some replica, the write
      leaves a truthful copy in every possible history exactly when the context is acceptable. */
  lemma AcceptableIffAlwaysGood(log: Log, d: Dvv<bool>, self: NodeID, vv: VV, add: bool)
    requires Possible(log, d, self, vv)
    ensures Acceptable(d, self, vv) <==>
            forall h | Possible(h, d, self, vv) :: Good(Written(h, d, self, vv, add), Update(d, self, vv, add))
  {
    if Acceptable(d, self, vv) {
      forall h | Possible(h, d, self, vv) ensures Good(Written(h, d, self, vv, add), Update(d, self, vv, add)) {
        AcceptableIsCovered(h, d, self, vv);
        UpdateIsGood(h, d, self, vv, add);
      }
    } else {
      var h := OtherHistory(log, d, self, vv);
      UpdateIsGoodIff(h, d, self, vv, add);
    }
  }

  // ---------------------------------------------------------------- what the client asked for

  /** The highest dot of node r that the client of event m of node s had asked to supersede. */
  function Asked(log: Log, s: NodeID, m: int, r: NodeID): nat {
    if 1 <= m <= |Events(log, s)| then VVGet(Events(log, s)[m - 1].asked, r) else 0
  }

  /** No event took up more than its client asked for. */
  ghost predicate Modest(log: Log) {
    forall s, m, r :: Observed(log, s, m, r) <= Asked(log, s, m, r)
  }

  lemma WrittenIsModest(log: Log, d: Dvv<bool>, self: NodeID, vv: VV, add: bool)
    requires Modest(log)
    ensures Modest(Written(log, d, self, vv, add))
  {
    var ev := Ev(vv, Honoured(d, self, vv), add);
    var log' := Append(log, self, ev);
    forall s, m, r ensures Observed(log', s, m, r) <= Asked(log', s, m, r) {
      assert Observed(log, s, m, r) <= Asked(log, s, m, r);
    }
  }

  /** An add event the copy knows, that no client of an event it knows asked to supersede. */
  ghost predicate UncoveredAdd(log: Log, d: Dvv<bool>, r: NodeID, k: int) {
    && Knows(d, r, k) && k <= |Events(log, r)| && Events(log, r)[k - 1].add
    && forall t, m | Knows(d, t, m) :: Asked(log, t, m, r) < k
  }

  /** The copy knows of no event that lost a part of its client's context. */
  ghost predicate NothingLost(log: Log, d: Dvv<bool>) {
    forall t, m, r | Knows(d, t, m) :: Observed(log, t, m, r) == Asked(log, t, m, r)
  }

  /** An add that no context asked to supersede is never hidden. */
  lemma UncoveredIsLive(log: Log, d: Dvv<bool>, r: NodeID, k: int)
    requires Good(log, d) && Modest(log) && UncoveredAdd(log, d, r, k)
    ensures Live(d, r, k) && At(d, r, k)
  {
    forall s, m | Knows(d, s, m) ensures Observed(log, s, m, r) < k {
      assert Observed(log, s, m, r) <= Asked(log, s, m, r);
    }
    LiveIffUnobserved(log, d, r, k);
    assert Faithful(log, d, r, k);
  }

  /** Where no context lost anything, exactly the adds no context asked to supersede are live. */
  lemma LiveIffUncovered(log: Log, d: Dvv<bool>, r: NodeID, k: int)
    requires Good(log, d) && Modest(log) && NothingLost(log, d)
    ensures Live(d, r, k) && At(d, r, k) <==> UncoveredAdd(log, d, r, k)
  {
    if Live(d, r, k) && At(d, r, k) {
      assert Faithful(log, d, r, k);
      LiveIffUnobserved(log, d, r, k);
    }
    if UncoveredAdd(log, d, r, k) {
      UncoveredIsLive(log, d, r, k);
    }
  }

  /** A live add that some client asked to supersede is live for one reason only: an event the copy knows
      lost just the part of its client's context that covers it. */
  lemma SurvivesIffLost(log: Log, d: Dvv<bool>, r: NodeID, k: int)
    requires Good(log, d) && Live(d, r, k) && At(d, r, k)
    ensures !UncoveredAdd(log, d, r, k) <==>
            exists t, m :: Knows(d, t, m) && Observed(log, t, m, r) < k <= Asked(log, t, m, r)
  {
    assert Faithful(log, d, r, k);
    LiveIffUnobserved(log, d, r, k);
  }

  /** The coordinator takes up the whole context. */
  predicate TakesUp(d: Dvv<bool>, self: NodeID, vv: VV) {
    NothingDropped(d, self, vv) && VVGet(vv, self) <= Counter(d, self)
  }

  lemma TakesUpIff(d: Dvv<bool>, self: NodeID, vv: VV)
    ensures TakesUp(d, self, vv) <==> forall r :: VVGet(Honoured(d, self, vv), r) == VVGet(vv, r)
  {
    var h := Honoured(d, self, vv);
    if TakesUp(d, self, vv) {
      forall r ensures VVGet(h, r) == VVGet(vv, r) {}
    }
    if forall r :: VVGet(h, r) == VVGet(vv, r) {
      assert VVGet(h, self) == VVGet(vv, self);
      forall r | r in vv && vv[r] > 0 ensures r in d || r == self {
        assert VVGet(h, r) == VVGet(vv, r);
      }
    }
  }

  /** A history in which the coordinator holds d and the write leaves a truthful copy. */
  ghost predicate Admits(log: Log, d: Dvv<bool>, self: NodeID, vv: VV) {
    Good(log, d) && |Events(log, self)| == Counter(d, self) && ClaimsCovered(log, d, self, vv)
  }

  /** Whatever truthful copy knows the write, none of the dots its client asked to supersede is live in
      it. */
  ghost predicate StaysRemoved(log: Log, d: Dvv<bool>, self: NodeID, vv: VV, add: bool) {
    forall z, r, k | Good(Written(log, d, self, vv, add), z) && Knows(z, self, Counter(d, self) + 1) && Live(z, r, k) ::
      k > VVGet(vv, r)
  }

  lemma TakenUpStaysRemoved(log: Log, d: Dvv<bool>, self: NodeID, vv: VV, add: bool)
    requires Admits(log, d, self, vv) && TakesUp(d, self, vv)
    ensures StaysRemoved(log, d, self, vv, add)
  {
    var n, log' := Counter(d, self) + 1, Written(log, d, self, vv, add);
    forall z, r, k | Good(log', z) && Knows(z, self, n) && Live(z, r, k) ensures k > VVGet(vv, r) {
      TakesUpIff(d, self, vv);
      ObservedAppend(log, self, Ev(vv, Honoured(d, self, vv), add), self, n, r);
      assert Covers(log', z, self, n, r);
    }
  }

  /** The history in which node c has done nothing but one add without a context. */
  function WithAddAt(log: Log, c: NodeID): Log {
    log[c := [Ev(map[], map[], true)]]
  }

  lemma StrangerMayDiffer(log: Log, d: Dvv<bool>, self: NodeID, vv: VV, c: NodeID)
    requires Admits(log, d, self, vv) && c !in d && c != self
    ensures Admits(WithAddAt(log, c), d, self, vv)
  {
    var log' := WithAddAt(log, c);
    forall r, k ensures Faithful(log', d, r, k) {
      assert Faithful(log, d, r, k);
    }
    forall s, m, r ensures Covers(log', d, s, m, r) && ClaimCovered(log', d, self, vv, s, m, r) {
      assert Covers(log, d, s, m, r) && ClaimCovered(log, d, self, vv, s, m, r);
    }
    forall r ensures Justified(log', d, r) {
      assert Justified(log, d, r);
      if Base(d, r) > 0 {
        var s, m :| Knows(d, s, m) && Observed(log, s, m, r) == Base(d, r);
        assert Observed(log', s, m, r) == Base(d, r);
      }
    }
  }

  /** The copy of a node that knows that add only. */
  lemma AddAtIsGood(log: Log, c: NodeID)
    requires Events(log, c) == [Ev(map[], map[], true)]
    ensures Good(log, map[c := Entry(1, [true])])
  {
    var z: Dvv<bool> := map[c := Entry(1, [true])];
    forall r, k ensures Faithful(log, z, r, k) {}
    forall s, m, r ensures Covers(log, z, s, m, r) {}
    forall r ensures Justified(log, z, r) {}
  }

  /** An id the coordinator has no entry for is ignored: an add the client asked to supersede is live in a
      copy that knows both. */
  lemma DroppedIdResurfaces(log: Log, d: Dvv<bool>, self: NodeID, vv: VV, add: bool, c: NodeID)
    requires Admits(log, d, self, vv) && c !in d && c != self && VVGet(vv, c) > 0
    ensures Admits(WithAddAt(log, c), d, self, vv) && !StaysRemoved(WithAddAt(log, c), d, self, vv, add)
  {
    var h, u, y := WithAddAt(log, c), Update(d, self, vv, add), map[c := Entry(1, [true])];
    StrangerMayDiffer(log, d, self, vv, c);
    UpdateIsGood(h, d, self, vv, add);
    AddAtIsGood(Written(h, d, self, vv, add), c);
    SyncIsGood(Written(h, d, self, vv, add), u, y);
    UpdateSelf(d, self, vv, add);
    assert c !in u;
    assert Live(Sync(u, y), c, 1) && Knows(Sync(u, y), self, Counter(d, self) + 1);
  }

  lemma AheadOfItself(log: Log, d: Dvv<bool>, self: NodeID, vv: VV, add: bool)
    requires Admits(log, d, self, vv) && VVGet(vv, self) > Counter(d, self)
    ensures !StaysRemoved(log, d, self, vv, add)
  {
    var u, n := Update(d, self, vv, add), Counter(d, self) + 1;
    UpdateIsGood(log, d, self, vv, add);
    UpdateKeepsDots(d, self, vv, add, self, n);
    assert Knows(u, self, n) && Live(u, self, n) && n <= VVGet(vv, self);
  }

  /** What a client asked to supersede stays superseded, in every history and in every copy that knows the
      write, exactly when the coordinator has entries for all ids the context names and knows its own
      events up to it. */
  lemma RemovedIffTakenUp(log: Log, d: Dvv<bool>, self: NodeID, vv: VV, add: bool)
    requires Admits(log, d, self, vv)
    ensures TakesUp(d, self, vv) <==> forall h | Admits(h, d, self, vv) :: StaysRemoved(h, d, self, vv, add)
  {
    if TakesUp(d, self, vv) {
      forall h | Admits(h, d, self, vv) ensures StaysRemoved(h, d, self, vv, add) {
        TakenUpStaysRemoved(h, d, self, vv, add);
      }
    } else if VVGet(vv, self) > Counter(d, self) {
      AheadOfItself(log, d, self, vv, add);
    } else {
      var c :| c in vv && vv[c] > 0 && c !in d && c != self;
      DroppedIdResurfaces(log, d, self, vv, add, c);
    }
  }
}
