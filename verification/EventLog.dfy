/** The history of one element across the cluster, and what it says about every copy of the element's
    version set: the counters of a copy determine everything else in it. */
module EventLog {
  import opened Bands
  import opened Gossip
  import opened DvvSets

  /** An add or a remove: the context the client asked for, and the part of it the coordinator took up. */
  datatype Ev = Ev(asked: VV, ctx: VV, add: bool)

  /** The events each node coordinated, oldest first: event k of node r carries the dot (r, k). */
  type Log = map<NodeID, seq<Ev>>

  function Events(log: Log, r: NodeID): seq<Ev> {
    if r in log then log[r] else []
  }

  function Append(log: Log, r: NodeID, ev: Ev): Log {
    log[r := Events(log, r) + [ev]]
  }

  /** The highest dot of node r that event m of node s had observed. */
  function Observed(log: Log, s: NodeID, m: int, r: NodeID): nat {
    if 1 <= m <= |Events(log, s)| then VVGet(Events(log, s)[m - 1].ctx, r) else 0
  }

  ghost predicate Covers(log: Log, d: Dvv<bool>, s: NodeID, m: int, r: NodeID) {
    Knows(d, s, m) ==> Observed(log, s, m, r) <= Base(d, r)
  }

  ghost predicate Justified(log: Log, d: Dvv<bool>, r: NodeID) {
    Base(d, r) > 0 ==> exists s, m :: Knows(d, s, m) && Observed(log, s, m, r) == Base(d, r)
  }

  ghost predicate Faithful(log: Log, d: Dvv<bool>, r: NodeID, k: int) {
    Live(d, r, k) ==> 1 <= k <= |Events(log, r)| && At(d, r, k) == Events(log, r)[k - 1].add
  }

  /** d tells the truth about the log: its siblings carry the markers of their events, and the dots it
      discards are exactly those observed by the events it knows. */
  ghost predicate Good(log: Log, d: Dvv<bool>) {
    && WellFormed(d)
    && (forall r | r in d :: d[r].counter <= |Events(log, r)|)
    && (forall r, k :: Faithful(log, d, r, k))
    && (forall s, m, r :: Covers(log, d, s, m, r))
    && (forall r :: Justified(log, d, r))
  }

  /** Smaller counters mean smaller discarded prefixes. */
  lemma BaseIsMonotone(log: Log, a: Dvv<bool>, b: Dvv<bool>, r: NodeID)
    requires Good(log, a) && Good(log, b) && Leq(a, b)
    ensures Base(a, r) <= Base(b, r)
  {
    assert Justified(log, a, r);
    if Base(a, r) > 0 {
      var s, m :| Knows(a, s, m) && Observed(log, s, m, r) == Base(a, r);
      assert Covers(log, b, s, m, r);
      assert Knows(b, s, m);
    } else if r in b {
      assert Base(b, r) >= 0;
    }
  }

  /** The skip test loses nothing: if b's counters already include a's, merging a changes nothing. */
  lemma SyncWithSmaller(log: Log, a: Dvv<bool>, b: Dvv<bool>)
    requires Good(log, a) && Good(log, b) && Leq(a, b)
    ensures Sync(b, a) == b
  {
    forall r | r in a ensures r in b && SyncEntry(b[r], a[r]) == b[r] {
      BaseIsMonotone(log, a, b, r);
    }
    assert Sync(b, a) == b;
  }

  /** A copy is determined by its version vector. */
  lemma DeterminedByVector(log: Log, a: Dvv<bool>, b: Dvv<bool>)
    requires Good(log, a) && Good(log, b) && Join(a) == Join(b)
    ensures a == b
  {
    assert a.Keys == Join(a).Keys == Join(b).Keys == b.Keys;
    forall r | r in a ensures a[r].counter == b[r].counter {
      assert Join(a)[r] == Join(b)[r];
    }
    forall r, k
      ensures Live(a, r, k) <==> Live(b, r, k)
      ensures Live(a, r, k) && Live(b, r, k) ==> At(a, r, k) == At(b, r, k)
    {
      BaseIsMonotone(log, a, b, r);
      BaseIsMonotone(log, b, a, r);
      assert Faithful(log, a, r, k) && Faithful(log, b, r, k);
    }
    DotsDetermine(a, b);
  }

  lemma SyncCounter(a: Dvv<bool>, b: Dvv<bool>, r: NodeID)
    requires WellFormed(a) && WellFormed(b)
    ensures WellFormed(Sync(a, b))
    ensures Counter(Sync(a, b), r) == MaxInt(Counter(a, r), Counter(b, r))
    ensures Base(Sync(a, b), r) == MaxInt(Base(a, r), Base(b, r))
  {
    SyncRefinesDots(a, b, r, 0);
    if r in a && r in b {
      SyncEntryIsMax(a[r], b[r]);
    }
  }

  lemma GoodAgree(log: Log, a: Dvv<bool>, b: Dvv<bool>)
    requires Good(log, a) && Good(log, b)
    ensures Agree(a, b)
  {
    forall r, k | Live(a, r, k) && Live(b, r, k) ensures At(a, r, k) == At(b, r, k) {
      assert Faithful(log, a, r, k) && Faithful(log, b, r, k);
    }
  }

  /** Truthful copies merge into truthful copies. */
  lemma SyncIsGood(log: Log, a: Dvv<bool>, b: Dvv<bool>)
    requires Good(log, a) && Good(log, b)
    ensures Good(log, Sync(a, b))
  {
    var j := Sync(a, b);
    GoodAgree(log, a, b);
    SyncRefinesDots(a, b, "", 0);
    forall r | r in j ensures j[r].counter <= |Events(log, r)| {
      SyncCounter(a, b, r);
    }
    forall r, k ensures Faithful(log, j, r, k) {
      SyncRefinesDots(a, b, r, k);
      assert Faithful(log, a, r, k) && Faithful(log, b, r, k);
    }
    forall s, m, r ensures Covers(log, j, s, m, r) {
      SyncRefinesDots(a, b, s, m);
      SyncCounter(a, b, r);
      assert Covers(log, a, s, m, r) && Covers(log, b, s, m, r);
    }
    forall r ensures Justified(log, j, r) {
      SyncJustified(log, a, b, r);
    }
  }

  lemma SyncJustified(log: Log, a: Dvv<bool>, b: Dvv<bool>, r: NodeID)
    requires Good(log, a) && Good(log, b)
    ensures Justified(log, Sync(a, b), r)
  {
    SyncCounter(a, b, r);
    var top := if Base(a, r) >= Base(b, r) then a else b;
    assert Justified(log, top, r);
    if Base(top, r) > 0 {
      var s, m :| Knows(top, s, m) && Observed(log, s, m, r) == Base(top, r);
      SyncRefinesDots(a, b, s, m);
    }
  }

  // ---------------------------------------------------------------- new events

  /** The part of a context an update takes up: the ids the coordinator has an entry for, its own no
      further than its own counter. */
  function Honoured(d: Dvv<bool>, self: NodeID, vv: VV): VV {
    map r | r in d && r in vv :: if r == self && vv[r] > d[r].counter then d[r].counter else vv[r]
  }

  /** The log with a write in it. */
  function Written(log: Log, d: Dvv<bool>, self: NodeID, vv: VV, add: bool): Log {
    Append(log, self, Ev(vv, Honoured(d, self, vv), add))
  }

  lemma ObservedAppend(log: Log, self: NodeID, ev: Ev, s: NodeID, m: int, r: NodeID)
    ensures (s, m) != (self, |Events(log, self)| + 1) ==>
              Observed(Append(log, self, ev), s, m, r) == Observed(log, s, m, r)
    ensures Observed(Append(log, self, ev), self, |Events(log, self)| + 1, r) == VVGet(ev.ctx, r)
  {}

  /** Copies made before an event stay truthful after it. */
  lemma AppendKeepsGood(log: Log, self: NodeID, ev: Ev, d: Dvv<bool>)
    requires Good(log, d)
    ensures Good(Append(log, self, ev), d)
  {
    var log' := Append(log, self, ev);
    forall r, k ensures Faithful(log', d, r, k) {
      assert Faithful(log, d, r, k);
    }
    forall s, m, r ensures Covers(log', d, s, m, r) {
      assert Covers(log, d, s, m, r);
      ObservedAppend(log, self, ev, s, m, r);
    }
    forall r ensures Justified(log', d, r) {
      assert Justified(log, d, r);
      if Base(d, r) > 0 {
        var s, m :| Knows(d, s, m) && Observed(log, s, m, r) == Base(d, r);
        ObservedAppend(log, self, ev, s, m, r);
      }
    }
  }

  /** An update raises counters and discarded prefixes to the honoured context, and counts the write. */
  lemma UpdateBase(d: Dvv<bool>, self: NodeID, vv: VV, add: bool, r: NodeID)
    requires WellFormed(d)
    ensures var u, h := Update(d, self, vv, add), VVGet(Honoured(d, self, vv), r);
            && Base(u, r) == MaxInt(Base(d, r), h)
            && Counter(u, r) == MaxInt(Counter(d, r), h) + if r == self then 1 else 0
  {
    UpdateSelf(d, self, vv, add);
    if r in d && r != self {
      UpdateOther(d, self, vv, add, r);
    }
  }

  /** The write claims to know event m of node s, which its coordinator does not know. */
  predicate Claims(d: Dvv<bool>, self: NodeID, vv: VV, s: NodeID, m: int) {
    s in d && s != self && d[s].counter < m <= VVGet(vv, s)
  }

  ghost predicate ClaimCovered(log: Log, d: Dvv<bool>, self: NodeID, vv: VV, s: NodeID, m: int, r: NodeID) {
    Claims(d, self, vv, s, m) ==>
      m <= |Events(log, s)| && Observed(log, s, m, r) <= MaxInt(Base(d, r), VVGet(Honoured(d, self, vv), r))
  }

  /** Every event the write claims happened, and observed nothing beyond what the write discards. */
  ghost predicate ClaimsCovered(log: Log, d: Dvv<bool>, self: NodeID, vv: VV) {
    forall s, m, r :: ClaimCovered(log, d, self, vv, s, m, r)
  }

  /** A write by a coordinator that knows its own events produces a truthful copy exactly when the events
      it claims happened and observed nothing beyond what the write discards. */
  lemma UpdateIsGoodIff(log: Log, d: Dvv<bool>, self: NodeID, vv: VV, add: bool)
    requires Good(log, d) && |Events(log, self)| == Counter(d, self)
    ensures Good(Written(log, d, self, vv, add), Update(d, self, vv, add)) <==> ClaimsCovered(log, d, self, vv)
  {
    if ClaimsCovered(log, d, self, vv) {
      UpdateIsGood(log, d, self, vv, add);
    }
    if Good(Written(log, d, self, vv, add), Update(d, self, vv, add)) {
      forall s, m, r ensures ClaimCovered(log, d, self, vv, s, m, r) {
        GoodCoversClaim(log, d, self, vv, add, s, m, r);
      }
    }
  }

  lemma GoodCoversClaim(log: Log, d: Dvv<bool>, self: NodeID, vv: VV, add: bool, s: NodeID, m: int, r: NodeID)
    requires Good(log, d) && |Events(log, self)| == Counter(d, self)
    requires Good(Written(log, d, self, vv, add), Update(d, self, vv, add))
    ensures ClaimCovered(log, d, self, vv, s, m, r)
  {
    var ev, u := Ev(vv, Honoured(d, self, vv), add), Update(d, self, vv, add);
    if Claims(d, self, vv, s, m) {
      UpdateBase(d, self, vv, add, s);
      UpdateBase(d, self, vv, add, r);
      ObservedAppend(log, self, ev, s, m, r);
      assert Covers(Append(log, self, ev), u, s, m, r);
      assert s in u;
    }
  }

  lemma UpdateIsGood(log: Log, d: Dvv<bool>, self: NodeID, vv: VV, add: bool)
    requires Good(log, d) && |Events(log, self)| == Counter(d, self) && ClaimsCovered(log, d, self, vv)
    ensures Good(Written(log, d, self, vv, add), Update(d, self, vv, add))
  {
    var ev, u := Ev(vv, Honoured(d, self, vv), add), Update(d, self, vv, add);
    var log' := Append(log, self, ev);
    UpdateWellFormed(d, self, vv, add);
    forall r | r in u ensures u[r].counter <= |Events(log', r)| {
      UpdateBase(d, self, vv, add, r);
      assert ClaimCovered(log, d, self, vv, r, VVGet(vv, r), r);
    }
    forall r, k ensures Faithful(log', u, r, k) {
      UpdateKeepsDots(d, self, vv, add, r, k);
      assert Faithful(log, d, r, k);
    }
    forall s, m, r ensures Covers(log', u, s, m, r) {
      UpdateCovers(log, d, self, vv, add, s, m, r);
    }
    forall r ensures Justified(log', u, r) {
      UpdateJustified(log, d, self, vv, add, r);
    }
  }

  lemma UpdateCovers(log: Log, d: Dvv<bool>, self: NodeID, vv: VV, add: bool, s: NodeID, m: int, r: NodeID)
    requires Good(log, d) && |Events(log, self)| == Counter(d, self)
    requires ClaimCovered(log, d, self, vv, s, m, r)
    ensures Covers(Written(log, d, self, vv, add), Update(d, self, vv, add), s, m, r)
  {
    UpdateBase(d, self, vv, add, r);
    UpdateBase(d, self, vv, add, s);
    ObservedAppend(log, self, Ev(vv, Honoured(d, self, vv), add), s, m, r);
    assert Covers(log, d, s, m, r);
  }

  lemma UpdateJustified(log: Log, d: Dvv<bool>, self: NodeID, vv: VV, add: bool, r: NodeID)
    requires Good(log, d) && |Events(log, self)| == Counter(d, self)
    ensures Justified(Written(log, d, self, vv, add), Update(d, self, vv, add), r)
  {
    var ev, u, n := Ev(vv, Honoured(d, self, vv), add), Update(d, self, vv, add), Counter(d, self) + 1;
    UpdateBase(d, self, vv, add, r);
    if Base(u, r) > Base(d, r) {
      ObservedAppend(log, self, ev, self, n, r);
      UpdateBase(d, self, vv, add, self);
      assert Knows(u, self, n);
    } else if Base(d, r) > 0 {
      assert Justified(log, d, r);
      var s, m :| Knows(d, s, m) && Observed(log, s, m, r) == Base(d, r);
      ObservedAppend(log, self, ev, s, m, r);
      UpdateBase(d, self, vv, add, s);
      assert Knows(u, s, m);
    }
  }

  /** The observed-remove reading of a copy: a dot is live exactly when the copy knows its event and
      knows no event that observed it. */
  lemma LiveIffUnobserved(log: Log, d: Dvv<bool>, r: NodeID, k: int)
    requires Good(log, d)
    ensures Live(d, r, k) <==> Knows(d, r, k) && forall s, m | Knows(d, s, m) :: Observed(log, s, m, r) < k
  {
    assert Justified(log, d, r);
    forall s, m | Knows(d, s, m) ensures Observed(log, s, m, r) <= Base(d, r) {
      assert Covers(log, d, s, m, r);
    }
  }
}
