/** Dotted version vector sets (internal/crdt/dvvset.go): the compact representation, the plain set of
    dots it stands for, and the refinement between the two. */
module DvvSets {
  import opened Bands
  import opened Gossip

  /** The siblings of one node, newest first: values[j] carries the dot (node, counter - j). */
  datatype Entry<T> = Entry(counter: nat, values: seq<T>)

  type Dvv<T> = map<NodeID, Entry<T>>

  type VV = map<NodeID, nat>

  function VVGet(vv: VV, r: NodeID): nat {
    if r in vv then vv[r] else 0
  }

  function Counter<T>(d: Dvv<T>, r: NodeID): nat {
    if r in d then d[r].counter else 0
  }

  function First<T>(n: nat, l: seq<T>): seq<T> {
    if n <= |l| then l[..n] else l
  }

  function SyncEntry<T>(a: Entry<T>, b: Entry<T>): Entry<T> {
    if a.counter >= b.counter then Entry(a.counter, First(a.counter - b.counter + |b.values|, a.values))
    else Entry(b.counter, First(b.counter - a.counter + |a.values|, b.values))
  }

  function Sync<T>(a: Dvv<T>, b: Dvv<T>): Dvv<T> {
    MapJoin(SyncEntry, a, b)
  }

  function DiscardEntry<T>(e: Entry<T>, known: nat): Entry<T> {
    Entry(e.counter, if e.counter > known then First(e.counter - known, e.values) else [])
  }

  function Discard<T>(d: Dvv<T>, vv: VV): Dvv<T> {
    map r | r in d :: if r in vv then DiscardEntry(d[r], vv[r]) else d[r]
  }

  function Bump<T>(e: Entry<T>, known: nat): Entry<T> {
    Entry(if e.counter >= known then e.counter else known, e.values)
  }

  function Prepend<T>(d: Dvv<T>, self: NodeID, value: T): Entry<T> {
    if self in d then Entry(d[self].counter + 1, [value] + d[self].values) else Entry(1, [value])
  }

  function Event<T>(d: Dvv<T>, self: NodeID, vv: VV, value: T): Dvv<T> {
    map r | r in d.Keys + {self} :: if r == self then Prepend(d, self, value) else Bump(d[r], VVGet(vv, r))
  }

  function Update<T>(d: Dvv<T>, self: NodeID, vv: VV, value: T): Dvv<T> {
    Event(Discard(d, vv), self, vv, value)
  }

  function Join<T>(d: Dvv<T>): VV {
    map r | r in d :: d[r].counter
  }

  predicate Leq<T>(a: Dvv<T>, b: Dvv<T>) {
    forall r | r in a :: a[r].counter <= Counter(b, r)
  }

  // ---------------------------------------------------------------- algebra

  /** The number of the newest discarded dot: dots above it up to the counter are the siblings. */
  function EntryBase<T>(e: Entry<T>): int {
    e.counter - |e.values|
  }

  /** Sync takes the larger counter and the larger base; on equal counters the left siblings stay. */
  lemma SyncEntryIsMax<T>(a: Entry<T>, b: Entry<T>)
    ensures var r := SyncEntry(a, b);
            && r.counter == (if a.counter >= b.counter then a.counter else b.counter)
            && EntryBase(r) == (if EntryBase(a) >= EntryBase(b) then EntryBase(a) else EntryBase(b))
            && r.values <= (if a.counter >= b.counter then a.values else b.values)
  {}

  lemma SyncEntryIsBand<T(!new)>()
    ensures IsBand(SyncEntry<T>)
  {
    var op: (Entry<T>, Entry<T>) -> Entry<T> := SyncEntry;
    forall x, y, z ensures Assoc(op, x, y, z) {
      assert SyncEntry(SyncEntry(x, y), z) == SyncEntry(x, SyncEntry(y, z));
    }
    forall x ensures Idem(op, x) {
      assert SyncEntry(x, x) == x;
    }
    forall x, y ensures Regular(op, x, y) {
      assert SyncEntry(SyncEntry(x, y), x) == SyncEntry(x, y);
    }
  }

  /** Sync is associative and idempotent on all states, and left-regular. */
  lemma SyncIsBand<T(!new)>()
    ensures IsBand(Sync<T>)
  {
    SyncEntryIsBand<T>();
    MapJoinIsBand<NodeID, Entry<T>>(SyncEntry);
    var lifted := (a: Dvv<T>, b: Dvv<T>) => MapJoin(SyncEntry, a, b);
    var op: (Dvv<T>, Dvv<T>) -> Dvv<T> := Sync;
    forall x, y, z ensures Assoc(op, x, y, z) {
      assert Assoc(lifted, x, y, z);
    }
    forall x ensures Idem(op, x) {
      assert Idem(lifted, x);
    }
    forall x, y ensures Regular(op, x, y) {
      assert Regular(lifted, x, y);
    }
  }

  // ---------------------------------------------------------------- dots

  function Base<T>(d: Dvv<T>, r: NodeID): int {
    if r in d then EntryBase(d[r]) else 0
  }

  ghost predicate WellFormed<T>(d: Dvv<T>) {
    forall r | r in d :: 1 <= d[r].counter && |d[r].values| <= d[r].counter
  }

  /** The causal history: the dot (r, k) has been seen. */
  predicate Knows<T>(d: Dvv<T>, r: NodeID, k: int) {
    1 <= k <= Counter(d, r)
  }

  /** The dot (r, k) carries a sibling. */
  predicate Live<T>(d: Dvv<T>, r: NodeID, k: int) {
    Base(d, r) < k <= Counter(d, r)
  }

  function At<T>(d: Dvv<T>, r: NodeID, k: int): T
    requires Live(d, r, k)
  {
    d[r].values[d[r].counter - k]
  }

  /** Two states agree on the value of every dot that is live in both. */
  ghost predicate Agree<T>(a: Dvv<T>, b: Dvv<T>) {
    forall r, k | Live(a, r, k) && Live(b, r, k) :: At(a, r, k) == At(b, r, k)
  }

  /** Sync refines the merge of dot sets: a dot is known if either side knows it; it survives if it is
      live on both sides, or live on one and unknown to the other; and it keeps its value. */
  lemma SyncRefinesDots<T>(a: Dvv<T>, b: Dvv<T>, r: NodeID, k: int)
    requires WellFormed(a) && WellFormed(b)
    ensures WellFormed(Sync(a, b))
    ensures Knows(Sync(a, b), r, k) <==> Knows(a, r, k) || Knows(b, r, k)
    ensures Live(Sync(a, b), r, k) <==>
            || (Live(a, r, k) && Live(b, r, k))
            || (Live(a, r, k) && !Knows(b, r, k))
            || (Live(b, r, k) && !Knows(a, r, k))
    ensures Live(Sync(a, b), r, k) && Agree(a, b) ==>
            && (Live(a, r, k) ==> At(Sync(a, b), r, k) == At(a, r, k))
            && (Live(b, r, k) ==> At(Sync(a, b), r, k) == At(b, r, k))
  {
    forall q | q in a && q in b ensures Sync(a, b)[q] == SyncEntry(a[q], b[q]) {
      SyncEntryIsMax(a[q], b[q]);
    }
  }

  /** The dots determine the representation. */
  lemma DotsDetermine<T>(a: Dvv<T>, b: Dvv<T>)
    requires WellFormed(a) && WellFormed(b)
    requires forall r, k :: Knows(a, r, k) <==> Knows(b, r, k)
    requires forall r, k :: Live(a, r, k) <==> Live(b, r, k)
    requires Agree(a, b)
    ensures a == b
  {
    forall r ensures r in a <==> r in b
             ensures r in a ==> a[r] == b[r]
    {
      assert Knows(a, r, Counter(a, r)) <==> Knows(b, r, Counter(a, r));
      assert Knows(a, r, Counter(b, r)) <==> Knows(b, r, Counter(b, r));
      assert Counter(a, r) == Counter(b, r);
      if r in a {
        assert Live(a, r, Base(a, r)) <==> Live(b, r, Base(a, r));
        assert Live(a, r, Base(b, r)) <==> Live(b, r, Base(b, r));
        assert Base(a, r) == Base(b, r);
        forall j | 0 <= j < |a[r].values| ensures a[r].values[j] == b[r].values[j] {
          var k := a[r].counter - j;
          assert Live(a, r, k) && Live(b, r, k);
          assert At(a, r, k) == At(b, r, k);
        }
      }
    }
  }

  /** Sync commutes on states that agree on each dot's value. */
  lemma SyncCommutes<T>(a: Dvv<T>, b: Dvv<T>)
    requires WellFormed(a) && WellFormed(b) && Agree(a, b)
    ensures Sync(a, b) == Sync(b, a)
  {
    assert Agree(b, a);
    forall r, k
      ensures Knows(Sync(a, b), r, k) <==> Knows(Sync(b, a), r, k)
      ensures Live(Sync(a, b), r, k) <==> Live(Sync(b, a), r, k)
      ensures Live(Sync(a, b), r, k) ==> At(Sync(a, b), r, k) == At(Sync(b, a), r, k)
    {
      SyncRefinesDots(a, b, r, k);
      SyncRefinesDots(b, a, r, k);
    }
    SyncRefinesDots(a, b, "", 0);
    SyncRefinesDots(b, a, "", 0);
    DotsDetermine(Sync(a, b), Sync(b, a));
  }

  // ---------------------------------------------------------------- update

  /** The context claims nothing the coordinator's entries of other nodes do not already record. */
  predicate ContextKnown<T>(d: Dvv<T>, self: NodeID, vv: VV) {
    forall r | r in d && r != self :: VVGet(vv, r) <= d[r].counter
  }

  /** The coordinator has an entry for every other id the context names. */
  predicate NothingDropped<T>(d: Dvv<T>, self: NodeID, vv: VV) {
    forall r | r in vv && vv[r] > 0 :: r in d || r == self
  }

  function MaxInt(x: int, y: int): int {
    if x >= y then x else y
  }

  /** What an update does to the entry of another node: siblings are cut from the old end, the base
      rises to the context, and the counter rises only if nothing was left. */
  lemma UpdateOther<T>(d: Dvv<T>, self: NodeID, vv: VV, value: T, r: NodeID)
    requires r in d && r != self
    ensures var u := Update(d, self, vv, value);
            && r in u && u[r].counter == MaxInt(d[r].counter, VVGet(vv, r))
            && u[r].values <= d[r].values
            && (VVGet(vv, r) > d[r].counter ==> u[r].values == [])
            && (|d[r].values| <= d[r].counter ==> EntryBase(u[r]) == MaxInt(EntryBase(d[r]), VVGet(vv, r)))
  {
    var e := Discard(d, vv)[r];
    assert Update(d, self, vv, value)[r] == Bump(e, VVGet(vv, r));
  }

  /** What an update does to the coordinator's own entry. */
  lemma UpdateSelf<T>(d: Dvv<T>, self: NodeID, vv: VV, value: T)
    ensures var u, n := Update(d, self, vv, value), Counter(d, self);
            && self in u && u[self].counter == n + 1
            && |u[self].values| >= 1 && u[self].values[0] == value
            && u[self].values[1..] <= (if self in d then d[self].values else [])
            && ((self in d ==> |d[self].values| <= n) ==>
                  EntryBase(u[self]) == MaxInt(Base(d, self), if VVGet(vv, self) <= n then VVGet(vv, self) else n))
  {
    var e := Discard(d, vv);
    assert Update(d, self, vv, value)[self] == Prepend(e, self, value);
  }

  /** Update never moves a dot: the new value takes a dot that was unknown; every other sibling that
      remains keeps its dot and its value; exactly the siblings the context covers are gone; and a
      counter is raised only where discard left no sibling. */
  lemma UpdateKeepsDots<T>(d: Dvv<T>, self: NodeID, vv: VV, value: T, r: NodeID, k: int)
    requires WellFormed(d)
    ensures var u, n := Update(d, self, vv, value), Counter(d, self) + 1;
            && !Knows(d, self, n) && Counter(u, self) == n && Live(u, self, n) && At(u, self, n) == value
            && ((r, k) != (self, n) ==>
                  && (Live(u, r, k) <==> Live(d, r, k) && k > VVGet(vv, r))
                  && (Live(u, r, k) ==> At(u, r, k) == At(d, r, k)))
            && (Knows(u, r, k) <==>
                  Knows(d, r, k) || (r, k) == (self, n) || (r in d && r != self && 1 <= k <= VVGet(vv, r)))
            && (r != self && Counter(u, r) > Counter(d, r) ==> r in u && u[r].values == [])
  {
    if r == self {
      UpdateKeepsOwnDots(d, self, vv, value, k);
    } else {
      UpdateSelf(d, self, vv, value);
      UpdateKeepsOtherDots(d, self, vv, value, r, k);
    }
  }

  lemma UpdateKeepsOtherDots<T>(d: Dvv<T>, self: NodeID, vv: VV, value: T, r: NodeID, k: int)
    requires WellFormed(d) && r != self
    ensures var u := Update(d, self, vv, value);
            && (Live(u, r, k) <==> Live(d, r, k) && k > VVGet(vv, r))
            && (Live(u, r, k) ==> At(u, r, k) == At(d, r, k))
            && (Knows(u, r, k) <==> Knows(d, r, k) || (r in d && 1 <= k <= VVGet(vv, r)))
            && (Counter(u, r) > Counter(d, r) ==> r in u && u[r].values == [])
  {
    if r in d {
      UpdateOther(d, self, vv, value, r);
      CutKeepsDots(d[r], Update(d, self, vv, value)[r], VVGet(vv, r), k);
    }
  }

  lemma UpdateKeepsOwnDots<T>(d: Dvv<T>, self: NodeID, vv: VV, value: T, k: int)
    requires WellFormed(d)
    ensures var u, n := Update(d, self, vv, value), Counter(d, self) + 1;
            && !Knows(d, self, n) && Counter(u, self) == n && Live(u, self, n) && At(u, self, n) == value
            && (k != n ==>
                  && (Live(u, self, k) <==> Live(d, self, k) && k > VVGet(vv, self))
                  && (Live(u, self, k) ==> At(u, self, k) == At(d, self, k)))
            && (Knows(u, self, k) <==> Knows(d, self, k) || k == n)
  {
    UpdateSelf(d, self, vv, value);
    var u, n := Update(d, self, vv, value), Counter(d, self) + 1;
    if k != n {
      var before, rest := if self in d then d[self] else Entry(0, []), Entry(n - 1, u[self].values[1..]);
      CutKeepsDots(before, rest, if VVGet(vv, self) < n then VVGet(vv, self) else n - 1, k);
    }
  }

  /** Cutting siblings from the old end up to a known dot keeps the dots and values of the rest. */
  lemma CutKeepsDots<T>(a: Entry<T>, b: Entry<T>, known: nat, k: int)
    requires |a.values| <= a.counter && b.values <= a.values
    requires b.counter == MaxInt(a.counter, known) && EntryBase(b) == MaxInt(EntryBase(a), known)
    ensures EntryBase(b) < k <= b.counter <==> EntryBase(a) < k <= a.counter && k > known
    ensures EntryBase(b) < k <= b.counter ==> b.values[b.counter - k] == a.values[a.counter - k]
  {}

  lemma UpdateWellFormed<T>(d: Dvv<T>, self: NodeID, vv: VV, value: T)
    requires WellFormed(d)
    ensures WellFormed(Update(d, self, vv, value))
  {
    UpdateSelf(d, self, vv, value);
    forall r | r in d && r != self
      ensures |Update(d, self, vv, value)[r].values| <= Update(d, self, vv, value)[r].counter
    {
      UpdateOther(d, self, vv, value, r);
    }
  }

  /** A write adds its own dot and nothing else to the causal history exactly when its context claims
      nothing beyond the coordinator's entries. */
  lemma UpdateHistory<T>(d: Dvv<T>, self: NodeID, vv: VV, value: T)
    requires WellFormed(d)
    ensures ContextKnown(d, self, vv) <==>
            forall r, k :: Knows(Update(d, self, vv, value), r, k) <==>
                           Knows(d, r, k) || (r, k) == (self, Counter(d, self) + 1)
  {
    var u := Update(d, self, vv, value);
    forall r, k ensures Knows(u, r, k) <==>
                        Knows(d, r, k) || (r, k) == (self, Counter(d, self) + 1)
                          || (r in d && r != self && 1 <= k <= VVGet(vv, r))
    {
      UpdateKeepsDots(d, self, vv, value, r, k);
    }
    if r :| r in d && r != self && VVGet(vv, r) > d[r].counter {
      assert Knows(u, r, VVGet(vv, r));
    }
  }

  lemma SyncWithLater<T>(a: Entry<T>, b: Entry<T>)
    requires b.counter >= a.counter && |b.values| <= b.counter - a.counter + |a.values|
    requires b.counter == a.counter ==> b.values <= a.values
    ensures SyncEntry(a, b) == b && SyncEntry(b, a) == b
  {}

  /** Delta-mutator law: merging the updated copy into the state it came from is the update itself,
      and the update absorbs the old state. */
  lemma UpdateIsDelta<T>(d: Dvv<T>, self: NodeID, vv: VV, value: T)
    ensures Sync(d, Update(d, self, vv, value)) == Update(d, self, vv, value)
    ensures Sync(Update(d, self, vv, value), d) == Update(d, self, vv, value)
    ensures Leq(d, Update(d, self, vv, value))
  {
    var u := Update(d, self, vv, value);
    forall r | r in d
      ensures r in u && SyncEntry(d[r], u[r]) == u[r] && SyncEntry(u[r], d[r]) == u[r] && d[r].counter <= u[r].counter
    {
      if r == self {
        UpdateSelf(d, self, vv, value);
      } else {
        UpdateOther(d, self, vv, value, r);
      }
      SyncWithLater(d[r], u[r]);
    }
    SyncAbsorbed(d, u);
  }

  lemma SyncAbsorbed<T>(d: Dvv<T>, u: Dvv<T>)
    requires forall r | r in d :: r in u && SyncEntry(d[r], u[r]) == u[r] && SyncEntry(u[r], d[r]) == u[r]
    ensures Sync(d, u) == u && Sync(u, d) == u
  {
    assert Sync(d, u) == u;
    assert Sync(u, d) == u;
  }
}
