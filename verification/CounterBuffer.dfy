/** The delta buffer of the counters with the sharing the source has: Store.Delta accumulates into
    copies of buffered structs, and so changes the buffer's own maps in place.  No call changes what
    any suffix of the buffer gathers to. */
module CounterBuffer {
  import opened Bands
  import opened Gossip
  import opened Counters
  import opened CounterImpl
  import opened SuffixJoins

  /** One buffered delta; entry n of the buffer has sequence number n + 1. */
  datatype Buffered = Buffered(key: Key, value: PNCounter)

  function Cell(p: PNCounter, up: bool): CounterMap? {
    if up then p.inc.counters else p.dec.counters
  }

  function Side(v: PN, up: bool): Slots {
    if up then v.inc else v.dec
  }

  ghost function CellContent(c: CounterMap?): Slots
    reads c
  {
    if c == null then map[] else c.m
  }

  /** No two places of the buffer share a map. */
  ghost predicate Distinct(entries: seq<Buffered>) {
    forall n, s, m, t | 0 <= n < |entries| && 0 <= m < |entries| && (n, s) != (m, t) ::
      Cell(entries[n].value, s) == null || Cell(entries[n].value, s) != Cell(entries[m].value, t)
  }

  ghost function Cells(entries: seq<Buffered>): set<object?> {
    set n, s: bool | 0 <= n < |entries| :: Cell(entries[n].value, s)
  }

  /** The deltas as the maps hold them now. */
  ghost function Now(entries: seq<Buffered>): Buf
    reads Cells(entries)
  {
    seq(|entries|, n requires 0 <= n < |entries| reads Cells(entries) =>
      assert Cell(entries[n].value, true) in Cells(entries) && Cell(entries[n].value, false) in Cells(entries);
      Delta(entries[n].key, PNContent(entries[n].value)))
  }

  ghost function Locals(counters: map<Key, PNCounter>): set<object?> {
    set k, s: bool | k in counters :: Cell(counters[k], s)
  }

  /** Each accumulated counter holds the join of its key's deltas. */
  ghost predicate Holding(counters: map<Key, PNCounter>, g: map<Key, PN>)
    reads Locals(counters)
  {
    && counters.Keys == g.Keys
    && forall k, s | k in counters ::
         (assert Cell(counters[k], s) in Locals(counters); CellContent(Cell(counters[k], s)) == Side(g[k], s))
  }

  /** No two accumulated counters share a map, nor do the two directions of one. */
  ghost predicate Apart(counters: map<Key, PNCounter>) {
    forall k, s, l, t | k in counters && l in counters && (k, s) != (l, t) ::
      Cell(counters[k], s) == null || Cell(counters[k], s) != Cell(counters[l], t)
  }

  /** A map of the buffer is shared, if at all, with the counter accumulated for its own key, and only
      by the first entry of that key in the interval. */
  ghost predicate Sharing(entries: seq<Buffered>, counters: map<Key, PNCounter>, a: nat, i: nat) {
    forall n, s, k, t | 0 <= n < |entries| && k in counters :: Shares(entries, n, s, counters[k], k, t, a, i)
  }

  ghost predicate Shares(entries: seq<Buffered>, n: nat, s: bool, p: PNCounter, k: Key, t: bool, a: nat, i: nat)
    requires n < |entries|
  {
    Cell(entries[n].value, s) != null && Cell(entries[n].value, s) == Cell(p, t) ==>
      s == t && IsFirst(entries, n, k, a, i)
  }

  ghost predicate IsFirst(entries: seq<Buffered>, n: nat, k: Key, a: nat, i: nat)
    requires n < |entries|
  {
    a <= n < i && entries[n].key == k && forall m | a <= m < n :: entries[m].key != k
  }

  ghost predicate Shared(e: Buffered, counters: map<Key, PNCounter>, s: bool) {
    e.key in counters && Cell(e.value, s) != null && Cell(e.value, s) == Cell(counters[e.key], s)
  }

  /** A map of the buffer that is not shared is as it was. */
  ghost predicate Untouched(entries: seq<Buffered>, counters: map<Key, PNCounter>, was: Buf)
    requires |was| == |entries|
    reads Cells(entries)
  {
    forall n, s | 0 <= n < |entries| && !Shared(entries[n], counters, s) ::
      (assert Cell(entries[n].value, s) in Cells(entries);
       CellContent(Cell(entries[n].value, s)) == Side(was[n].value, s))
  }

  ghost predicate Accumulated(entries: seq<Buffered>, counters: map<Key, PNCounter>, was: Buf, a: nat, i: nat)
    requires a <= i <= |entries| == |was|
    reads Cells(entries), Locals(counters)
  {
    && Holding(counters, Gather(CARRIER, was[a..i])) && Apart(counters)
    && Sharing(entries, counters, a, i) && Untouched(entries, counters, was)
  }

  lemma GatherStep(was: Buf, a: nat, i: nat)
    requires a <= i < |was|
    ensures var g, d := Gather(CARRIER, was[a..i]), was[i];
            Gather(CARRIER, was[a..i + 1]) == g[d.key := if d.key in g then Merge(g[d.key], d.value) else d.value]
  {
    assert was[a..i + 1][..i - a] == was[a..i];
  }

  /** An entry that was not reached yet shares nothing and is as it was. */
  lemma Unreached(entries: seq<Buffered>, counters: map<Key, PNCounter>, was: Buf, a: nat, i: nat, s: bool)
    requires a <= i < |entries| == |was| && Accumulated(entries, counters, was, a, i)
    ensures CellContent(Cell(entries[i].value, s)) == Side(was[i].value, s)
    ensures forall k, t | k in counters ::
              Cell(entries[i].value, s) == null || Cell(entries[i].value, s) != Cell(counters[k], t)
  {
    forall k, t | k in counters
      ensures Cell(entries[i].value, s) == null || Cell(entries[i].value, s) != Cell(counters[k], t)
    {
      assert Shares(entries, i, s, counters[k], k, t, a, i);
    }
    assert !Shared(entries[i], counters, s);
  }

  /** The first delta of a key is adopted with its maps; nothing in the heap changes. */
  lemma AdoptFirst(entries: seq<Buffered>, counters: map<Key, PNCounter>, was: Buf, a: nat, i: nat)
    requires a <= i < |entries| == |was| && Distinct(entries) && was[i].key == entries[i].key
    requires Accumulated(entries, counters, was, a, i) && entries[i].key !in counters
    requires forall m | a <= m < i :: was[m].key == entries[m].key
    ensures Accumulated(entries, counters[entries[i].key := entries[i].value], was, a, i + 1)
  {
    var k, v := entries[i].key, entries[i].value;
    var r, j := counters[k := v], i + 1;
    GatherStep(was, a, i);
    Unreached(entries, counters, was, a, i, true);
    Unreached(entries, counters, was, a, i, false);
    assert Apart(r);
    forall n, s, l, t | 0 <= n < |entries| && l in r ensures Shares(entries, n, s, r[l], l, t, a, j) {
      if l == k {
        GatherIsJoinKey(was[a..i], k);
        forall m | a <= m < i ensures entries[m].key != k {
          assert was[a..i][m - a] == was[m];
        }
      } else {
        assert Shares(entries, n, s, counters[l], l, t, a, i);
      }
    }
  }

  /** merged keeps the maps of p and has new ones where p has none. */
  ghost predicate Renews(entries: seq<Buffered>, counters: map<Key, PNCounter>, p: PNCounter, merged: PNCounter) {
    && Cell(merged, true) != Cell(merged, false)
    && (forall s :: Cell(p, s) != null ==> Cell(merged, s) == Cell(p, s))
    && (forall s, n, t | 0 <= n < |entries| && Cell(p, s) == null :: Cell(merged, s) != Cell(entries[n].value, t))
    && (forall s, l, t | l in counters && Cell(p, s) == null :: Cell(merged, s) != Cell(counters[l], t))
  }

  lemma MergeShares(entries: seq<Buffered>, counters: map<Key, PNCounter>, merged: PNCounter, k: Key, a: nat, i: nat)
    requires k in counters && Apart(counters) && Sharing(entries, counters, a, i)
    requires Renews(entries, counters, counters[k], merged)
    ensures Apart(counters[k := merged]) && Sharing(entries, counters[k := merged], a, i + 1)
  {
    var r, j := counters[k := merged], i + 1;
    forall n, s, l, t | 0 <= n < |entries| && l in r ensures Shares(entries, n, s, r[l], l, t, a, j) {
      assert Shares(entries, n, s, counters[l], l, t, a, i);
    }
  }

  /** A map that is not shared after the merge was not shared before, and is not one of p's. */
  lemma MergeLeaves(entries: seq<Buffered>, counters: map<Key, PNCounter>, merged: PNCounter, k: Key, a: nat, i: nat,
                    n: nat, s: bool)
    requires k in counters && Sharing(entries, counters, a, i) && n < |entries|
    requires Renews(entries, counters, counters[k], merged) && !Shared(entries[n], counters[k := merged], s)
    ensures !Shared(entries[n], counters, s)
    ensures forall t :: Cell(entries[n].value, s) == null || Cell(entries[n].value, s) != Cell(counters[k], t)
  {
    var p := counters[k];
    assert Shares(entries, n, s, p, k, true, a, i) && Shares(entries, n, s, p, k, false, a, i);
  }

  method MergeInto(entries: seq<Buffered>, counters: map<Key, PNCounter>, k: Key, v: PNCounter)
    returns (merged: PNCounter)
    requires k in counters && Separate(counters[k], v)
    modifies counters[k].inc.counters, counters[k].dec.counters
    ensures Renews(entries, counters, counters[k], merged)
    ensures forall s :: Cell(counters[k], s) == null ==> fresh(Cell(merged, s))
    ensures forall s :: CellContent(Cell(merged, s)) ==
                        MergeSlots(old(CellContent(Cell(counters[k], s))), old(CellContent(Cell(v, s))))
  {
    merged := PNMerge(counters[k], v);
  }

  /** A later delta of a key is merged into what was accumulated, in place. */
  method MergeLater(entries: seq<Buffered>, counters: map<Key, PNCounter>, ghost was: Buf, ghost a: nat, i: nat)
    returns (result: map<Key, PNCounter>)
    requires a <= i < |entries| == |was| && was[i].key == entries[i].key
    requires Accumulated(entries, counters, was, a, i) && entries[i].key in counters
    modifies counters[entries[i].key].inc.counters, counters[entries[i].key].dec.counters
    ensures Accumulated(entries, result, was, a, i + 1)
    ensures result.Keys == counters.Keys
    ensures forall l, s | l in counters && l != entries[i].key :: Cell(result[l], s) == Cell(counters[l], s)
    ensures var k := entries[i].key; forall s :: Cell(result[k], s) == Cell(counters[k], s) || fresh(Cell(result[k], s))
  {
    var k, v := entries[i].key, entries[i].value;
    ghost var p := counters[k];
    assert Cell(p, true) == p.inc.counters && Cell(p, false) == p.dec.counters;
    assert Cell(v, true) == v.inc.counters && Cell(v, false) == v.dec.counters;
    Unreached(entries, counters, was, a, i, true);
    Unreached(entries, counters, was, a, i, false);
    var merged := MergeInto(entries, counters, k, v);
    result := counters[k := merged];
    GatherStep(was, a, i);
    ghost var g := Gather(CARRIER, was[a..i + 1]);
    forall l, s | l in result ensures CellContent(Cell(result[l], s)) == Side(g[l], s) {
      if l != k {
        assert Cell(counters[l], s) == null
               || (Cell(counters[l], s) != Cell(p, true) && Cell(counters[l], s) != Cell(p, false));
      }
    }
    MergeShares(entries, counters, merged, k, a, i);
    forall n, s | 0 <= n < |entries| && !Shared(entries[n], result, s)
      ensures CellContent(Cell(entries[n].value, s)) == Side(was[n].value, s)
    {
      MergeLeaves(entries, counters, merged, k, a, i, n, s);
    }
  }

  /** At the end of the interval, every buffered delta has at most absorbed later deltas of its key. */
  lemma AccumulatedAbsorbs(entries: seq<Buffered>, counters: map<Key, PNCounter>, was: Buf, a: nat)
    requires a <= |entries| == |was| && Accumulated(entries, counters, was, a, |entries|)
    requires forall n | 0 <= n < |was| :: was[n].key == entries[n].key
    ensures Absorbed(was, Now(entries))
  {
    forall n | 0 <= n < |was| ensures AbsorbedAt(was, Now(entries), n) {
      EntryAbsorbs(entries, counters, was, a, n);
    }
  }

  /** Each map of an entry holds what it held, or the join of the key's deltas from the entry on. */
  lemma EntrySide(entries: seq<Buffered>, counters: map<Key, PNCounter>, was: Buf, a: nat, n: nat, s: bool)
    requires a <= |entries| == |was| && n < |was| && Accumulated(entries, counters, was, a, |entries|)
    requires forall m | 0 <= m < |was| :: was[m].key == entries[m].key
    ensures var c := CellContent(Cell(entries[n].value, s));
            c == Side(was[n].value, s) || c == Side(JoinKey(was[n..], was[n].key), s)
  {
    var k := was[n].key;
    if Shared(entries[n], counters, s) {
      assert Shares(entries, n, s, counters[k], k, s, a, |entries|);
      assert was[a..|was|] == was[a..];
      GatherIsJoinKey(was[a..], k);
      FirstJoin(was, a, n);
    }
  }

  lemma FirstJoin(was: Buf, a: nat, n: nat)
    requires a <= n < |was| && forall m | a <= m < n :: was[m].key != was[n].key
    ensures JoinKey(was[a..], was[n].key) == JoinKey(was[n..], was[n].key)
  {
    assert forall m | 0 <= m < n - a :: was[a..][m].key != was[n].key;
    JoinKeySkips(was[a..], was[n].key, n - a);
    assert was[a..][n - a..] == was[n..];
  }

  lemma EntryAbsorbs(entries: seq<Buffered>, counters: map<Key, PNCounter>, was: Buf, a: nat, n: nat)
    requires a <= |entries| == |was| && n < |was| && Accumulated(entries, counters, was, a, |entries|)
    requires forall m | 0 <= m < |was| :: was[m].key == entries[m].key
    ensures AbsorbedAt(was, Now(entries), n)
  {
    var v, all, now := was[n].value, JoinKey(was[n..], was[n].key), PNContent(entries[n].value);
    FirstBelow(was, n);
    EntrySide(entries, counters, was, a, n, true);
    EntrySide(entries, counters, was, a, n, false);
    SidesBelow(v, now, all);
  }

  lemma FirstBelow(was: Buf, n: nat)
    requires n < |was|
    ensures Below(was[n].value, JoinKey(was[n..], was[n].key))
  {
    assert was[n..][..|was| - n] == was[n..];
    JoinKeyGrows(was[n..], was[n].key, |was| - n);
  }

  /** A counter each direction of which is that of v or that of all lies between the two. */
  lemma SidesBelow(v: PN, now: PN, all: PN)
    requires Below(v, all) && (now.inc == v.inc || now.inc == all.inc) && (now.dec == v.dec || now.dec == all.dec)
    ensures Below(v, now) && Below(now, all)
  {
    MergeZero(v);
    MergeZero(all);
  }

  lemma StartAccumulated(entries: seq<Buffered>, a: nat)
    requires a <= |entries|
    ensures Accumulated(entries, map[], Now(entries), a, a)
  {
    assert Now(entries)[a..a] == [];
    forall n, s | 0 <= n < |entries| ensures CellContent(Cell(entries[n].value, s)) == Side(Now(entries)[n].value, s) {}
  }

  /** Everything the accumulated counters refer to belongs to the buffer or is new. */
  ghost predicate Within(counters: map<Key, PNCounter>, cells: set<object?>, new_: set<object?>) {
    forall k, s | k in counters ::
      Cell(counters[k], s) == null || Cell(counters[k], s) in cells || Cell(counters[k], s) in new_
  }

  /** The loop of Store.Delta over the entries from a on. */
  method Accumulate(entries: seq<Buffered>, ghost was: Buf, a: nat) returns (counters: map<Key, PNCounter>)
    requires a <= |entries| && Distinct(entries) && was == Now(entries)
    modifies Cells(entries)
    ensures Accumulated(entries, counters, was, a, |entries|)
  {
    counters := map[];
    StartAccumulated(entries, a);
    var i := a;
    ghost var cells, new_: set<object?> := Cells(entries), {};
    assert forall n | 0 <= n < |entries| :: was[n].key == entries[n].key;
    while i < |entries|
      invariant a <= i <= |entries| && fresh(new_ - {null})
      invariant Accumulated(entries, counters, was, a, i)
      invariant Within(counters, cells, new_)
    {
      counters, new_ := AccumulateOne(entries, counters, was, a, i, cells, new_);
      i := i + 1;
    }
  }

  method AccumulateOne(entries: seq<Buffered>, counters: map<Key, PNCounter>, ghost was: Buf, ghost a: nat, i: nat,
                       ghost cells: set<object?>, ghost new_: set<object?>)
    returns (result: map<Key, PNCounter>, ghost newer: set<object?>)
    requires a <= i < |entries| == |was| && Distinct(entries) && cells == Cells(entries)
    requires forall n | 0 <= n < |entries| :: was[n].key == entries[n].key
    requires Accumulated(entries, counters, was, a, i) && Within(counters, cells, new_)
    modifies cells, new_
    ensures Accumulated(entries, result, was, a, i + 1) && Within(result, cells, newer)
    ensures new_ <= newer && fresh(newer - new_ - {null})
  {
    var k := entries[i].key;
    newer := new_;
    if k in counters {
      ghost var p := counters[k];
      assert Cell(p, true) == p.inc.counters && Cell(p, false) == p.dec.counters;
      result := MergeLater(entries, counters, was, a, i);
      newer := new_ + (if fresh(Cell(result[k], true)) then {Cell(result[k], true)} else {})
                    + (if fresh(Cell(result[k], false)) then {Cell(result[k], false)} else {});
    } else {
      AdoptFirst(entries, counters, was, a, i);
      assert Cell(entries[i].value, true) in cells && Cell(entries[i].value, false) in cells;
      result := counters[k := entries[i].value];
    }
  }

  /** The values that go on the wire. */
  method Marshal(counters: map<Key, PNCounter>, ghost g: map<Key, PN>) returns (content: map<Key, PN>)
    requires Holding(counters, g)
    ensures content == g
  {
    content := map k | k in counters :: PN(
      if counters[k].inc.counters == null then map[] else counters[k].inc.counters.m,
      if counters[k].dec.counters == null then map[] else counters[k].dec.counters.m);
    forall k | k in counters ensures content[k] == g[k] {
      assert Cell(counters[k], true) == counters[k].inc.counters
             && Cell(counters[k], false) == counters[k].dec.counters;
      assert CellContent(Cell(counters[k], true)) == Side(g[k], true)
             && CellContent(Cell(counters[k], false)) == Side(g[k], false);
    }
  }

  class Buffer {
    var entries: seq<Buffered>
    ghost var recorded: Buf

    /** The deltas may have absorbed later ones of their key since they were recorded, no more. */
    ghost predicate Valid()
      reads this, Cells(entries)
    {
      |recorded| == |entries| && Distinct(entries) && Absorbed(recorded, Now(entries))
    }

    constructor ()
      ensures Valid() && recorded == []
    {
      entries, recorded := [], [];
    }

    /** Record a delta whose maps nothing in the buffer refers to. */
    method Record(key: Key, d: PNCounter)
      requires Valid() && Cell(d, true) !in Cells(entries) - {null} && Cell(d, false) !in Cells(entries) - {null}
      requires Cell(d, true) == null || Cell(d, true) != Cell(d, false)
      modifies this
      ensures Valid() && recorded == old(recorded) + [Delta(key, PNContent(d))]
      ensures entries == old(entries) + [Buffered(key, d)]
    {
      AbsorbedSnoc(recorded, Now(entries), Delta(key, PNContent(d)));
      ghost var was := entries;
      assert forall n, s | 0 <= n < |was| :: Cell(was[n].value, s) in Cells(was);
      entries, recorded := entries + [Buffered(key, d)], recorded + [Delta(key, PNContent(d))];
      assert Now(entries) == Now(was) + [Delta(key, PNContent(d))];
      assert Distinct(entries);
    }

    /** What Store.Delta gathers for a peer that acknowledged acked, through maps it shares with the
        buffer.  Every call gathers what the deltas as recorded add up to. */
    method Gathered(acked: nat) returns (content: map<Key, PN>)
      requires Valid() && 1 <= acked <= |entries|
      modifies Cells(entries)
      ensures Valid() && entries == old(entries) && recorded == old(recorded)
      ensures content == Gather(CARRIER, recorded[acked - 1..])
    {
      ghost var was := Now(entries);
      var counters := Accumulate(entries, was, acked - 1);
      AccumulatedAbsorbs(entries, counters, was, acked - 1);
      AbsorbedKeepsGather(recorded, was, acked - 1);
      AbsorbedTransitive(recorded, was, Now(entries));
      assert was[acked - 1..|entries|] == was[acked - 1..];
      content := Marshal(counters, Gather(CARRIER, was[acked - 1..]));
    }
  }
}
