/** The operations of DVVSet as the source runs them: loops that rewrite the entries of one map, in
    whatever order the map is traversed.  Each is proved against its function in DvvSets. */
module DvvSetImpl {
  import opened Bands
  import opened Gossip
  import opened DvvSets
  import Counters

  class DVVSet<T(==)> {
    var state: Dvv<T>

    constructor ()
      ensures state == map[]
    {
      state := map[];
    }

    constructor Copy(s: Dvv<T>)
      ensures state == s
    {
      state := s;
    }

    /** All siblings, each as often as it occurs; order is the order in which ids were visited. */
    method Values() returns (result: seq<T>, ghost order: seq<NodeID>)
      ensures result == Siblings(state, order)
      ensures (forall r :: r in order <==> r in state) && forall a, b | 0 <= a < b < |order| :: order[a] != order[b]
      ensures forall v :: v in result <==> exists r :: r in state && v in state[r].values
      ensures |result| == Counters.Sum(Lengths(state, state.Keys))
      ensures forall v :: multiset(result)[v] == Counters.Sum(Counts(state, v, state.Keys))
    {
      result, order := [], [];
      var todo := state.Keys;
      while todo != {}
        invariant todo <= state.Keys
        invariant forall r :: r in order <==> r in state.Keys - todo
        invariant forall a, b | 0 <= a < b < |order| :: order[a] != order[b]
        invariant result == Siblings(state, order)
        decreases todo
      {
        var r :| r in todo;
        result := result + state[r].values;
        assert (order + [r])[..|order|] == order;
        assert forall a | 0 <= a < |order| :: order[a] in order && order[a] != r;
        order := order + [r];
        todo := todo - {r};
      }
      forall v ensures v in result <==> exists r :: r in state && v in state[r].values {
        SiblingsMembers(state, order, v);
      }
      SiblingsLength(state, order, state.Keys);
      forall v ensures multiset(result)[v] == Counters.Sum(Counts(state, v, state.Keys)) {
        SiblingsCount(state, order, v, state.Keys);
      }
    }

    method Join() returns (result: VV)
      ensures result == DvvSets.Join(state)
    {
      result := map[];
      var todo := state.Keys;
      while todo != {}
        invariant todo <= state.Keys
        invariant result == map r | r in state.Keys - todo :: state[r].counter
        decreases todo
      {
        var r :| r in todo;
        result := result[r := state[r].counter];
        todo := todo - {r};
      }
    }

    method Clone() returns (copy: DVVSet<T>)
      ensures fresh(copy) && copy.state == state
    {
      var s: Dvv<T> := map[];
      var todo := state.Keys;
      while todo != {}
        invariant todo <= state.Keys
        invariant s == map r | r in state.Keys - todo :: state[r]
        decreases todo
      {
        var r :| r in todo;
        s := s[r := Entry(state[r].counter, state[r].values)];
        todo := todo - {r};
      }
      assert s == state;
      copy := new DVVSet.Copy(s);
    }

    method Discard(vv: VV)
      modifies this
      ensures state == DvvSets.Discard(old(state), vv)
    {
      var todo := state.Keys;
      while todo != {}
        invariant todo <= old(state).Keys && state.Keys == old(state).Keys
        invariant forall r | r in todo :: state[r] == old(state)[r]
        invariant forall r | r in state && r !in todo :: state[r] == DvvSets.Discard(old(state), vv)[r]
        decreases todo
      {
        var r :| r in todo;
        if r in vv {
          var e := state[r];
          if e.counter > vv[r] {
            var n := if e.counter - vv[r] <= |e.values| then e.counter - vv[r] else |e.values|;
            e := Entry(e.counter, e.values[0..n]);
          } else {
            e := Entry(e.counter, []);
          }
          state := state[r := e];
        }
        todo := todo - {r};
      }
    }

    method Event(nodeID: NodeID, vv: VV, value: T)
      modifies this
      ensures state == DvvSets.Event(old(state), nodeID, vv, value)
    {
      if nodeID in state {
        var e := state[nodeID];
        state := state[nodeID := Entry(e.counter + 1, [value] + e.values)];
      } else {
        state := state[nodeID := Entry(1, [value])];
      }
      ghost var goal := DvvSets.Event(old(state), nodeID, vv, value);
      var todo := state.Keys;
      while todo != {}
        invariant todo <= goal.Keys && state.Keys == goal.Keys
        invariant forall r | r in todo && r != nodeID :: state[r] == old(state)[r]
        invariant forall r | r in state && (r !in todo || r == nodeID) :: state[r] == goal[r]
        decreases todo
      {
        var r :| r in todo;
        todo := todo - {r};
        if r == nodeID {
          continue;
        }
        var e := state[r];
        var bumped := if e.counter >= VVGet(vv, r) then e.counter else VVGet(vv, r);
        if bumped != e.counter {
          state := state[r := Entry(bumped, e.values)];
        }
      }
    }

    method Update(nodeID: NodeID, vv: VV, value: T)
      modifies this
      ensures state == DvvSets.Update(old(state), nodeID, vv, value)
    {
      Discard(vv);
      Event(nodeID, vv, value);
    }

    method Sync(other: DVVSet<T>)
      modifies this
      ensures state == DvvSets.Sync(old(state), old(other.state))
      ensures other != this ==> other.state == old(other.state)
    {
      ghost var mine, theirs := state, other.state;
      var ids := state.Keys + other.state.Keys;
      while ids != {}
        invariant ids <= mine.Keys + theirs.Keys
        invariant other != this ==> other.state == theirs
        invariant other == this ==> state == mine == theirs
        invariant state.Keys == mine.Keys + (theirs.Keys - ids)
        invariant forall r | r in state && r in ids :: state[r] == mine[r]
        invariant forall r | r in state && r !in ids :: state[r] == DvvSets.Sync(mine, theirs)[r]
        decreases ids
      {
        var id :| id in ids;
        if id in state {
          if id in other.state {
            state := state[id := MergeEntries(state[id], other.state[id])];
          }
        } else {
          state := state[id := Entry(other.state[id].counter, other.state[id].values)];
        }
        ids := ids - {id};
        if other == this {
          SyncEntrySelf(mine[id]);
          assert state == mine;
        }
      }
    }

    method IsLessOrEqual(other: DVVSet<T>) returns (leq: bool)
      ensures leq == Leq(state, other.state)
    {
      var todo := state.Keys;
      while todo != {}
        invariant todo <= state.Keys
        invariant forall r | r in state && r !in todo :: state[r].counter <= Counter(other.state, r)
        decreases todo
      {
        var r :| r in todo;
        if state[r].counter > Counter(other.state, r) {
          return false;
        }
        todo := todo - {r};
      }
      return true;
    }
  }

  /** The entry Sync stores for an id present on both sides, with the slice bounds of the source. */
  function MergeEntries<T>(entry: Entry<T>, otherEntry: Entry<T>): (r: Entry<T>)
    ensures r == SyncEntry(entry, otherEntry)
  {
    if entry.counter >= otherEntry.counter then
      var keep := entry.counter - otherEntry.counter + |otherEntry.values|;
      Entry(entry.counter, entry.values[0..if keep <= |entry.values| then keep else |entry.values|])
    else
      var keep := otherEntry.counter - entry.counter + |entry.values|;
      Entry(otherEntry.counter, otherEntry.values[0..if keep <= |otherEntry.values| then keep else |otherEntry.values|])
  }

  lemma SyncEntrySelf<T>(e: Entry<T>)
    ensures SyncEntry(e, e) == e
  {}

  /** The siblings of the ids in order, one id after the other. */
  function Siblings<T>(d: Dvv<T>, order: seq<NodeID>): seq<T> {
    if order == [] then [] else
      var r := order[|order| - 1];
      Siblings(d, order[..|order| - 1]) + if r in d then d[r].values else []
  }

  lemma {:induction false} SiblingsMembers<T>(d: Dvv<T>, order: seq<NodeID>, v: T)
    ensures v in Siblings(d, order) <==> exists r :: r in order && r in d && v in d[r].values
  {
    if order != [] {
      var rest, last := order[..|order| - 1], order[|order| - 1];
      SiblingsMembers(d, rest, v);
      assert order == rest + [last];
    }
  }

  /** How many siblings each id has, and how often v is among them. */
  ghost function Lengths<T>(d: Dvv<T>, ids: set<NodeID>): map<NodeID, nat> {
    map r | r in d && r in ids :: |d[r].values|
  }

  ghost function Counts<T>(d: Dvv<T>, v: T, ids: set<NodeID>): map<NodeID, nat> {
    map r | r in d && r in ids :: multiset(d[r].values)[v]
  }

  /** The ids without the last. */
  lemma RestOfOrder(order: seq<NodeID>, ids: set<NodeID>)
    requires order != [] && forall r :: r in order <==> r in ids
    requires forall a, b | 0 <= a < b < |order| :: order[a] != order[b]
    ensures var rest, r := order[..|order| - 1], order[|order| - 1];
            r in ids && forall q :: q in rest <==> q in ids - {r}
  {
    var rest, r := order[..|order| - 1], order[|order| - 1];
    assert order == rest + [r];
    assert r in order;
    forall q ensures q in rest <==> q in ids - {r} {
      if q in rest {
        var n :| 0 <= n < |rest| && rest[n] == q;
        assert order[n] != r && q in order;
      }
    }
  }

  /** Each id's siblings are there once. */
  lemma {:induction false} SiblingsLength<T>(d: Dvv<T>, order: seq<NodeID>, ids: set<NodeID>)
    requires (forall r :: r in order <==> r in ids) && ids <= d.Keys
    requires forall a, b | 0 <= a < b < |order| :: order[a] != order[b]
    ensures |Siblings(d, order)| == Counters.Sum(Lengths(d, ids))
  {
    if order == [] {
      assert Lengths(d, ids) == map[];
    } else {
      var rest, r := order[..|order| - 1], order[|order| - 1];
      RestOfOrder(order, ids);
      SiblingsLength(d, rest, ids - {r});
      Counters.SumRemove(Lengths(d, ids), r);
      assert Lengths(d, ids) - {r} == Lengths(d, ids - {r});
    }
  }

  lemma {:induction false} SiblingsCount<T>(d: Dvv<T>, order: seq<NodeID>, v: T, ids: set<NodeID>)
    requires (forall r :: r in order <==> r in ids) && ids <= d.Keys
    requires forall a, b | 0 <= a < b < |order| :: order[a] != order[b]
    ensures multiset(Siblings(d, order))[v] == Counters.Sum(Counts(d, v, ids))
  {
    if order == [] {
      assert Counts(d, v, ids) == map[];
    } else {
      var rest, r := order[..|order| - 1], order[|order| - 1];
      RestOfOrder(order, ids);
      SiblingsCount(d, rest, v, ids - {r});
      Counters.SumRemove(Counts(d, v, ids), r);
      assert Counts(d, v, ids) - {r} == Counts(d, v, ids - {r});
    }
  }
}
