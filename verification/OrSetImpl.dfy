/** ORSet as the source holds it: a map from elements to separate DVVSet objects, mutated in place.
    Adopting an element clones it, so two sets never share an object. */
module OrSetImpl {
  import opened Bands
  import opened Gossip
  import opened DvvSets
  import opened DvvSetImpl
  import opened OrSets

  class ORSet {
    const nodeID: NodeID
    var state: map<Elem, DVVSet<bool>>

    /** Distinct elements are held by distinct objects. */
    ghost predicate Valid()
      reads this
    {
      forall e, f | e in state && f in state && e != f :: state[e] != state[f]
    }

    /** The objects the set owns. */
    ghost function Parts(): set<DVVSet<bool>>
      reads this
    {
      set e | e in state :: state[e]
    }

    /** The two sets share objects, if at all, for the same element. */
    ghost predicate Aligned(other: ORSet)
      reads this, other
    {
      forall e, f | e in state && f in other.state && e != f :: state[e] != other.state[f]
    }

    ghost function Value(): OrSet
      reads this, Parts()
    {
      map e | e in state :: state[e].state
    }

    constructor (id: NodeID)
      ensures nodeID == id && state == map[] && Valid()
    {
      nodeID := id;
      state := map[];
    }

    constructor Single(id: NodeID, e: Elem, ds: DVVSet<bool>)
      ensures nodeID == id && state == map[e := ds] && Valid() && Parts() == {ds}
    {
      nodeID := id;
      state := map[e := ds];
      new;
      assert state[e] == ds;
    }

    method Add(value: Elem, vv: VV) returns (delta: ORSet)
      ensures fresh(delta) && fresh(delta.Parts()) && delta.Valid()
      ensures delta.Value() == WriteDelta(Value(), nodeID, value, vv, true)
    {
      var ds: DVVSet<bool>;
      if value in state {
        ds := state[value].Clone();
      } else {
        ds := new DVVSet();
      }
      ds.Update(nodeID, vv, true);
      delta := new ORSet.Single("", value, ds);
    }

    method Remove(value: Elem, vv: VV) returns (delta: ORSet)
      ensures fresh(delta) && fresh(delta.Parts()) && delta.Valid()
      ensures delta.Value() == WriteDelta(Value(), nodeID, value, vv, false)
    {
      if value !in state {
        delta := new ORSet("");
        assert delta.Parts() == {};
        return;
      }
      var ds := state[value].Clone();
      ds.Update(nodeID, vv, false);
      delta := new ORSet.Single("", value, ds);
    }

    method Contains(value: Elem) returns (found: bool)
      ensures found == OrSets.Contains(Value(), value)
    {
      if value !in state {
        return false;
      }
      var siblings, _ := state[value].Values();
      assert Value()[value] == state[value].state;
      for j := 0 to |siblings|
        invariant forall n | 0 <= n < j :: !siblings[n]
      {
        if siblings[j] {
          assert siblings[j] in siblings;
          return true;
        }
      }
      assert true !in siblings;
      return false;
    }

    method IsLessOrEqual(other: ORSet) returns (leq: bool)
      ensures leq == OrSets.Leq(Value(), other.Value())
    {
      var todo := state.Keys;
      while todo != {}
        invariant todo <= state.Keys
        invariant forall e | e in state && e !in todo :: e in other.state && DvvSets.Leq(Value()[e], other.Value()[e])
        decreases todo
      {
        var e :| e in todo;
        assert e in Value();
        if e !in other.state {
          return false;
        }
        var ok := state[e].IsLessOrEqual(other.state[e]);
        if !ok {
          return false;
        }
        todo := todo - {e};
      }
      return true;
    }

    /** Merge after the elements of done: objects are the elements held before, mine their contents. */
    ghost predicate Merging(objects: map<Elem, DVVSet<bool>>, there: map<Elem, DVVSet<bool>>, mine: OrSet,
                            theirs: OrSet, done: set<Elem>)
      reads this, Parts(), set e | e in there :: there[e]
    {
      && objects.Keys == mine.Keys && there.Keys == theirs.Keys && done <= theirs.Keys
      && Valid() && state.Keys == mine.Keys + done
      && (forall e | e in mine :: state[e] == objects[e])
      && (forall e, f | e in objects && f in there && e != f :: objects[e] != there[f])
      && (forall e | e in there :: there[e].state == theirs[e])
      && (forall e | e in state :: state[e].state == if e in done then MergedElem(mine, theirs, e) else mine[e])
    }

    method SyncElem(e: Elem, ghost objects: map<Elem, DVVSet<bool>>, there: map<Elem, DVVSet<bool>>,
                    ghost mine: OrSet, ghost theirs: OrSet, ghost done: set<Elem>)
      requires Merging(objects, there, mine, theirs, done) && e in there && e !in done && e in state
      modifies state[e]
      ensures Merging(objects, there, mine, theirs, done + {e})
    {
      assert e in mine;
      SyncObject(state[e], there[e]);
    }

    method AdoptElem(e: Elem, ghost objects: map<Elem, DVVSet<bool>>, there: map<Elem, DVVSet<bool>>,
                     ghost mine: OrSet, ghost theirs: OrSet, ghost done: set<Elem>)
      requires Merging(objects, there, mine, theirs, done) && e in there && e !in done && e !in state
      modifies this
      ensures Merging(objects, there, mine, theirs, done + {e})
      ensures e in state && state == old(state)[e := state[e]] && fresh(state[e])
    {
      var copy := there[e].Clone();
      state := state[e := copy];
    }

    method MergeElem(e: Elem, ghost objects: map<Elem, DVVSet<bool>>, there: map<Elem, DVVSet<bool>>,
                     ghost mine: OrSet, ghost theirs: OrSet, ghost done: set<Elem>)
      requires Merging(objects, there, mine, theirs, done) && e in there && e !in done
      modifies this, if e in state then {state[e]} else {}
      ensures Merging(objects, there, mine, theirs, done + {e})
      ensures forall f | f in state :: f in mine || f in old(state) || fresh(state[f])
      ensures forall f | f in old(state) :: state[f] == old(state)[f]
    {
      if e in state {
        SyncElem(e, objects, there, mine, theirs, done);
      } else {
        AdoptElem(e, objects, there, mine, theirs, done);
      }
    }

    lemma MergingDone(objects: map<Elem, DVVSet<bool>>, other: ORSet, mine: OrSet, theirs: OrSet)
      requires Merging(objects, other.state, mine, theirs, theirs.Keys)
      ensures Value() == OrSets.Merge(mine, theirs) && other.Value() == theirs
    {
      var r := OrSets.Merge(mine, theirs);
      assert Value().Keys == mine.Keys + theirs.Keys == r.Keys;
      forall e | e in r ensures Value()[e] == r[e] {
        assert e in state;
      }
    }

    lemma MergingStarts(other: ORSet)
      requires Valid() && Aligned(other)
      ensures Merging(state, other.state, Value(), other.Value(), {})
    {}

    method MergeLoop(there: map<Elem, DVVSet<bool>>, ghost mine: OrSet, ghost theirs: OrSet,
                     ghost parts: set<DVVSet<bool>>)
      requires Merging(state, there, mine, theirs, {}) && forall e | e in state :: state[e] in parts
      modifies this, parts
      ensures Merging(old(state), there, mine, theirs, theirs.Keys)
      ensures forall e | e in state :: e in mine || fresh(state[e])
    {
      ghost var objects, done: set<Elem> := state, {};
      var todo := there.Keys;
      while todo != {}
        invariant forall e :: e in todo <==> e in theirs && e !in done
        invariant Merging(objects, there, mine, theirs, done)
        invariant forall e | e in state :: e in mine || fresh(state[e])
        decreases todo
      {
        var e :| e in todo;
        assert e in state ==> e in mine && state[e] == objects[e];
        MergeElem(e, objects, there, mine, theirs, done);
        todo, done := todo - {e}, done + {e};
      }
      assert done == theirs.Keys;
    }

    /** Merging with the set itself is allowed. */
    method Merge(other: ORSet)
      requires Valid() && Aligned(other)
      modifies this, Parts()
      ensures Valid() && fresh(Parts() - old(Parts()))
      ensures Value() == OrSets.Merge(old(Value()), old(other.Value()))
      ensures other.state == old(other.state) && other.Value() == old(other.Value())
    {
      ghost var objects, mine, theirs := state, Value(), other.Value();
      MergingStarts(other);
      MergeLoop(other.state, mine, theirs, Parts());
      assert other == this ==> state == objects;
      MergingDone(objects, other, mine, theirs);
    }
  }

  /** x.Sync(y) where the two may be one object. */
  method SyncObject(x: DVVSet<bool>, y: DVVSet<bool>)
    modifies x
    ensures x.state == Sync(old(x.state), old(y.state)) && y.state == old(y.state)
  {
    SyncSelf(x.state);
    x.Sync(y);
  }

  lemma SyncSelf(d: Dvv<bool>)
    ensures Sync(d, d) == d
  {
    SyncIsBand<bool>();
    assert Idem(Sync<bool>, d);
  }

  /** What merging two sets gives for an element. */
  ghost function MergedElem(mine: OrSet, theirs: OrSet, e: Elem): Dvv<bool> {
    if e in mine && e in theirs then Sync(mine[e], theirs[e]) else if e in mine then mine[e] else DvvOf(theirs, e)
  }
}
