/** ORSet (internal/crdt/crdt.go): each element carries a dotted version vector set of add (true) and
    remove (false) markers. */
module OrSets {
  import opened Bands
  import opened Gossip
  import opened DvvSets

  type Elem = string
  type OrSet = map<Elem, Dvv<bool>>

  const EMPTY_SET: OrSet := map[]

  function DvvOf(s: OrSet, e: Elem): Dvv<bool> {
    if e in s then s[e] else map[]
  }

  function Merge(a: OrSet, b: OrSet): OrSet {
    MapJoin(Sync<bool>, a, b)
  }

  predicate Leq(a: OrSet, b: OrSet) {
    forall e | e in a :: e in b && DvvSets.Leq(a[e], b[e])
  }

  predicate Contains(s: OrSet, e: Elem) {
    e in s && exists r | r in s[e] :: true in s[e][r].values
  }

  function CausalContext(s: OrSet, e: Elem): VV {
    Join(DvvOf(s, e))
  }

  /** The delta of Add (add) or Remove: an updated copy of the element, or nothing when removing an
      element this replica never saw. */
  function WriteDelta(s: OrSet, self: NodeID, e: Elem, vv: VV, add: bool): OrSet {
    if !add && e !in s then EMPTY_SET else map[e := Update(DvvOf(s, e), self, vv, add)]
  }

  const CARRIER: Carrier<OrSet, OrSet> := Carrier(Merge, Leq, EMPTY_SET, x => x, Merge)

  /** OR-Sets are a carrier of the gossip protocol. */
  lemma OrSetLaws()
    ensures Laws(CARRIER)
  {
    SyncIsBand<bool>();
    MapJoinIsBand<Elem, Dvv<bool>>(Sync<bool>);
    var lifted := (a: OrSet, b: OrSet) => MapJoin(Sync<bool>, a, b);
    forall x, y, z ensures Assoc(Merge, x, y, z) {
      assert Assoc(lifted, x, y, z);
    }
    forall x ensures Idem(Merge, x) {
      assert Idem(lifted, x);
    }
    forall x, y ensures Regular(Merge, x, y) {
      assert Regular(lifted, x, y);
    }
    forall x, y ensures ViewOfJoin(CARRIER, x, y) {
    }
  }

  /** Delta-mutator law: the delta of a write holds its element only; merging it performs the write on the
      element, keeps all knowledge, and leaves every other element alone. */
  lemma WriteIsDelta(s: OrSet, self: NodeID, e: Elem, vv: VV, add: bool)
    ensures var d := WriteDelta(s, self, e, vv, add);
            && d.Keys == (if !add && e !in s then {} else {e})
            && Merge(s, d) == (if !add && e !in s then s else s[e := Update(DvvOf(s, e), self, vv, add)])
            && Merge(Merge(s, d), s) == Merge(s, d)
            && Leq(s, Merge(s, d))
  {
    UpdateIsDelta(DvvOf(s, e), self, vv, add);
    if e in s || add {
      PutIsDelta(s, e, Update(DvvOf(s, e), self, vv, add));
    } else {
      OrSetLaws();
      assert Merge(s, EMPTY_SET) == s;
      assert Idem(Merge, s);
    }
  }

  lemma PutIsDelta(s: OrSet, e: Elem, u: Dvv<bool>)
    requires Sync(DvvOf(s, e), u) == u && Sync(u, DvvOf(s, e)) == u && DvvSets.Leq(DvvOf(s, e), u)
    ensures Merge(s, map[e := u]) == s[e := u]
    ensures Merge(s[e := u], s) == s[e := u] && Leq(s, s[e := u])
  {
    SyncIsBand<bool>();
    assert forall x | x in s :: Idem(Sync<bool>, s[x]);
    assert Merge(s, map[e := u]) == s[e := u];
    assert Merge(s[e := u], s) == s[e := u];
  }

  /** An add makes the element a member, whatever context it carries. */
  lemma AddedIsContained(s: OrSet, self: NodeID, e: Elem, vv: VV)
    ensures Contains(Merge(s, WriteDelta(s, self, e, vv, true)), e)
  {
    WriteIsDelta(s, self, e, vv, true);
    UpdateSelf(DvvOf(s, e), self, vv, true);
    var u := Update(DvvOf(s, e), self, vv, true);
    assert u[self].values[0] in u[self].values;
  }

  /** A remove with the context just read at the same replica makes it no member. */
  lemma ReadThenRemoved(s: OrSet, self: NodeID, e: Elem)
    ensures !Contains(Merge(s, WriteDelta(s, self, e, CausalContext(s, e), false)), e)
  {
    var d, vv := DvvOf(s, e), CausalContext(s, e);
    WriteIsDelta(s, self, e, vv, false);
    var u := Update(d, self, vv, false);
    forall r | r in u ensures true !in u[r].values {
      if r in d {
        assert Discard(d, vv)[r].values == [];
      }
    }
  }
}
