/** What goes wrong when a write's context runs ahead of its coordinator and names a node the coordinator
    has no entry for.  The contexts below are all ones a client can read from a replica. */
module ContextGap {
  import opened Bands
  import opened Gossip
  import opened DvvSets
  import opened OrSets

  const NONE: VV := map[]

  ghost predicate Three(a: NodeID, b: NodeID, c: NodeID) {
    a != b && b != c && a != c
  }

  /** Node r adds the element without having observed anything. */
  function Added(r: NodeID): Dvv<bool> {
    Update(map[], r, NONE, true)
  }

  /** Node a, which had added the element, receives c's add and removes exactly that. */
  function RemovedAtA(a: NodeID, c: NodeID): Dvv<bool> {
    Update(Sync(Added(a), Added(c)), a, Join(Added(c)), false)
  }

  /** A client reads the context at a and removes at b, which knows a's add and nothing of c. */
  function RemovedAtB(a: NodeID, b: NodeID, c: NodeID): Dvv<bool> {
    Update(Added(a), b, Join(RemovedAtA(a, c)), false)
  }

  /** c's add reaches b, and then b's state reaches a. */
  function FinalB(a: NodeID, b: NodeID, c: NodeID): Dvv<bool> {
    Sync(RemovedAtB(a, b, c), Added(c))
  }

  function FinalA(a: NodeID, b: NodeID, c: NodeID): Dvv<bool> {
    Sync(RemovedAtA(a, c), FinalB(a, b, c))
  }

  // The values, one operation at a time.

  lemma AddedIs(r: NodeID)
    ensures Added(r) == map[r := Entry(1, [true])] && Join(Added(r)) == map[r := 1]
  {
    var none: Dvv<bool> := map[];
    assert Discard(none, NONE) == map[];
    assert Added(r) == map[r := Entry(1, [true])];
  }

  lemma RemoveAtA(a: NodeID, c: NodeID)
    requires a != c
    ensures var both := map[a := Entry(1, [true]), c := Entry(1, [true])];
            && Sync(map[a := Entry(1, [true])], map[c := Entry(1, [true])]) == both
            && Update(both, a, map[c := 1], false) == map[a := Entry(2, [false, true]), c := Entry(1, [])]
  {
    var both := map[a := Entry(1, [true]), c := Entry(1, [true])];
    assert Sync(map[a := Entry(1, [true])], map[c := Entry(1, [true])]) == both;
    assert Discard(both, map[c := 1]) == map[a := Entry(1, [true]), c := Entry(1, [])];
    assert [false] + [true] == [false, true];
  }

  lemma RemovedAtAIs(a: NodeID, c: NodeID)
    requires a != c
    ensures RemovedAtA(a, c) == map[a := Entry(2, [false, true]), c := Entry(1, [])]
    ensures Join(RemovedAtA(a, c)) == map[a := 2, c := 1]
  {
    AddedIs(a);
    AddedIs(c);
    RemoveAtA(a, c);
  }

  lemma RemoveAtB(a: NodeID, b: NodeID, c: NodeID)
    requires Three(a, b, c)
    ensures Update(map[a := Entry(1, [true])], b, map[a := 2, c := 1], false) ==
              map[a := Entry(2, []), b := Entry(1, [false])]
  {
    assert Discard(map[a := Entry(1, [true])], map[a := 2, c := 1]) == map[a := Entry(1, [])];
  }

  lemma RemovedAtBIs(a: NodeID, b: NodeID, c: NodeID)
    requires Three(a, b, c)
    ensures RemovedAtB(a, b, c) == map[a := Entry(2, []), b := Entry(1, [false])]
  {
    AddedIs(a);
    RemovedAtAIs(a, c);
    RemoveAtB(a, b, c);
  }

  lemma SyncsAre(a: NodeID, b: NodeID, c: NodeID)
    requires Three(a, b, c)
    ensures var z := map[a := Entry(2, []), b := Entry(1, [false]), c := Entry(1, [true])];
            && Sync(map[a := Entry(2, []), b := Entry(1, [false])], map[c := Entry(1, [true])]) == z
            && Sync(map[a := Entry(2, [false, true]), c := Entry(1, [])], z)
               == map[a := Entry(2, []), b := Entry(1, [false]), c := Entry(1, [])]
  {}

  lemma FinalsAre(a: NodeID, b: NodeID, c: NodeID)
    requires Three(a, b, c)
    ensures FinalB(a, b, c) == map[a := Entry(2, []), b := Entry(1, [false]), c := Entry(1, [true])]
    ensures FinalA(a, b, c) == map[a := Entry(2, []), b := Entry(1, [false]), c := Entry(1, [])]
  {
    AddedIs(c);
    RemovedAtAIs(a, c);
    RemovedAtBIs(a, b, c);
    SyncsAre(a, b, c);
  }

  /** Same counters, and only y has an add. */
  lemma SameVectorOtherSiblings(x: Dvv<bool>, y: Dvv<bool>, a: NodeID, b: NodeID, c: NodeID, e: Elem)
    requires Three(a, b, c)
    requires x == map[a := Entry(2, []), b := Entry(1, [false]), c := Entry(1, [])]
    requires y == map[a := Entry(2, []), b := Entry(1, [false]), c := Entry(1, [true])]
    ensures Join(x) == Join(y) && DvvSets.Leq(x, y) && DvvSets.Leq(y, x)
    ensures Contains(map[e := y], e) && !Contains(map[e := x], e)
  {
    assert y[c].values == [true];
    assert true in y[c].values;
    assert forall r | r in x :: true !in x[r].values;
  }

  lemma ContextIsAhead(d: Dvv<bool>, w: Dvv<bool>, y: Dvv<bool>, a: NodeID, b: NodeID, c: NodeID)
    requires Three(a, b, c) && d == map[a := Entry(1, [true])]
    requires w == map[a := Entry(2, [false, true]), c := Entry(1, [])]
    requires y == map[a := Entry(2, []), b := Entry(1, [false]), c := Entry(1, [true])]
    ensures !ContextKnown(d, b, Join(w)) && !NothingDropped(d, b, Join(w)) && DvvSets.Leq(w, y)
  {
    assert a in d && VVGet(Join(w), a) == 2;
    assert c in Join(w) && Join(w)[c] == 1;
  }

  /** How the story ends: the states of a and of b. */
  ghost predicate Ends(x: Dvv<bool>, y: Dvv<bool>, a: NodeID, b: NodeID, c: NodeID) {
    Three(a, b, c) && x == FinalA(a, b, c) && y == FinalB(a, b, c)
  }

  /** The context was ahead of the coordinator's entry for a, and named c, for which it had none.  Afterwards
      a's state looks subsumed at b, and a and b hold the same version vector with different siblings: b
      contains the element, a does not. */
  lemma ContextAheadLosesAgreement(x: Dvv<bool>, y: Dvv<bool>, a: NodeID, b: NodeID, c: NodeID, e: Elem)
    requires Ends(x, y, a, b, c)
    ensures var vv := Join(RemovedAtA(a, c)); !ContextKnown(Added(a), b, vv) && !NothingDropped(Added(a), b, vv)
    ensures DvvSets.Leq(RemovedAtA(a, c), y)
    ensures Join(x) == Join(y) && Contains(map[e := y], e) && !Contains(map[e := x], e)
  {
    FinalsAre(a, b, c);
    SameVectorOtherSiblings(x, y, a, b, c, e);
    AddedIs(a);
    RemovedAtAIs(a, c);
    ContextIsAhead(Added(a), RemovedAtA(a, c), y, a, b, c);
  }

  /** Node b has added the element.  A remove at b whose context also covers c's add, of which b knows
      nothing, loses that part of the context although it claims nothing new: once c's add arrives the
      element is back, and nothing the remove had not covered was ever added. */
  lemma UnknownIdIsIgnored(b: NodeID, c: NodeID, e: Elem)
    requires b != c
    ensures var u := Update(Added(b), b, Join(Sync(Added(b), Added(c))), false);
            && ContextKnown(Added(b), b, Join(Sync(Added(b), Added(c))))
            && !Contains(map[e := u], e) && Contains(map[e := Sync(u, Added(c))], e)
  {
    AddedIs(b);
    AddedIs(c);
    RemoveAll(map[b := Entry(1, [true])], b, c, e);
  }

  lemma RemoveAll(d: Dvv<bool>, b: NodeID, c: NodeID, e: Elem)
    requires b != c && d == map[b := Entry(1, [true])]
    ensures var u := Update(d, b, Join(Sync(d, map[c := Entry(1, [true])])), false);
            !Contains(map[e := u], e) && Contains(map[e := Sync(u, map[c := Entry(1, [true])])], e)
  {
    var y: Dvv<bool> := map[c := Entry(1, [true])];
    assert Join(Sync(d, y)) == map[b := 1, c := 1];
    assert Discard(d, map[b := 1, c := 1]) == map[b := Entry(1, [])];
    var u := Update(d, b, map[b := 1, c := 1], false);
    assert [false] + [] == [false];
    assert u == map[b := Entry(2, [false])];
    var z := Sync(u, y);
    assert z[c] == Entry(1, [true]);
    assert true in z[c].values;
    assert forall r | r in u :: true !in u[r].values;
  }
}
