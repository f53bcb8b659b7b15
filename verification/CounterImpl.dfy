/** GCounter and PNCounter as the source holds them: structs that refer to Go maps.  Copying a struct
    shares its maps; a map may be nil. */
module CounterImpl {
  import opened Bands
  import opened Gossip
  import opened Counters

  /** A Go map[NodeID]uint64. */
  class CounterMap {
    var m: Slots

    constructor (s: Slots)
      ensures m == s
    {
      m := s;
    }
  }

  datatype GCounter = GCounter(nodeID: NodeID, counters: CounterMap?)

  datatype PNCounter = PNCounter(inc: GCounter, dec: GCounter)

  ghost function Content(g: GCounter): Slots
    reads g.counters
  {
    if g.counters == null then map[] else g.counters.m
  }

  ghost function PNContent(p: PNCounter): PN
    reads p.inc.counters, p.dec.counters
  {
    PN(Content(p.inc), Content(p.dec))
  }

  method NewGCounter(nodeID: NodeID) returns (g: GCounter)
    ensures g.nodeID == nodeID && g.counters != null && fresh(g.counters) && Content(g) == map[]
  {
    var m := new CounterMap(map[]);
    g := GCounter(nodeID, m);
  }

  /** The total of all slots, in 64-bit arithmetic. */
  method GValue(g: GCounter) returns (sum: nat)
    ensures sum == Sum(Content(g)) % TWO64
  {
    sum := 0;
    if g.counters == null {
      return;
    }
    var todo, m := g.counters.m.Keys, g.counters.m;
    ghost var rest := m;
    while todo != {}
      invariant rest == map r | r in todo && r in m :: m[r]
      invariant todo <= m.Keys && sum < TWO64
      invariant (sum + Sum(rest)) % TWO64 == Sum(m) % TWO64
      decreases todo
    {
      var r :| r in todo;
      SumRemove(rest, r);
      var next := (sum + m[r]) % TWO64;
      AddMod(sum + m[r], Sum(rest - {r}));
      rest := rest - {r};
      sum := next;
      todo := todo - {r};
    }
    assert rest == map[];
  }

  lemma AddMod(x: nat, y: nat)
    ensures (x % TWO64 + y) % TWO64 == (x + y) % TWO64
  {
    var q := x / TWO64;
    assert x == q * TWO64 + x % TWO64;
    assert x + y == q * TWO64 + (x % TWO64 + y);
  }

  method GIncrement(g: GCounter, n: nat) returns (delta: GCounter)
    ensures delta.counters != null && fresh(delta.counters)
    ensures Content(delta) == IncrementSlots(Content(g), g.nodeID, n)
  {
    var own := if g.counters != null && g.nodeID in g.counters.m then g.counters.m[g.nodeID] else 0;
    var m := new CounterMap(map[g.nodeID := (own + n) % TWO64]);
    delta := GCounter("", m);
  }

  /** g.Merge(other): a nil map is replaced by a new one, any other map is changed in place, even if it is
      other's own. */
  method GMerge(g: GCounter, other: GCounter) returns (r: GCounter)
    modifies g.counters
    ensures r.nodeID == g.nodeID && r.counters != null
    ensures if g.counters == null then fresh(r.counters) else r.counters == g.counters
    ensures Content(r) == MergeSlots(old(Content(g)), old(Content(other)))
    ensures Content(other) == old(Content(other))
  {
    ghost var mine, theirs := Content(g), Content(other);
    r := g;
    if g.counters == null {
      var m := new CounterMap(map[]);
      r := GCounter(g.nodeID, m);
    }
    if other.counters == null {
      assert MergeSlots(mine, map[]) == mine;
      return;
    }
    var todo := other.counters.m.Keys;
    while todo != {}
      invariant todo <= theirs.Keys && other.counters.m == theirs
      invariant r.counters.m == MergeSlots(mine, Seen(theirs, todo))
      decreases todo
    {
      var q :| q in todo;
      SeenOneMore(mine, theirs, todo, q);
      r.counters.m := r.counters.m[q := Max(Get(r.counters.m, q), other.counters.m[q])];
      todo := todo - {q};
    }
    assert Seen(theirs, todo) == theirs;
  }

  /** The slots already visited. */
  ghost function Seen(theirs: Slots, todo: set<NodeID>): Slots {
    map q | q in theirs && q !in todo :: theirs[q]
  }

  lemma SeenOneMore(mine: Slots, theirs: Slots, todo: set<NodeID>, q: NodeID)
    requires q in todo && todo <= theirs.Keys
    ensures var m := MergeSlots(mine, Seen(theirs, todo));
            MergeSlots(mine, Seen(theirs, todo - {q})) == m[q := Max(Get(m, q), theirs[q])]
  {}

  method GLessOrEqual(g: GCounter, other: GCounter) returns (leq: bool)
    ensures leq == LeqSlots(Content(g), Content(other))
  {
    if g.counters == null {
      return true;
    }
    var todo := g.counters.m.Keys;
    while todo != {}
      invariant todo <= g.counters.m.Keys
      invariant forall r | r in g.counters.m && r !in todo :: g.counters.m[r] <= Get(Content(other), r)
      decreases todo
    {
      var r :| r in todo;
      var bound := if other.counters == null then 0 else Get(other.counters.m, r);
      if g.counters.m[r] > bound {
        return false;
      }
      todo := todo - {r};
    }
    return true;
  }

  /** PNCounter.Value: the reading of the two sums in 64-bit arithmetic. */
  method PNValue(p: PNCounter) returns (value: int)
    ensures value == Reading(Sum(Content(p.inc)), Sum(Content(p.dec)))
  {
    var inc := GValue(p.inc);
    var dec := GValue(p.dec);
    value := SubInt64(ToInt64(inc), ToInt64(dec));
  }

  method PNIncrement(p: PNCounter, n: nat) returns (delta: PNCounter)
    ensures PNContent(delta) == Increment(PNContent(p), p.inc.nodeID, n)
    ensures fresh(delta.inc.counters) && delta.dec.counters == null
  {
    var d := GIncrement(p.inc, n);
    delta := PNCounter(d, GCounter("", null));
  }

  method PNDecrement(p: PNCounter, n: nat) returns (delta: PNCounter)
    ensures PNContent(delta) == Decrement(PNContent(p), p.dec.nodeID, n)
    ensures fresh(delta.dec.counters) && delta.inc.counters == null
  {
    var d := GIncrement(p.dec, n);
    delta := PNCounter(GCounter("", null), d);
  }

  /** The four maps of two counters are separate, where they are not nil. */
  ghost predicate Separate(p: PNCounter, q: PNCounter) {
    && (p.inc.counters != null ==>
         p.inc.counters != q.inc.counters && p.inc.counters != q.dec.counters && p.inc.counters != p.dec.counters)
    && (p.dec.counters != null ==> p.dec.counters != q.inc.counters && p.dec.counters != q.dec.counters)
  }

  /** Maps are shared, if at all, by the same direction of the two counters. */
  ghost predicate Aligned(p: PNCounter, q: PNCounter) {
    && (p.inc.counters != null ==> p.inc.counters != p.dec.counters && p.inc.counters != q.dec.counters)
    && (p.dec.counters != null ==> p.dec.counters != q.inc.counters)
  }

  /** What a map holds once the increments of the two counters are merged. */
  ghost function Between(p: PNCounter, other: PNCounter, g: GCounter): Slots
    reads p.inc.counters, other.inc.counters, g.counters
  {
    if p.inc.counters != null && g.counters == p.inc.counters then MergeSlots(Content(p.inc), Content(other.inc))
    else Content(g)
  }

  /** The merge of both contents, whatever maps the same directions share; where a map is shared across
      directions, the decrements see what the increments left. */
  method PNMerge(p: PNCounter, other: PNCounter) returns (r: PNCounter)
    modifies p.inc.counters, p.dec.counters
    ensures r.inc.counters != null && r.dec.counters != null
    ensures if p.inc.counters == null then fresh(r.inc.counters) else r.inc.counters == p.inc.counters
    ensures if p.dec.counters == null then fresh(r.dec.counters) else r.dec.counters == p.dec.counters
    ensures Content(r.dec) == MergeSlots(old(Between(p, other, p.dec)), old(Between(p, other, other.dec)))
    ensures r.inc.counters != r.dec.counters ==>
              Content(r.inc) == MergeSlots(old(Content(p.inc)), old(Content(other.inc)))
    ensures Aligned(p, other) ==> r.inc.counters != r.dec.counters
    ensures Aligned(p, other) ==> PNContent(r) == Merge(old(PNContent(p)), old(PNContent(other)))
    ensures Aligned(p, other) ==> PNContent(other) == old(PNContent(other))
  {
    var inc := GMerge(p.inc, other.inc);
    var dec := GMerge(p.dec, other.dec);
    r := PNCounter(inc, dec);
  }
}
