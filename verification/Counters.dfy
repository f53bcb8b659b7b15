/** GCounter and PNCounter (internal/crdt/crdt.go): the values, their merge and their reading. */
module Counters {
  import opened Bands
  import opened Gossip

  const TWO63: int := 0x8000_0000_0000_0000
  const TWO64: int := 0x1_0000_0000_0000_0000

  type Slots = map<NodeID, nat>

  /** The replicated content of a PNCounter: one slot per node for each direction. */
  datatype PN = PN(inc: Slots, dec: Slots)

  const ZERO: PN := PN(map[], map[])

  function Get(m: Slots, r: NodeID): nat {
    if r in m then m[r] else 0
  }

  function Max(x: nat, y: nat): nat {
    if x >= y then x else y
  }

  function MergeSlots(a: Slots, b: Slots): Slots {
    MapJoin(Max, a, b)
  }

  predicate LeqSlots(a: Slots, b: Slots) {
    forall r | r in a :: a[r] <= Get(b, r)
  }

  function Merge(a: PN, b: PN): PN {
    PN(MergeSlots(a.inc, b.inc), MergeSlots(a.dec, b.dec))
  }

  predicate Leq(a: PN, b: PN) {
    LeqSlots(a.inc, b.inc) && LeqSlots(a.dec, b.dec)
  }

  /** The delta of an increment: the node's own slot after it, in 64-bit arithmetic. */
  function IncrementSlots(m: Slots, self: NodeID, n: nat): Slots {
    map[self := (Get(m, self) + n) % TWO64]
  }

  function Increment(v: PN, self: NodeID, n: nat): PN {
    PN(IncrementSlots(v.inc, self, n), map[])
  }

  function Decrement(v: PN, self: NodeID, n: nat): PN {
    PN(map[], IncrementSlots(v.dec, self, n))
  }

  /** Delta-mutator law: merging the delta into the state it came from adds n to the node's own slot
      and leaves every other slot alone, exactly when the slot does not overflow. */
  lemma IncrementLaw(m: Slots, self: NodeID, n: nat)
    requires n < TWO64 && Get(m, self) < TWO64
    ensures IncrementSlots(m, self, n).Keys == {self}
    ensures var r := MergeSlots(m, IncrementSlots(m, self, n));
            && (Get(r, self) == Get(m, self) + n <==> Get(m, self) + n < TWO64)
            && LeqSlots(m, r)
            && forall q | q != self :: (q in r <==> q in m) && Get(r, q) == Get(m, q)
  {
    var d := IncrementSlots(m, self, n);
    if Get(m, self) + n >= TWO64 {
      assert (Get(m, self) + n) % TWO64 < TWO64;
    }
  }

  // ---------------------------------------------------------------- algebra

  function DropZeros(m: Slots): Slots {
    map r | r in m && m[r] > 0 :: m[r]
  }

  function View(v: PN): PN {
    PN(DropZeros(v.inc), DropZeros(v.dec))
  }

  const CARRIER: Carrier<PN, PN> := Carrier(Merge, Leq, ZERO, View, Merge)

  lemma MaxIsBand()
    ensures IsBand(Max) && Commutative(Max)
  {}

  lemma MergeIsBand()
    ensures IsBand(Merge) && Commutative(Merge)
  {
    MaxIsBand();
    MapJoinIsBand<NodeID, nat>(Max);
    MapJoinCommutative<NodeID, nat>(Max);
    var op := (a: Slots, b: Slots) => MapJoin(Max, a, b);
    forall x, y, z: PN ensures Assoc(Merge, x, y, z) {
      assert Assoc(op, x.inc, y.inc, z.inc) && Assoc(op, x.dec, y.dec, z.dec);
    }
    forall x: PN ensures Idem(Merge, x) {
      assert Idem(op, x.inc) && Idem(op, x.dec);
    }
    forall x, y: PN ensures Regular(Merge, x, y) {
      assert Regular(op, x.inc, y.inc) && Regular(op, x.dec, y.dec);
    }
    forall x, y: PN ensures Merge(x, y) == Merge(y, x) {
      assert op(x.inc, y.inc) == op(y.inc, x.inc) && op(x.dec, y.dec) == op(y.dec, x.dec);
    }
  }

  lemma DropZerosOfMerge(a: Slots, b: Slots)
    ensures DropZeros(MergeSlots(a, b)) == MergeSlots(DropZeros(a), DropZeros(b))
  {
    var l, r := DropZeros(MergeSlots(a, b)), MergeSlots(DropZeros(a), DropZeros(b));
    forall q ensures q in l <==> q in r
             ensures q in l ==> l[q] == r[q]
    {}
  }

  /** Counters are a carrier of the gossip protocol. */
  lemma CounterLaws()
    ensures Laws(CARRIER)
  {
    MergeIsBand();
    forall x, y: PN ensures ViewOfJoin(CARRIER, x, y) {
      DropZerosOfMerge(x.inc, y.inc);
      DropZerosOfMerge(x.dec, y.dec);
    }
  }

  /** IsLessOrEqual is the order of the merge: it holds exactly when merging changes no reading. */
  lemma LeqIsOrder(a: PN, b: PN)
    ensures Leq(a, b) <==> Merge(View(b), View(a)) == View(b)
  {
    LeqSlotsIsOrder(a.inc, b.inc);
    LeqSlotsIsOrder(a.dec, b.dec);
  }

  lemma LeqSlotsIsOrder(a: Slots, b: Slots)
    ensures LeqSlots(a, b) <==> MergeSlots(DropZeros(b), DropZeros(a)) == DropZeros(b)
  {
    var j := MergeSlots(DropZeros(b), DropZeros(a));
    if LeqSlots(a, b) {
      assert j == DropZeros(b);
    }
    if j == DropZeros(b) {
      forall r | r in a ensures a[r] <= Get(b, r) {
        if a[r] > 0 {
          assert r in j;
        }
      }
    }
  }

  // ---------------------------------------------------------------- reading

  /** The sum of all slots. */
  ghost function Sum(m: Slots): nat
    decreases |m|
  {
    if m == map[] then 0 else
      var r :| r in m;
      assert |m - {r}| < |m| by { SizeRemove(m, r); }
      m[r] + Sum(m - {r})
  }

  lemma SizeRemove(m: Slots, r: NodeID)
    requires r in m
    ensures |m - {r}| == |m| - 1
  {
    assert (m - {r}).Keys == m.Keys - {r};
    assert |m.Keys - {r}| == |m.Keys| - 1;
  }

  lemma {:induction false} SumRemove(m: Slots, r: NodeID)
    requires r in m
    ensures Sum(m) == m[r] + Sum(m - {r})
    decreases |m|
  {
    var q :| q in m && Sum(m) == m[q] + Sum(m - {q});
    if q != r {
      SizeRemove(m, q);
      SizeRemove(m, r);
      SumRemove(m - {q}, r);
      SumRemove(m - {r}, q);
      assert m - {q} - {r} == m - {r} - {q};
    }
  }

  lemma {:induction false} SumSet(m: Slots, r: NodeID, v: nat)
    ensures Sum(m[r := v]) == Sum(m) - Get(m, r) + v
  {
    var w := m[r := v];
    SumRemove(w, r);
    if r in m {
      SumRemove(m, r);
      assert w - {r} == m - {r};
    } else {
      assert w - {r} == m;
    }
  }

  lemma {:induction false} SumZero(m: Slots)
    requires forall r | r in m :: m[r] == 0
    ensures Sum(m) == 0
    decreases |m|
  {
    if r :| r in m {
      SumRemove(m, r);
      SizeRemove(m, r);
      SumZero(m - {r});
    }
  }

  /** Conversion of a uint64 to int64. */
  function ToInt64(x: nat): int
    requires x < TWO64
  {
    if x < TWO63 then x else x - TWO64
  }

  /** Subtraction of two int64 values, wrapping. */
  function SubInt64(x: int, y: int): int
    requires -TWO63 <= x < TWO63 && -TWO63 <= y < TWO63
  {
    if x - y < -TWO63 then x - y + TWO64 else if x - y >= TWO63 then x - y - TWO64 else x - y
  }

  /** What PNCounter.Value computes from the two unbounded sums. */
  function Reading(inc: nat, dec: nat): int {
    SubInt64(ToInt64(inc % TWO64), ToInt64(dec % TWO64))
  }

  /** A reading is right exactly when the true value fits an int64, however large the sums are. */
  lemma ReadingExact(inc: nat, dec: nat)
    ensures Reading(inc, dec) == inc - dec <==> -TWO63 <= inc - dec < TWO63
  {
    var r := Reading(inc, dec);
    assert -TWO63 <= r < TWO63;
    var qi, qd := inc / TWO64, dec / TWO64;
    assert inc == qi * TWO64 + inc % TWO64 && dec == qd * TWO64 + dec % TWO64;
    var k: int :| k in {-1, 0, 1, 2, -2} && r == inc % TWO64 - dec % TWO64 + k * TWO64;
    assert inc - dec - r == (qi - qd - k) * TWO64;
    if -TWO63 <= inc - dec < TWO63 {
      assert -TWO64 < (qi - qd - k) * TWO64 < TWO64;
      assert qi - qd - k == 0;
    }
  }
}
