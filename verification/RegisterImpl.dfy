/** LWWRegister as the source holds it: one entry, replaced in place by a later one. */
module RegisterImpl {
  import opened Gossip
  import opened Registers

  class LWWRegister {
    const nodeID: NodeID
    var entry: Entry

    constructor (id: NodeID)
      ensures nodeID == id && entry.writer == "" && entry.time == 0 && entry.value == ""
    {
      nodeID := id;
      entry := ZERO_ENTRY;
    }

    /** A delta carrying value under this node's id.  Merged back, it takes effect exactly when the clock is
        past the time of what the register holds, or at it with a greater id; otherwise, unless it is the
        entry itself, the write is lost. */
    method Set(value: string, now: int) returns (delta: Entry)
      ensures delta.value == value && delta.writer == nodeID && delta.time == now
      ensures Registers.Merge(entry, delta) == delta <==>
              now > entry.time || (now == entry.time && Greater(nodeID, entry.writer)) || delta == entry
      ensures Registers.Merge(entry, delta) != delta ==> Registers.Merge(entry, delta) == entry
    {
      delta := Entry(nodeID, now, value);
    }

    /** Merging keeps an entry no other candidate is after, and a later one always replaces it. */
    method Merge(other: Entry)
      modifies this
      ensures entry == Registers.Merge(old(entry), other)
      ensures !After(old(entry), entry) && !After(other, entry)
      ensures entry == old(entry) || entry == other
    {
      AfterIsOrder(other, entry, other);
      AfterIsOrder(entry, entry, entry);
      AfterIsOrder(other, other, other);
      if After(other, entry) {
        entry := other;
      }
    }

    method IsLessOrEqual(other: LWWRegister) returns (leq: bool)
      ensures leq <==> Registers.Merge(other.entry, entry) == other.entry
    {
      AfterIsOrder(entry, other.entry, entry);
      leq := !After(entry, other.entry);
    }
  }
}
