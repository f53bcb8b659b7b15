/** Store (internal/server/store.go): one replica per CRDT type.  The types never touch each other, so
    every method is a step of the lane of its type. */
module Stores {
  import opened Gossip
  import opened Cluster
  import opened Options
  import opened Replicas
  import Counters
  import Registers
  import DvvSets
  import OrSets

  /** A gossip message; a part with upto 0 carries nothing. */
  datatype Message = Message(
    counters: Payload<Counters.PN>,
    registers: Payload<Registers.Entry>,
    sets: Payload<OrSets.OrSet>)

  datatype AckMessage = AckMessage(counters: nat, registers: nat, sets: nat)

  class Store {
    const nodeID: NodeID
    const counters: Replica<Counters.PN, Counters.PN>
    const registers: Replica<Registers.Entry, Registers.Entry>
    const sets: Replica<OrSets.OrSet, OrSets.OrSet>

    ghost predicate Valid()
      reads this, counters, registers, sets
    {
      && counters as object != registers && registers as object != sets && sets as object != counters
      && counters.Valid() && counters.carrier == Counters.CARRIER
      && registers.Valid() && registers.carrier == Registers.CARRIER
      && sets.Valid() && sets.carrier == OrSets.CARRIER
    }

    constructor (id: NodeID)
      ensures Valid() && fresh(counters) && fresh(registers) && fresh(sets) && nodeID == id
      ensures counters.Lane() == NewLane() && registers.Lane() == NewLane() && sets.Lane() == NewLane()
    {
      nodeID := id;
      counters := new Replica(Counters.CARRIER);
      registers := new Replica(Registers.CARRIER);
      sets := new Replica(OrSets.CARRIER);
    }

    /** IncrementCounter (up) or DecrementCounter. */
    method ChangeCounter(key: Key, n: nat, up: bool)
      requires Valid()
      modifies counters
      ensures Valid()
      ensures var v := ValueOr(Counters.CARRIER, old(counters.Lane().state), key);
              counters.Lane() == Record(Counters.CARRIER, old(counters.Lane()), Gossip.Delta.Delta(key,
                if up then Counters.Increment(v, nodeID, n) else Counters.Decrement(v, nodeID, n)))
    {
      var v := if key in counters.state then counters.state[key] else Counters.ZERO;
      counters.Record(key, if up then Counters.Increment(v, nodeID, n) else Counters.Decrement(v, nodeID, n));
    }

    /** SetRegister at the time the clock shows.  The first write to a key takes effect, unless the clock is
        before Go's zero time. */
    method SetRegister(key: Key, value: string, now: int)
      requires Valid()
      modifies registers
      ensures Valid()
      ensures registers.Lane() == Record(Registers.CARRIER, old(registers.Lane()),
                                         Gossip.Delta.Delta(key, Registers.Entry(nodeID, now, value)))
      ensures key !in old(registers.Lane().state) && now >= 0 && nodeID != "" ==>
                registers.Lane().state[key] == Registers.Entry(nodeID, now, value)
    {
      registers.Record(key, Registers.Entry(nodeID, now, value));
    }

    method AddSet(key: Key, value: OrSets.Elem, vv: DvvSets.VV)
      requires Valid()
      modifies sets
      ensures Valid()
      ensures sets.Lane() == Record(OrSets.CARRIER, old(sets.Lane()), Gossip.Delta.Delta(key,
                OrSets.WriteDelta(ValueOr(OrSets.CARRIER, old(sets.Lane().state), key), nodeID, value, vv, true)))
    {
      var v := if key in sets.state then sets.state[key] else OrSets.EMPTY_SET;
      sets.Record(key, OrSets.WriteDelta(v, nodeID, value, vv, true));
    }

    /** Removing from an unknown set, or an element the set never saw, changes and records nothing. */
    method RemoveSet(key: Key, value: OrSets.Elem, vv: DvvSets.VV)
      requires Valid()
      modifies sets
      ensures Valid()
      ensures var v := ValueOr(OrSets.CARRIER, old(sets.Lane().state), key);
              sets.Lane() == if value !in v then old(sets.Lane())
                             else Record(OrSets.CARRIER, old(sets.Lane()),
                                         Gossip.Delta.Delta(key, OrSets.WriteDelta(v, nodeID, value, vv, false)))
    {
      if key !in sets.state {
        return;
      }
      var d := OrSets.WriteDelta(sets.state[key], nodeID, value, vv, false);
      if d == OrSets.EMPTY_SET {
        assert value in sets.state[key] ==> value in d;
        return;
      }
      sets.Record(key, d);
    }

    method Merge(msg: Message)
      returns (ack: AckMessage, ghost o1: seq<Key>, ghost o2: seq<Key>, ghost o3: seq<Key>)
      requires Valid()
      modifies counters, registers, sets
      ensures Valid() && ack == AckMessage(msg.counters.upto, msg.registers.upto, msg.sets.upto)
      ensures Enumerates(o1, msg.counters.content) && Enumerates(o2, msg.registers.content)
              && Enumerates(o3, msg.sets.content)
      ensures counters.Lane() == MergeKeys(Counters.CARRIER, old(counters.Lane()), msg.counters.content, o1)
      ensures registers.Lane() == MergeKeys(Registers.CARRIER, old(registers.Lane()), msg.registers.content, o2)
      ensures sets.Lane() == MergeKeys(OrSets.CARRIER, old(sets.Lane()), msg.sets.content, o3)
    {
      var a, b, c;
      a, o1 := counters.Merge(msg.counters.upto, msg.counters.content);
      b, o2 := registers.Merge(msg.registers.upto, msg.registers.content);
      c, o3 := sets.Merge(msg.sets.upto, msg.sets.content);
      ack := AckMessage(a, b, c);
    }

    method Ack(sender: NodeID, body: AckMessage)
      requires Valid()
      modifies counters`acks, registers`acks, sets`acks
      ensures Valid()
      ensures counters.Lane() == RecordAck(old(counters.Lane()), sender, body.counters)
      ensures registers.Lane() == RecordAck(old(registers.Lane()), sender, body.registers)
      ensures sets.Lane() == RecordAck(old(sets.Lane()), sender, body.sets)
    {
      counters.Ack(sender, body.counters);
      registers.Ack(sender, body.registers);
      sets.Ack(sender, body.sets);
    }

    /** Nothing is sent exactly when no type has anything the peer has not acknowledged. */
    method Delta(peer: NodeID) returns (msg: Option<Message>)
      requires Valid()
      ensures var m := Message(DeltaFor(Counters.CARRIER, counters.Lane(), peer),
                               DeltaFor(Registers.CARRIER, registers.Lane(), peer),
                               DeltaFor(OrSets.CARRIER, sets.Lane(), peer));
              msg == if m.counters.upto == 0 && m.registers.upto == 0 && m.sets.upto == 0 then None else Some(m)
    {
      var c := counters.Delta(peer);
      var r := registers.Delta(peer);
      var s := sets.Delta(peer);
      if c.upto == 0 && r.upto == 0 && s.upto == 0 {
        return None;
      }
      return Some(Message(c, r, s));
    }
  }
}
