/** The fields and methods Store keeps for one CRDT type (internal/server/store.go), with the loops of
    Merge and Delta.  Each method is proved against the lane function of the protocol. */
module Replicas {
  import opened Gossip
  import opened Cluster

  lemma OrderGrows(order: seq<Key>, k: Key)
    requires k !in order && forall a, b | 0 <= a < b < |order| :: order[a] != order[b]
    ensures forall a, b | 0 <= a < b < |order + [k]| :: (order + [k])[a] != (order + [k])[b]
    ensures forall q :: q in order + [k] <==> q in order || q == k
  {}

  class Replica<S, A> {
    const carrier: Carrier<S, A>
    var state: map<Key, S>
    var seqNo: nat
    var deltas: map<nat, map<Key, S>>
    var acks: map<NodeID, nat>
    ghost var buf: seq<Gossip.Delta<S>>

    /** The buffer holds exactly one single-key delta for each number below the current one. */
    ghost predicate Valid()
      reads this
    {
      && seqNo == |buf| + 1
      && (forall n :: n in deltas <==> 1 <= n < seqNo)
      && forall n | 1 <= n < seqNo :: deltas[n] == map[buf[n - 1].key := buf[n - 1].value]
    }

    ghost function Lane(): Lane<S>
      reads this
    {
      Gossip.Lane(state, buf, acks)
    }

    constructor (c: Carrier<S, A>)
      ensures Valid() && carrier == c && Lane() == NewLane()
    {
      carrier := c;
      state, seqNo, deltas, acks, buf := map[], 1, map[], map[], [];
    }

    /** Merge a delta into the state, creating the key if needed, and record it. */
    method Record(k: Key, d: S)
      requires Valid()
      modifies this
      ensures Valid() && Lane() == Gossip.Record(carrier, old(Lane()), Gossip.Delta.Delta(k, d))
    {
      var local := if k in state then state[k] else carrier.bot;
      state := state[k := carrier.join(local, d)];
      deltas := deltas[seqNo := map[k := d]];
      buf := buf + [Gossip.Delta.Delta(k, d)];
      seqNo := seqNo + 1;
    }

    /** Incorporate the keys of a message in the order the map yields them; acknowledge its number. */
    method Merge(upto: nat, content: map<Key, S>) returns (ack: nat, ghost order: seq<Key>)
      requires Valid()
      modifies this
      ensures Valid() && ack == upto && Enumerates(order, content)
      ensures Lane() == MergeKeys(carrier, old(Lane()), content, order)
    {
      order := [];
      var todo := content.Keys;
      while todo != {}
        invariant Valid() && todo <= content.Keys
        invariant forall k :: k in order <==> k in content.Keys - todo
        invariant forall a, b | 0 <= a < b < |order| :: order[a] != order[b]
        invariant Lane() == MergeKeys(carrier, old(Lane()), content, order)
        decreases todo
      {
        var k :| k in todo;
        var incoming := content[k];
        assert k !in order;
        assert (order + [k])[..|order|] == order;
        if !(k in state && carrier.leq(incoming, state[k])) {
          Record(k, incoming);
        }
        OrderGrows(order, k);
        order := order + [k];
        todo := todo - {k};
      }
      ack := upto;
    }

    method Ack(sender: NodeID, n: nat)
      requires Valid()
      modifies this`acks
      ensures Valid() && Lane() == RecordAck(old(Lane()), sender, n)
    {
      var known := if sender in acks then acks[sender] else 0;
      acks := acks[sender := if n > known then n else known];
    }

    /** What to send to a peer: everything, the interval it has not acknowledged, or nothing. */
    method Delta(peer: NodeID) returns (p: Payload<S>)
      requires Valid()
      ensures p == DeltaFor(carrier, Lane(), peer)
    {
      var acked := if peer in acks then acks[peer] else 0;
      if acked == 0 {
        return Payload(0, seqNo, state);
      }
      if acked >= seqNo {
        return Payload(acked, 0, map[]);
      }
      var content: map<Key, S> := map[];
      var i := acked;
      while i < seqNo
        invariant acked <= i <= seqNo
        invariant content == Gather(carrier, buf[acked - 1..i - 1])
      {
        assert buf[acked - 1..i][..i - acked] == buf[acked - 1..i - 1];
        ghost var d, before := buf[i - 1], content;
        var keys := deltas[i].Keys;
        assert keys == {d.key};
        while keys != {}
          invariant keys <= {d.key}
          invariant if keys == {} then content == Gather(carrier, buf[acked - 1..i]) else content == before
          decreases keys
        {
          var k :| k in keys;
          content := content[k := if k in content then carrier.join(content[k], deltas[i][k]) else deltas[i][k]];
          keys := keys - {k};
        }
        i := i + 1;
      }
      assert buf[acked - 1..seqNo - 1] == buf[acked - 1..];
      p := Payload(acked, seqNo, content);
    }
  }
}
