/** Delta-interval gossip for one CRDT type, as Store runs it three times side by side
    (internal/server/store.go).  A carrier gives the operations of the type; the protocol is proved
    once for every carrier whose merge is a left-regular band.
 */
module Gossip {
  import opened Bands

  type NodeID = string
  type Key = string

  /** The operations of a replicated type.  `view` forgets what no reader can observe (a counter
      slot holding 0 against no slot at all); `op` is the effect of `join` on views.
      `leq` is the test Store.Merge uses to skip incoming state. */
  datatype Carrier<!S, !A> = Carrier(
    join: (S, S) -> S,
    leq: (S, S) -> bool,
    bot: S,
    view: S -> A,
    op: (A, A) -> A)

  ghost predicate ViewOfJoin<S, A>(c: Carrier<S, A>, x: S, y: S) {
    c.view(c.join(x, y)) == c.op(c.view(x), c.view(y))
  }

  ghost predicate Laws<S(!new), A(!new)>(c: Carrier<S, A>) {
    && IsBand(c.op)
    && forall x, y :: ViewOfJoin(c, x, y)
  }

  /** One numbered entry of the delta buffer: a single-key delta. */
  datatype Delta<S> = Delta(key: Key, value: S)

  /** The part of Store that belongs to one CRDT type.  buf[n - 1] is the delta recorded under
      sequence number n, so the current sequence number is |buf| + 1. */
  datatype Lane<S> = Lane(state: map<Key, S>, buf: seq<Delta<S>>, acks: map<NodeID, nat>) {
    function Seq(): nat {
      |buf| + 1
    }

    function Acked(peer: NodeID): nat {
      if peer in acks then acks[peer] else 0
    }
  }

  /** The part of a gossip message that belongs to one CRDT type.  upto is the sequence number on
      the wire (0 when there is nothing to send); start is where the interval began and is not
      transmitted. */
  datatype Payload<S> = Payload(start: nat, upto: nat, content: map<Key, S>)

  const EMPTY_ACKS: map<NodeID, nat> := map[]

  function NewLane<S>(): Lane<S> {
    Lane(map[], [], EMPTY_ACKS)
  }

  function ValueOr<S, A>(c: Carrier<S, A>, m: map<Key, S>, k: Key): S {
    if k in m then m[k] else c.bot
  }

  function Apply<S, A>(c: Carrier<S, A>, m: map<Key, S>, d: Delta<S>): map<Key, S> {
    m[d.key := c.join(ValueOr(c, m, d.key), d.value)]
  }

  /** The state reached from the empty store by applying a buffer in order. */
  function Replay<S, A>(c: Carrier<S, A>, buf: seq<Delta<S>>): map<Key, S> {
    if buf == [] then map[] else Apply(c, Replay(c, buf[..|buf| - 1]), buf[|buf| - 1])
  }

  /** The state a replica had when its sequence number was n. */
  function StateAt<S, A>(c: Carrier<S, A>, l: Lane<S>, n: nat): map<Key, S>
    requires n <= l.Seq()
  {
    if n == 0 then map[] else Replay(c, l.buf[..n - 1])
  }

  /** What Delta accumulates over an interval of the buffer: the first delta of a key is adopted,
      later ones are merged into it. */
  function Gather<S, A>(c: Carrier<S, A>, buf: seq<Delta<S>>): map<Key, S> {
    if buf == [] then map[] else
      var acc := Gather(c, buf[..|buf| - 1]);
      var d := buf[|buf| - 1];
      acc[d.key := if d.key in acc then c.join(acc[d.key], d.value) else d.value]
  }

  /** A client write: merge the delta into the state and record it under the next number. */
  function Record<S, A>(c: Carrier<S, A>, l: Lane<S>, d: Delta<S>): Lane<S> {
    Lane(Apply(c, l.state, d), l.buf + [d], l.acks)
  }

  predicate Skips<S, A>(c: Carrier<S, A>, l: Lane<S>, d: Delta<S>) {
    d.key in l.state && c.leq(d.value, l.state[d.key])
  }

  function MergeKey<S, A>(c: Carrier<S, A>, l: Lane<S>, d: Delta<S>): Lane<S> {
    if Skips(c, l, d) then l else Record(c, l, d)
  }

  /** Store.Merge visits the keys of the message in some order. */
  function MergeKeys<S, A>(c: Carrier<S, A>, l: Lane<S>, content: map<Key, S>, order: seq<Key>): Lane<S>
    requires forall k | k in order :: k in content
  {
    if order == [] then l else
      var k := order[|order| - 1];
      MergeKey(c, MergeKeys(c, l, content, order[..|order| - 1]), Delta(k, content[k]))
  }

  function DeltaFor<S, A>(c: Carrier<S, A>, l: Lane<S>, peer: NodeID): Payload<S> {
    var a := l.Acked(peer);
    if a == 0 then Payload(0, l.Seq(), l.state)
    else if a < l.Seq() then Payload(a, l.Seq(), Gather(c, l.buf[a - 1..]))
    else Payload(a, 0, map[])
  }

  function RecordAck<S>(l: Lane<S>, sender: NodeID, n: nat): Lane<S> {
    l.(acks := l.acks[sender := if n > l.Acked(sender) then n else l.Acked(sender)])
  }

  // ---------------------------------------------------------------- domination

  /** m knows everything x knows: merging x into m changes nothing observable. */
  ghost predicate Dominates<S, A>(c: Carrier<S, A>, m: map<Key, S>, x: map<Key, S>) {
    x.Keys <= m.Keys && forall k | k in x :: c.op(c.view(m[k]), c.view(x[k])) == c.view(m[k])
  }

  /** y is, observably, what merging content into x gives. */
  ghost predicate Merged<S, A>(c: Carrier<S, A>, x: map<Key, S>, content: map<Key, S>, y: map<Key, S>) {
    && y.Keys == x.Keys + content.Keys
    && forall k | k in y ::
         c.view(y[k]) == if k in content then c.op(c.view(ValueOr(c, x, k)), c.view(content[k]))
                         else c.view(x[k])
  }

  /** Every value grew from the initial value of the type. */
  ghost predicate Rooted<S, A>(c: Carrier<S, A>, m: map<Key, S>) {
    forall k | k in m :: c.op(c.view(c.bot), c.view(m[k])) == c.view(m[k])
  }

  lemma OpGrow<A(!new)>(op: (A, A) -> A, m: A, x: A, d: A)
    requires IsBand(op) && op(m, x) == m
    ensures op(op(m, d), x) == op(m, d)
  {
    assert Assoc(op, m, x, d);
    assert Assoc(op, m, op(x, d), x);
    assert Regular(op, x, d);
  }

  lemma OpAbsorb<A(!new)>(op: (A, A) -> A, m: A, x: A, d: A)
    requires IsBand(op) && op(m, x) == m
    ensures op(m, op(x, d)) == op(m, d)
    ensures op(op(m, d), op(x, d)) == op(m, d)
  {
    assert Assoc(op, m, x, d);
    assert Assoc(op, op(m, d), x, d);
    OpGrow(op, m, x, d);
    assert Assoc(op, m, d, d);
    assert Idem(op, d);
  }

  lemma {:induction false} ReplayRooted<S(!new), A(!new)>(c: Carrier<S, A>, buf: seq<Delta<S>>)
    requires Laws(c)
    ensures Rooted(c, Replay(c, buf))
  {
    if buf != [] {
      var prev, d := Replay(c, buf[..|buf| - 1]), buf[|buf| - 1];
      ReplayRooted(c, buf[..|buf| - 1]);
      var b, v := c.view(c.bot), c.view(ValueOr(c, prev, d.key));
      assert Idem(c.op, b);
      assert Assoc(c.op, b, v, c.view(d.value));
      assert ViewOfJoin(c, ValueOr(c, prev, d.key), d.value);
    }
  }

  /** Replaying p and then q is, observably, merging what Delta gathers from q into the state after p. */
  lemma {:induction false} ReplayGather<S(!new), A(!new)>(c: Carrier<S, A>, p: seq<Delta<S>>, q: seq<Delta<S>>)
    requires Laws(c)
    ensures Merged(c, Replay(c, p), Gather(c, q), Replay(c, p + q))
  {
    if q == [] {
      assert p + q == p;
    } else {
      var q0, d := q[..|q| - 1], q[|q| - 1];
      ReplayGather(c, p, q0);
      assert (p + q)[..|p + q| - 1] == p + q0;
      var x, g := Replay(c, p), Gather(c, q0);
      assert ViewOfJoin(c, ValueOr(c, Replay(c, p + q0), d.key), d.value);
      if d.key in g {
        var v := c.view(ValueOr(c, x, d.key));
        assert Assoc(c.op, v, c.view(g[d.key]), c.view(d.value));
        assert ViewOfJoin(c, g[d.key], d.value);
      }
    }
  }

  lemma {:induction false} ReplayGrows<S(!new), A(!new)>(c: Carrier<S, A>, p: seq<Delta<S>>, q: seq<Delta<S>>,
                                                         x: map<Key, S>)
    requires Laws(c) && p <= q && Dominates(c, Replay(c, p), x)
    ensures Dominates(c, Replay(c, q), x)
  {
    if |p| == |q| {
      assert p == q;
    } else {
      var q0, d := q[..|q| - 1], q[|q| - 1];
      ReplayGrows(c, p, q0, x);
      var m := Replay(c, q0);
      if d.key in x {
        assert ViewOfJoin(c, m[d.key], d.value);
        OpGrow(c.op, c.view(m[d.key]), c.view(x[d.key]), c.view(d.value));
      }
    }
  }

  lemma DominatesSelf<S(!new), A(!new)>(c: Carrier<S, A>, m: map<Key, S>)
    requires Laws(c)
    ensures Dominates(c, m, m)
  {
    assert forall k | k in m :: Idem(c.op, c.view(m[k]));
  }

  /** Delta refines full state.  If m dominates x, merging the interval that leads from x to y gives
      what merging the whole of y gives, and the result dominates y. */
  lemma DeltaIsFullState<S(!new), A(!new)>(c: Carrier<S, A>, m: map<Key, S>, x: map<Key, S>,
                                           content: map<Key, S>, y: map<Key, S>, r: map<Key, S>)
    requires Laws(c) && Rooted(c, m) && Dominates(c, m, x)
    requires Merged(c, x, content, y) && Merged(c, m, content, r)
    ensures Merged(c, m, y, r)
    ensures Dominates(c, r, y)
  {
    forall k | k in r
      ensures k in y ==> c.view(r[k]) == c.op(c.view(ValueOr(c, m, k)), c.view(y[k]))
      ensures k in y ==> c.op(c.view(r[k]), c.view(y[k])) == c.view(r[k])
    {
      var mk, xk := c.view(ValueOr(c, m, k)), c.view(ValueOr(c, x, k));
      if k !in x {
        assert Idem(c.op, xk) && Regular(c.op, xk, mk);
      }
      assert c.op(mk, xk) == mk;
      if k in content {
        OpAbsorb(c.op, mk, xk, c.view(content[k]));
      }
    }
  }
}
