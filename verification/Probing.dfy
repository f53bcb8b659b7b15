/** The probe order (internal/swim/swim.go): a cursor walks a shuffled list and reshuffles at its end,
    so that every peer is probed within a bounded number of calls. */
module Probing {
  import opened Membership

  datatype Ring = Ring(peers: seq<Peer>, cursor: nat)

  /** One call that returns a peer; shuffles may produce any permutation. */
  ghost predicate Probe(r: Ring, out: Peer, r': Ring) {
    && r.peers != []
    && if r.cursor >= |r.peers|
       then multiset(r'.peers) == multiset(r.peers) && r'.cursor == 1 && r'.peers != [] && out == r'.peers[0]
       else r' == Ring(r.peers, r.cursor + 1) && out == r.peers[r.cursor]
  }

  /** outs[n] is returned by the call that leads from rings[n] to rings[n + 1]. */
  ghost predicate IsRun(rings: seq<Ring>, outs: seq<Peer>) {
    && |rings| == |outs| + 1
    && forall n | 0 <= n < |outs| :: Probe(rings[n], outs[n], rings[n + 1])
  }

  lemma {:induction false} Permuted(rings: seq<Ring>, outs: seq<Peer>, n: nat)
    requires IsRun(rings, outs) && n < |rings|
    ensures multiset(rings[n].peers) == multiset(rings[0].peers)
    ensures |rings[n].peers| == |rings[0].peers|
  {
    if n > 0 {
      Permuted(rings, outs, n - 1);
      assert Probe(rings[n - 1], outs[n - 1], rings[n]);
    }
    assert |multiset(rings[n].peers)| == |multiset(rings[0].peers)|;
  }

  /** Until the end of the list the cursor just walks. */
  lemma {:induction false} Walk(rings: seq<Ring>, outs: seq<Peer>, from: nat, n: nat)
    requires IsRun(rings, outs) && from + n < |rings| && rings[from].cursor + n <= |rings[from].peers|
    ensures rings[from + n] == Ring(rings[from].peers, rings[from].cursor + n)
    ensures n > 0 ==> outs[from + n - 1] == rings[from].peers[rings[from].cursor + n - 1]
  {
    if n > 0 {
      Walk(rings, outs, from, n - 1);
      assert Probe(rings[from + n - 1], outs[from + n - 1], rings[from + n]);
    }
  }

  /** From a reshuffle on, every peer comes up within one pass. */
  lemma FullPass(rings: seq<Ring>, outs: seq<Peer>, from: nat, p: Peer) returns (n: nat)
    requires IsRun(rings, outs) && p in rings[0].peers
    requires from + |rings[0].peers| <= |outs| && rings[from].cursor >= |rings[from].peers|
    ensures from <= n < from + |rings[0].peers| && outs[n] == p
  {
    Permuted(rings, outs, from);
    assert Probe(rings[from], outs[from], rings[from + 1]);
    var peers := rings[from + 1].peers;
    Permuted(rings, outs, from + 1);
    assert p in multiset(rings[0].peers);
    assert p in multiset(peers);
    var i :| 0 <= i < |peers| && peers[i] == p;
    n := from + i;
    if i > 0 {
      Walk(rings, outs, from + 1, i);
    }
  }

  /** Time-bounded probing: with n peers and no membership change, any 2n - 1 consecutive calls, from any
      cursor position and under any shuffles, return every peer. */
  lemma EveryPeerIsProbed(rings: seq<Ring>, outs: seq<Peer>, p: Peer)
    requires IsRun(rings, outs) && p in rings[0].peers && |outs| >= 2 * |rings[0].peers| - 1
    ensures exists n :: 0 <= n < 2 * |rings[0].peers| - 1 && outs[n] == p
  {
    var peers, c := rings[0].peers, rings[0].cursor;
    if c >= |peers| {
      var n := FullPass(rings, outs, 0, p);
    } else {
      var i :| 0 <= i < |peers| && peers[i] == p;
      if i >= c {
        Walk(rings, outs, 0, i - c + 1);
      } else {
        Walk(rings, outs, 0, |peers| - c);
        var n := FullPass(rings, outs, |peers| - c, p);
      }
    }
  }

  /** The run in which p, just probed, is shuffled to the end. */
  function LateRing(p: Peer, others: seq<Peer>, n: nat): Ring
    requires n <= 2 * |others|
  {
    if n <= |others| then Ring([p] + others, n + 1) else Ring(others + [p], n - |others|)
  }

  function LateOut(others: seq<Peer>, n: nat): Peer
    requires n < 2 * |others|
  {
    if n < |others| then others[n] else others[n - |others|]
  }

  lemma LateStep(p: Peer, others: seq<Peer>, n: nat)
    requires n < 2 * |others|
    ensures Probe(LateRing(p, others, n), LateOut(others, n), LateRing(p, others, n + 1))
  {
    assert multiset(others + [p]) == multiset([p] + others);
  }

  /** The bound is tight: 2n - 2 calls can miss a peer. */
  lemma BoundIsTight(p: Peer, others: seq<Peer>)
    requires p !in others
    ensures exists rings: seq<Ring>, outs: seq<Peer> ::
              IsRun(rings, outs) && |outs| == 2 * |others| && rings[0].peers == [p] + others && p !in outs
  {
    var k := |others|;
    var rings := seq(2 * k + 1, n requires 0 <= n < 2 * k + 1 => LateRing(p, others, n));
    var outs := seq(2 * k, n requires 0 <= n < 2 * k => LateOut(others, n));
    forall n | 0 <= n < 2 * k ensures Probe(rings[n], outs[n], rings[n + 1]) {
      LateStep(p, others, n);
    }
    assert IsRun(rings, outs);
  }
}
