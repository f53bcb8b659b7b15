/** SWIM membership bookkeeping (internal/swim/swim.go): the peer list, the last event per address, the
    dead addresses and the notifications sent, over every sequence of joins and deaths. */
module Membership {
  import opened Options

  type Addr = string

  datatype Peer = Peer(addr: Addr, port: nat)

  datatype Kind = Dead | Alive

  datatype Event = Event(kind: Kind, node: Addr)

  datatype JoinBody = JoinBody(src: Addr, peers: seq<Peer>)

  /** notified lists the events put on the channel, oldest first. */
  datatype Members = Members(peers: seq<Peer>, state: map<Addr, Kind>, dead: set<Addr>, notified: seq<Event>)

  const NOBODY: Members := Members([], map[], {}, [])

  predicate Listed(peers: seq<Peer>, a: Addr) {
    exists n | 0 <= n < |peers| :: peers[n].addr == a
  }

  /** slices.DeleteFunc by address. */
  function Without(peers: seq<Peer>, a: Addr): seq<Peer> {
    if peers == [] then []
    else Without(peers[..|peers| - 1], a) + if peers[|peers| - 1].addr == a then [] else [peers[|peers| - 1]]
  }

  /** peers.process: an event that repeats the last one of its address changes nothing. */
  function Process(m: Members, e: Event): Members {
    if e.node in m.state && m.state[e.node] == e.kind then m
    else match e.kind
      case Alive => m.(state := m.state[e.node := Alive], notified := m.notified + [e])
      case Dead => Members(Without(m.peers, e.node), m.state[e.node := Dead], m.dead + {e.node}, m.notified + [e])
  }

  function ProcessAlive(m: Members, added: seq<Peer>): Members {
    if added == [] then m
    else Process(ProcessAlive(m, added[..|added| - 1]), Event(Alive, added[|added| - 1].addr))
  }

  /** The peers of a join that are new: not this node, not dead, not known yet, each once. */
  function NewPeers(known: seq<Peer>, dead: set<Addr>, self: Addr, offered: seq<Peer>): seq<Peer> {
    if offered == [] then []
    else
      var before, p := NewPeers(known, dead, self, offered[..|offered| - 1]), offered[|offered| - 1];
      if p.addr == self || p.addr in dead || Listed(known, p.addr) || Listed(before, p.addr) then before
      else before + [p]
  }

  /** A join runs to completion.  Where the new peers land in the list is up to the shuffle. */
  ghost predicate JoinStep(self: Addr, m: Members, body: JoinBody, m': Members) {
    var dead := m.dead - {body.src};
    var added := NewPeers(m.peers, dead, self, body.peers);
    exists peers ::
      && multiset(peers) == multiset(m.peers + added)
      && m' == ProcessAlive(m.(peers := peers, dead := dead), added)
  }

  ghost predicate DeathStep(m: Members, a: Addr, m': Members) {
    m' == Process(m, Event(Dead, a))
  }

  // ---------------------------------------------------------------- invariant

  ghost predicate Distinct(peers: seq<Peer>) {
    forall n, k | 0 <= n < k < |peers| :: peers[n].addr != peers[k].addr
  }

  /** The last notification about an address. */
  function Last(notified: seq<Event>, a: Addr): Option<Kind> {
    if notified == [] then None
    else if notified[|notified| - 1].node == a then Some(notified[|notified| - 1].kind)
    else Last(notified[..|notified| - 1], a)
  }

  /** No address is notified twice in a row of the same kind. */
  ghost predicate Alternates(notified: seq<Event>) {
    forall n | 0 <= n < |notified| :: Last(notified[..n], notified[n].node) != Some(notified[n].kind)
  }

  ghost predicate StateIsLast(m: Members, a: Addr) {
    Last(m.notified, a) == if a in m.state then Some(m.state[a]) else None
  }

  /** Alive is recorded exactly for the addresses in the list. */
  ghost predicate AliveIffListed(m: Members, a: Addr) {
    a in m.state && m.state[a] == Alive <==> Listed(m.peers, a)
  }

  ghost predicate Inv(self: Addr, m: Members) {
    && Distinct(m.peers) && !Listed(m.peers, self)
    && (forall a | a in m.dead :: !Listed(m.peers, a))
    && (forall a :: AliveIffListed(m, a))
    && (forall a :: StateIsLast(m, a)) && Alternates(m.notified)
  }

  lemma {:induction false} WithoutIs(peers: seq<Peer>, a: Addr, b: Addr)
    ensures Distinct(peers) ==> Distinct(Without(peers, a))
    ensures Listed(Without(peers, a), b) <==> Listed(peers, b) && b != a
    ensures forall p | p in Without(peers, a) :: p in peers
  {
    if peers != [] {
      var rest, last := peers[..|peers| - 1], peers[|peers| - 1];
      WithoutIs(rest, a, b);
      WithoutIs(rest, a, last.addr);
      assert peers == rest + [last];
      assert Listed(peers, b) <==> Listed(rest, b) || last.addr == b by { ListedSnoc(rest, last, b); }
      if last.addr == a {
        assert Without(peers, a) == Without(rest, a);
      } else {
        ListedSnoc(Without(rest, a), last, b);
        if Distinct(peers) {
          DistinctSnoc(rest, last);
          DistinctSnoc(Without(rest, a), last);
        }
      }
    }
  }

  /** at names, in order, the places in peers of the entries of kept, which are all places but those of a. */
  ghost predicate KeepsOrder(peers: seq<Peer>, a: Addr, kept: seq<Peer>, at: seq<nat>) {
    && |at| == |kept| && (forall n | 0 <= n < |at| :: at[n] < |peers| && peers[at[n]] == kept[n])
    && (forall n, k | 0 <= n < k < |at| :: at[n] < at[k])
    && (forall i: nat | i < |peers| :: i in at <==> peers[i].addr != a)
  }

  /** Deleting keeps the peers with other addresses, all of them and in their order. */
  lemma {:induction false} WithoutKeepsOrder(peers: seq<Peer>, a: Addr) returns (at: seq<nat>)
    ensures KeepsOrder(peers, a, Without(peers, a), at)
  {
    at := [];
    if peers != [] {
      var rest, last := peers[..|peers| - 1], peers[|peers| - 1];
      var before := WithoutKeepsOrder(rest, a);
      assert peers == rest + [last];
      at := if last.addr == a then before else before + [|rest|];
      OrderSnoc(rest, last, a, Without(rest, a), before);
    }
  }

  lemma OrderSnoc(rest: seq<Peer>, last: Peer, a: Addr, kept: seq<Peer>, at: seq<nat>)
    requires KeepsOrder(rest, a, kept, at)
    ensures last.addr == a ==> KeepsOrder(rest + [last], a, kept, at)
    ensures last.addr != a ==> KeepsOrder(rest + [last], a, kept + [last], at + [|rest|])
  {
    var peers := rest + [last];
    assert forall n | 0 <= n < |at| :: peers[at[n]] == rest[at[n]];
    assert |rest| !in at;
    assert forall i: nat | i < |rest| :: peers[i] == rest[i];
  }

  lemma ListedSnoc(peers: seq<Peer>, p: Peer, a: Addr)
    ensures Listed(peers + [p], a) <==> Listed(peers, a) || p.addr == a
  {
    if Listed(peers, a) {
      var n :| 0 <= n < |peers| && peers[n].addr == a;
      assert (peers + [p])[n].addr == a;
    }
    assert (peers + [p])[|peers|] == p;
  }

  lemma DistinctSnoc(peers: seq<Peer>, p: Peer)
    requires Distinct(peers)
    ensures Distinct(peers + [p]) <==> !Listed(peers, p.addr)
  {
    if Listed(peers, p.addr) {
      var n :| 0 <= n < |peers| && peers[n].addr == p.addr;
      assert (peers + [p])[n].addr == (peers + [p])[|peers|].addr;
    }
  }

  /** Addresses and their distinctness do not depend on the order of the list. */
  lemma PermutedList(p: seq<Peer>, q: seq<Peer>)
    requires multiset(p) == multiset(q)
    ensures forall a :: Listed(p, a) <==> Listed(q, a)
  {
    forall a ensures Listed(p, a) ==> Listed(q, a) {
      if n :| 0 <= n < |p| && p[n].addr == a {
        assert p[n] in multiset(p);
        assert p[n] in q;
      }
    }
    forall a ensures Listed(q, a) ==> Listed(p, a) {
      if n :| 0 <= n < |q| && q[n].addr == a {
        assert q[n] in multiset(q);
        assert q[n] in p;
      }
    }
  }

  lemma {:induction false} PermutedDistinct(p: seq<Peer>, q: seq<Peer>)
    requires multiset(p) == multiset(q) && Distinct(p)
    ensures Distinct(q)
  {
    forall n, k | 0 <= n < k < |q| ensures q[n].addr != q[k].addr {
      if q[n] == q[k] {
        TwiceIn(q, n, k);
        OnceIn(p, q[n]);
      } else {
        assert q[n] in multiset(q) && q[k] in multiset(q);
        assert q[n] in p && q[k] in p;
        var i :| 0 <= i < |p| && p[i] == q[n];
        var j :| 0 <= j < |p| && p[j] == q[k];
      }
    }
  }

  lemma TwiceIn(q: seq<Peer>, n: nat, k: nat)
    requires n < k < |q| && q[n] == q[k]
    ensures multiset(q)[q[n]] >= 2
  {
    assert q == q[..k] + [q[k]] + q[k + 1..];
    assert q[n] in q[..k];
  }

  lemma {:induction false} OnceIn(p: seq<Peer>, x: Peer)
    requires Distinct(p)
    ensures multiset(p)[x] <= 1
  {
    if p != [] {
      var rest := p[..|p| - 1];
      assert p == rest + [p[|p| - 1]];
      OnceIn(rest, x);
      assert forall n | 0 <= n < |rest| :: rest[n] == p[n] && rest[n].addr != p[|p| - 1].addr;
    }
  }

  lemma NotifyKeeps(notified: seq<Event>, e: Event)
    requires Alternates(notified) && Last(notified, e.node) != Some(e.kind)
    ensures Alternates(notified + [e])
    ensures forall a :: Last(notified + [e], a) == if a == e.node then Some(e.kind) else Last(notified, a)
  {
    var next := notified + [e];
    assert next[..|notified|] == notified;
    forall n | 0 <= n < |next| ensures Last(next[..n], next[n].node) != Some(next[n].kind) {
      if n < |notified| {
        assert next[..n] == notified[..n];
      }
    }
  }

  /** A death keeps the invariant, unlists its address and no other, and puts a listed address among the
      dead. */
  lemma DeathKeepsInv(self: Addr, m: Members, a: Addr, m': Members)
    requires Inv(self, m) && DeathStep(m, a, m')
    ensures Inv(self, m')
    ensures forall b :: Listed(m'.peers, b) <==> Listed(m.peers, b) && b != a
    ensures Listed(m.peers, a) ==> m'.dead == m.dead + {a} && m'.notified == m.notified + [Event(Dead, a)]
    ensures m.dead <= m'.dead <= m.dead + {a}
  {
    assert AliveIffListed(m, a);
    if m' != m {
      assert StateIsLast(m, a);
      NotifyKeeps(m.notified, Event(Dead, a));
      forall b
        ensures AliveIffListed(m', b) && StateIsLast(m', b) && (Listed(m'.peers, b) <==> Listed(m.peers, b) && b != a)
      {
        WithoutIs(m.peers, a, b);
        assert AliveIffListed(m, b) && StateIsLast(m, b);
      }
      WithoutIs(m.peers, a, a);
    }
  }

  /** p is the first offer for its address. */
  ghost predicate IsFirst(offered: seq<Peer>, p: Peer) {
    exists n :: 0 <= n < |offered| && offered[n] == p && forall k | 0 <= k < n :: offered[k].addr != p.addr
  }

  /** What NewPeers picks: each acceptable address once. */
  lemma {:induction false} NewPeersAre(known: seq<Peer>, dead: set<Addr>, self: Addr, offered: seq<Peer>)
    ensures var added := NewPeers(known, dead, self, offered);
            && Distinct(added)
            && forall a :: Listed(added, a) <==> Listed(offered, a) && a != self && a !in dead && !Listed(known, a)
  {
    if offered != [] {
      var rest, p := offered[..|offered| - 1], offered[|offered| - 1];
      NewPeersAre(known, dead, self, rest);
      var before := NewPeers(known, dead, self, rest);
      assert offered == rest + [p];
      forall a ensures Listed(offered, a) <==> Listed(rest, a) || p.addr == a {
        ListedSnoc(rest, p, a);
      }
      forall a ensures Listed(before + [p], a) <==> Listed(before, a) || p.addr == a {
        ListedSnoc(before, p, a);
      }
      DistinctSnoc(before, p);
    }
  }

  /** at names, in order, the places in offered of the entries of added. */
  ghost predicate InOrder(offered: seq<Peer>, added: seq<Peer>, at: seq<nat>) {
    && |at| == |added| && (forall n | 0 <= n < |at| :: at[n] < |offered| && offered[at[n]] == added[n])
    && (forall n, k | 0 <= n < k < |at| :: at[n] < at[k])
  }

  lemma InOrderSnoc(rest: seq<Peer>, p: Peer, added: seq<Peer>, at: seq<nat>)
    requires InOrder(rest, added, at)
    ensures InOrder(rest + [p], added, at) && InOrder(rest + [p], added + [p], at + [|rest|])
  {
    assert forall n | 0 <= n < |at| :: (rest + [p])[at[n]] == rest[at[n]];
  }

  /** New peers come in the order of their offers. */
  lemma {:induction false} NewPeersInOrder(known: seq<Peer>, dead: set<Addr>, self: Addr, offered: seq<Peer>)
    returns (at: seq<nat>)
    ensures InOrder(offered, NewPeers(known, dead, self, offered), at)
  {
    at := [];
    if offered != [] {
      var rest, p := offered[..|offered| - 1], offered[|offered| - 1];
      var before := NewPeers(known, dead, self, rest);
      var was := NewPeersInOrder(known, dead, self, rest);
      InOrderSnoc(rest, p, before, was);
      assert offered == rest + [p];
      at := if NewPeers(known, dead, self, offered) == before then was else was + [|rest|];
    }
  }

  /** Each new peer has the port of the first offer for its address. */
  lemma {:induction false} NewPeersAreFirst(known: seq<Peer>, dead: set<Addr>, self: Addr, offered: seq<Peer>, p: Peer)
    requires p in NewPeers(known, dead, self, offered)
    ensures IsFirst(offered, p)
  {
    var rest, last := offered[..|offered| - 1], offered[|offered| - 1];
    var before := NewPeers(known, dead, self, rest);
    assert forall k | 0 <= k < |rest| :: rest[k] == offered[k];
    if p in before {
      NewPeersAreFirst(known, dead, self, rest, p);
    } else {
      NewPeersAre(known, dead, self, rest);
      assert p == last && offered[|rest|] == p;
      assert !Listed(rest, p.addr);
    }
  }

  predicate IsAlive(m: Members, a: Addr) {
    a in m.state && m.state[a] == Alive
  }

  lemma ProcessOneAlive(m: Members, a: Addr)
    requires !IsAlive(m, a) && Alternates(m.notified) && forall b :: StateIsLast(m, b)
    ensures var r := Process(m, Event(Alive, a));
            && r.peers == m.peers && r.dead == m.dead && r.notified == m.notified + [Event(Alive, a)]
            && (forall b :: IsAlive(r, b) <==> IsAlive(m, b) || b == a)
            && Alternates(r.notified) && forall b :: StateIsLast(r, b)
  {
    var r := Process(m, Event(Alive, a));
    assert StateIsLast(m, a);
    NotifyKeeps(m.notified, Event(Alive, a));
    forall b ensures StateIsLast(r, b) {
      assert StateIsLast(m, b);
    }
  }

  /** Announcing peers that are not recorded alive notifies each exactly once. */
  lemma {:induction false} ProcessAliveIs(m: Members, added: seq<Peer>)
    requires Distinct(added) && (forall a | Listed(added, a) :: !IsAlive(m, a))
    requires Alternates(m.notified) && forall a :: StateIsLast(m, a)
    ensures var r := ProcessAlive(m, added);
            && r.peers == m.peers && r.dead == m.dead
            && |r.notified| == |m.notified| + |added| && m.notified <= r.notified
            && (forall n | 0 <= n < |added| :: r.notified[|m.notified| + n] == Event(Alive, added[n].addr))
            && (forall a :: IsAlive(r, a) <==> IsAlive(m, a) || Listed(added, a))
            && Alternates(r.notified) && forall a :: StateIsLast(r, a)
  {
    if added != [] {
      var rest, p := added[..|added| - 1], added[|added| - 1];
      assert added == rest + [p];
      forall a ensures Listed(added, a) <==> Listed(rest, a) || p.addr == a {
        ListedSnoc(rest, p, a);
      }
      DistinctSnoc(rest, p);
      ProcessAliveIs(m, rest);
      ProcessOneAlive(ProcessAlive(m, rest), p.addr);
    }
  }

  lemma {:induction false} DistinctConcat(p: seq<Peer>, q: seq<Peer>)
    requires Distinct(p) && Distinct(q) && forall a | Listed(q, a) :: !Listed(p, a)
    ensures Distinct(p + q)
    ensures forall a :: Listed(p + q, a) <==> Listed(p, a) || Listed(q, a)
  {
    forall n, k | 0 <= n < k < |p + q| ensures (p + q)[n].addr != (p + q)[k].addr {
      if n < |p| <= k {
        assert q[k - |p|].addr == (p + q)[k].addr;
        assert Listed(q, (p + q)[k].addr);
      }
    }
    forall a ensures Listed(p + q, a) <==> Listed(p, a) || Listed(q, a) {
      if n :| 0 <= n < |p| && p[n].addr == a {
        assert (p + q)[n].addr == a;
      }
      if n :| 0 <= n < |q| && q[n].addr == a {
        assert (p + q)[|p| + n].addr == a;
      }
    }
  }

  /** A join keeps the invariant, and lists exactly the offered addresses it should. */
  lemma JoinKeepsInv(self: Addr, m: Members, body: JoinBody, m': Members)
    requires Inv(self, m) && JoinStep(self, m, body, m')
    ensures Inv(self, m')
    ensures forall a :: Listed(m'.peers, a) <==>
              Listed(m.peers, a) || (Listed(body.peers, a) && a != self && (a !in m.dead || a == body.src))
    ensures m'.dead == m.dead - {body.src}
  {
    var dead := m.dead - {body.src};
    var added := NewPeers(m.peers, dead, self, body.peers);
    var peers :| multiset(peers) == multiset(m.peers + added)
        && m' == ProcessAlive(m.(peers := peers, dead := dead), added);
    var mid := m.(peers := peers, dead := dead);
    NewPeersAre(m.peers, dead, self, body.peers);
    DistinctConcat(m.peers, added);
    PermutedList(peers, m.peers + added);
    PermutedDistinct(m.peers + added, peers);
    forall a ensures StateIsLast(mid, a) && (IsAlive(mid, a) <==> Listed(m.peers, a)) {
      assert StateIsLast(m, a) && AliveIffListed(m, a);
    }
    ProcessAliveIs(mid, added);
    forall a ensures AliveIffListed(m', a) {
      assert IsAlive(m', a) <==> IsAlive(mid, a) || Listed(added, a);
    }
  }

  // ---------------------------------------------------------------- runs

  datatype Op = Join(body: JoinBody) | Death(addr: Addr)

  ghost predicate Step(self: Addr, m: Members, op: Op, m': Members) {
    match op
    case Join(body) => JoinStep(self, m, body, m')
    case Death(a) => DeathStep(m, a, m')
  }

  /** states[n + 1] follows states[n] by ops[n]. */
  ghost predicate IsRun(self: Addr, states: seq<Members>, ops: seq<Op>) {
    && |states| == |ops| + 1
    && forall n | 0 <= n < |ops| :: Step(self, states[n], ops[n], states[n + 1])
  }

  /** Over every sequence of joins and deaths: the listed addresses are distinct, never this node, never
      dead, exactly the ones recorded alive; and the notifications of each address alternate. */
  lemma {:induction false} RunKeepsInv(self: Addr, states: seq<Members>, ops: seq<Op>, n: nat)
    requires IsRun(self, states, ops) && states[0] == NOBODY && n < |states|
    ensures Inv(self, states[n])
  {
    if n > 0 {
      RunKeepsInv(self, states, ops, n - 1);
      assert Step(self, states[n - 1], ops[n - 1], states[n]);
      match ops[n - 1]
      case Join(body) => JoinKeepsInv(self, states[n - 1], body, states[n]);
      case Death(a) => DeathKeepsInv(self, states[n - 1], a, states[n]);
    }
  }

  /** A dead address stays dead and unlisted through any run in which it does not itself join, whatever
      others say about it. */
  lemma {:induction false} DeadStaysDead(self: Addr, states: seq<Members>, ops: seq<Op>, a: Addr, n: nat)
    requires IsRun(self, states, ops) && Inv(self, states[0]) && a in states[0].dead && n < |states|
    requires forall k | 0 <= k < |ops| && ops[k].Join? :: ops[k].body.src != a
    ensures Inv(self, states[n]) && a in states[n].dead && !Listed(states[n].peers, a)
  {
    if n > 0 {
      DeadStaysDead(self, states, ops, a, n - 1);
      assert Step(self, states[n - 1], ops[n - 1], states[n]);
      match ops[n - 1]
      case Join(body) => JoinKeepsInv(self, states[n - 1], body, states[n]);
      case Death(b) => DeathKeepsInv(self, states[n - 1], b, states[n]);
    }
  }

  /** A part of a run is a run. */
  lemma RunPart(self: Addr, states: seq<Members>, ops: seq<Op>, n: nat, k: nat)
    requires IsRun(self, states, ops) && n <= k < |states|
    ensures IsRun(self, states[n..k + 1], ops[n..k])
  {
    forall i | 0 <= i < k - n ensures Step(self, states[n..k + 1][i], ops[n..k][i], states[n..k + 1][i + 1]) {
      var j := n + i;
      assert Step(self, states[j], ops[j], states[j + 1]);
    }
  }

  /** Deaths last: in every run, a listed address that dies is dead and unlisted in all later states, up to
      the next join of its own. */
  lemma DeathLasts(self: Addr, states: seq<Members>, ops: seq<Op>, a: Addr, n: nat, k: nat)
    requires IsRun(self, states, ops) && states[0] == NOBODY && n < k < |states|
    requires ops[n] == Death(a) && Listed(states[n].peers, a)
    requires forall i | n < i < k && ops[i].Join? :: ops[i].body.src != a
    ensures a in states[k].dead && !Listed(states[k].peers, a)
  {
    RunKeepsInv(self, states, ops, n);
    assert Step(self, states[n], ops[n], states[n + 1]);
    DeathKeepsInv(self, states[n], a, states[n + 1]);
    RunPart(self, states, ops, n + 1, k);
    var part, done := states[n + 1..k + 1], ops[n + 1..k];
    forall i | 0 <= i < |done| && done[i].Join? ensures done[i].body.src != a {
      var j := n + 1 + i;
      assert ops[j] == done[i];
    }
    DeadStaysDead(self, part, done, a, k - n - 1);
  }
}
