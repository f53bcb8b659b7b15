/** The peers type and Member.join (internal/swim/swim.go) with their loops and in-place updates.  A
    random index is any index in range. */
module PeersImpl {
  import opened Membership
  import opened Probing

  function Swapped(s: seq<Peer>, i: nat, j: nat): seq<Peer>
    requires i < |s| && j < |s|
  {
    s[i := s[j]][j := s[i]]
  }

  lemma SwappedIsPermutation(s: seq<Peer>, i: nat, j: nat)
    requires i < |s| && j < |s|
    ensures multiset(Swapped(s, i, j)) == multiset(s) && |Swapped(s, i, j)| == |s|
  {}

  class Peers {
    var peers: seq<Peer>
    var probeCursor: nat
    var state: map<Addr, Kind>
    var deadPeers: set<Addr>
    var notified: seq<Event>

    ghost function Value(): Members
      reads this
    {
      Members(peers, state, deadPeers, notified)
    }

    constructor ()
      ensures Value() == NOBODY && probeCursor == 0
    {
      peers, probeCursor, state, deadPeers, notified := [], 0, map[], {}, [];
    }

    /** The next peer to probe; false if there is none. */
    method NextProbe() returns (peer: Peer, ok: bool)
      modifies this`peers, this`probeCursor
      ensures ok <==> old(peers) != []
      ensures ok ==> Probe(Ring(old(peers), old(probeCursor)), peer, Ring(peers, probeCursor))
      ensures !ok ==> peers == old(peers) && probeCursor == old(probeCursor)
    {
      if |peers| == 0 {
        return Peer("", 0), false;
      }
      if probeCursor >= |peers| {
        probeCursor := 0;
        var i := 1;
        while i < |peers|
          invariant 1 <= i && probeCursor == 0 && |peers| == |old(peers)| && multiset(peers) == multiset(old(peers))
        {
          var j :| 0 <= j <= i;
          SwappedIsPermutation(peers, i, j);
          peers := Swapped(peers, i, j);
          i := i + 1;
        }
      }
      peer, ok := peers[probeCursor], true;
      probeCursor := probeCursor + 1;
    }

    method Delete(a: Addr) returns (deleted: bool)
      modifies this`peers, this`deadPeers
      ensures peers == Without(old(peers), a) && deadPeers == old(deadPeers) + {a}
      ensures deleted <==> Listed(old(peers), a)
    {
      var kept: seq<Peer> := [];
      deleted := false;
      for i := 0 to |peers|
        invariant peers == old(peers) && deadPeers == old(deadPeers) && kept == Without(peers[..i], a)
        invariant deleted <==> Listed(peers[..i], a)
      {
        assert peers[..i + 1] == peers[..i] + [peers[i]];
        ListedSnoc(peers[..i], peers[i], a);
        if peers[i].addr == a {
          deleted := true;
        } else {
          kept := kept + [peers[i]];
        }
      }
      assert peers[..|peers|] == peers;
      peers, deadPeers := kept, deadPeers + {a};
    }

    /** A death that is news leaves the address dead and unlisted. */
    method Process(e: Event)
      modifies this`peers, this`state, this`deadPeers, this`notified
      ensures Value() == Membership.Process(old(Value()), e)
      ensures e.kind == Dead && !(e.node in old(state) && old(state)[e.node] == Dead) ==>
                e.node in deadPeers && !Listed(peers, e.node) && deadPeers == old(deadPeers) + {e.node}
      ensures e.kind == Alive ==> peers == old(peers) && deadPeers == old(deadPeers)
    {
      if e.node in state && state[e.node] == e.kind {
        return;
      }
      state := state[e.node := e.kind];
      if e.kind == Dead {
        WithoutIs(peers, e.node, e.node);
        var _ := Delete(e.node);
      }
      notified := notified + [e];
    }

    /** Take over the offered peers that are new, each at a random place of the list. */
    method Join(self: Addr, body: JoinBody) returns (added: seq<Peer>)
      modifies this`peers, this`deadPeers
      ensures deadPeers == old(deadPeers) - {body.src}
      ensures added == NewPeers(old(peers), deadPeers, self, body.peers)
      ensures multiset(peers) == multiset(old(peers) + added)
    {
      ghost var known := peers;
      deadPeers := deadPeers - {body.src};
      added := [];
      for n := 0 to |body.peers|
        invariant deadPeers == old(deadPeers) - {body.src}
        invariant added == NewPeers(known, deadPeers, self, body.peers[..n])
        invariant multiset(peers) == multiset(known + added)
      {
        IsNew(known, deadPeers, self, body.peers, n, peers, added);
        var taken := Offer(self, body.peers[n]);
        if taken {
          AddedOne(known, added, body.peers[n]);
          added := added + [body.peers[n]];
        }
      }
      assert body.peers[..|body.peers|] == body.peers;
    }

    /** One offered peer: taken over unless it is this node, dead or already listed. */
    method Offer(self: Addr, p: Peer) returns (taken: bool)
      modifies this`peers
      ensures taken <==> !(p.addr == self || p.addr in deadPeers || Listed(old(peers), p.addr))
      ensures multiset(peers) == multiset(old(peers)) + if taken then multiset{p} else multiset{}
    {
      if p.addr == self || p.addr in deadPeers {
        return false;
      }
      taken := !Listed(peers, p.addr);
      if taken {
        Insert(p);
      }
    }

    /** Append a peer and swap it with a random one. */
    method Insert(p: Peer)
      modifies this`peers
      ensures multiset(peers) == multiset(old(peers)) + multiset{p}
    {
      var i := |peers|;
      var j :| 0 <= j <= i;
      SwappedIsPermutation(peers + [p], i, j);
      peers := Swapped(peers + [p], i, j);
    }

    /** Member.join: take over the new peers, then announce each. */
    method MemberJoin(self: Addr, body: JoinBody)
      modifies this
      ensures JoinStep(self, old(Value()), body, Value()) && probeCursor == old(probeCursor)
    {
      ghost var m := Value();
      var added := Join(self, body);
      ghost var mid := m.(peers := peers, dead := deadPeers);
      for n := 0 to |added|
        invariant Value() == ProcessAlive(mid, added[..n]) && probeCursor == old(probeCursor)
      {
        assert added[..n + 1][..n] == added[..n];
        Process(Event(Alive, added[n].addr));
      }
      assert added[..|added|] == added;
    }
  }

  /** Whether the list as it is now has the address decides whether the peer is new. */
  lemma IsNew(known: seq<Peer>, dead: set<Addr>, self: Addr, offered: seq<Peer>, n: nat, list: seq<Peer>,
      before: seq<Peer>)
    requires n < |offered| && before == NewPeers(known, dead, self, offered[..n])
    requires multiset(list) == multiset(known + before)
    ensures NewPeers(known, dead, self, offered[..n + 1])
              == if offered[n].addr == self || offered[n].addr in dead || Listed(list, offered[n].addr)
                 then before else before + [offered[n]]
  {
    assert offered[..n + 1][..n] == offered[..n];
    ListedConcat(known, before, offered[n].addr);
    PermutedList(list, known + before);
  }

  lemma AddedOne(known: seq<Peer>, added: seq<Peer>, p: Peer)
    ensures multiset(known + (added + [p])) == multiset(known + added) + multiset{p}
  {
    assert known + (added + [p]) == (known + added) + [p];
  }

  lemma ListedConcat(p: seq<Peer>, q: seq<Peer>, a: Addr)
    ensures Listed(p + q, a) <==> Listed(p, a) || Listed(q, a)
  {
    if n :| 0 <= n < |p| && p[n].addr == a {
      assert (p + q)[n].addr == a;
    }
    if n :| 0 <= n < |q| && q[n].addr == a {
      assert (p + q)[|p| + n].addr == a;
    }
  }
}
