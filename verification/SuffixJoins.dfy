/** Why sharing maps between the counter buffer and what Delta accumulates is harmless: a buffered
    delta may absorb later deltas of its key without changing the join of any suffix of the buffer. */
module SuffixJoins {
  import opened Bands
  import opened Gossip
  import opened Counters

  type Buf = seq<Delta<PN>>

  function Part(d: Delta<PN>, k: Key): PN {
    if d.key == k then d.value else ZERO
  }

  /** The join of the deltas of key k. */
  function JoinKey(buf: Buf, k: Key): PN {
    if buf == [] then ZERO else Merge(Part(buf[0], k), JoinKey(buf[1..], k))
  }

  ghost predicate Below(x: PN, y: PN) {
    Merge(x, y) == y
  }

  lemma MergeZero(x: PN)
    ensures Merge(ZERO, x) == x && Merge(x, ZERO) == x && Merge(x, x) == x
  {
    MergeIsBand();
    assert MergeSlots(map[], x.inc) == x.inc && MergeSlots(map[], x.dec) == x.dec;
    assert MergeSlots(x.inc, map[]) == x.inc && MergeSlots(x.dec, map[]) == x.dec;
    assert Idem(Merge, x);
  }

  lemma MergeAssoc(x: PN, y: PN, z: PN)
    ensures Merge(Merge(x, y), z) == Merge(x, Merge(y, z))
  {
    MergeIsBand();
    assert Assoc(Merge, x, y, z);
  }

  lemma {:induction false} JoinKeySnoc(buf: Buf, d: Delta<PN>, k: Key)
    ensures JoinKey(buf + [d], k) == Merge(JoinKey(buf, k), Part(d, k))
  {
    if buf == [] {
      MergeZero(Part(d, k));
    } else {
      assert (buf + [d])[1..] == buf[1..] + [d];
      JoinKeySnoc(buf[1..], d, k);
      MergeAssoc(Part(buf[0], k), JoinKey(buf[1..], k), Part(d, k));
    }
  }

  /** What Delta gathers for a key is the join of the key's deltas. */
  lemma {:induction false} GatherIsJoinKey(buf: Buf, k: Key)
    ensures k in Gather(CARRIER, buf) <==> exists n :: 0 <= n < |buf| && buf[n].key == k
    ensures JoinKey(buf, k) == if k in Gather(CARRIER, buf) then Gather(CARRIER, buf)[k] else ZERO
  {
    if buf != [] {
      var rest, d := buf[..|buf| - 1], buf[|buf| - 1];
      assert buf == rest + [d];
      GatherIsJoinKey(rest, k);
      JoinKeySnoc(rest, d, k);
      MergeZero(JoinKey(rest, k));
      MergeZero(d.value);
    }
  }

  /** Each delta has only absorbed deltas of its own key that come later. */
  ghost predicate Absorbed(was: Buf, now: Buf) {
    && |was| == |now|
    && forall n | 0 <= n < |was| :: AbsorbedAt(was, now, n)
  }

  ghost predicate AbsorbedAt(was: Buf, now: Buf, n: nat)
    requires n < |was| && n < |now|
  {
    && now[n].key == was[n].key
    && Below(was[n].value, now[n].value)
    && Below(now[n].value, JoinKey(was[n..], was[n].key))
  }

  lemma Sandwich(x: PN, y: PN, rest: PN)
    requires Below(x, y) && Below(y, Merge(x, rest))
    ensures Merge(y, rest) == Merge(x, rest)
  {
    MergeIsBand();
    calc {
      Merge(x, rest);
      Merge(y, Merge(x, rest));
      { MergeAssoc(y, x, rest); }
      Merge(Merge(y, x), rest);
      Merge(Merge(x, y), rest);
      Merge(y, rest);
    }
  }

  lemma {:induction false} AbsorbedKeepsJoin(was: Buf, now: Buf, k: Key)
    requires Absorbed(was, now)
    ensures JoinKey(now, k) == JoinKey(was, k)
  {
    if was != [] {
      forall n | 0 <= n < |was| - 1 ensures AbsorbedAt(was[1..], now[1..], n) {
        assert AbsorbedAt(was, now, n + 1);
        assert was[1..][n..] == was[n + 1..];
      }
      AbsorbedKeepsJoin(was[1..], now[1..], k);
      assert AbsorbedAt(was, now, 0) && was[0..] == was;
      if was[0].key == k {
        Sandwich(was[0].value, now[0].value, JoinKey(was[1..], k));
      }
    }
  }

  /** No suffix of the buffer gathers to anything else. */
  lemma AbsorbedKeepsGather(was: Buf, now: Buf, a: nat)
    requires Absorbed(was, now) && a <= |was|
    ensures Gather(CARRIER, now[a..]) == Gather(CARRIER, was[a..])
  {
    AbsorbedTail(was, now, a);
    var g, h := Gather(CARRIER, now[a..]), Gather(CARRIER, was[a..]);
    forall k ensures k in g <==> k in h
             ensures k in g ==> g[k] == h[k]
    {
      GatherIsJoinKey(now[a..], k);
      GatherIsJoinKey(was[a..], k);
      SameKeys(was[a..], now[a..], k);
      AbsorbedKeepsJoin(was[a..], now[a..], k);
    }
  }

  lemma AbsorbedTail(was: Buf, now: Buf, a: nat)
    requires Absorbed(was, now) && a <= |was|
    ensures Absorbed(was[a..], now[a..])
  {
    forall n | 0 <= n < |was| - a ensures AbsorbedAt(was[a..], now[a..], n) {
      assert AbsorbedAt(was, now, a + n);
      assert was[a..][n..] == was[a + n..];
    }
  }

  lemma AbsorbedTransitive(was: Buf, mid: Buf, now: Buf)
    requires Absorbed(was, mid) && Absorbed(mid, now)
    ensures Absorbed(was, now)
  {
    forall n | 0 <= n < |was| ensures AbsorbedAt(was, now, n) {
      assert AbsorbedAt(was, mid, n) && AbsorbedAt(mid, now, n);
      MergeAssoc(was[n].value, mid[n].value, now[n].value);
      AbsorbedTail(was, mid, n);
      AbsorbedKeepsJoin(was[n..], mid[n..], was[n].key);
    }
  }

  lemma AbsorbedSnoc(was: Buf, now: Buf, d: Delta<PN>)
    requires Absorbed(was, now)
    ensures Absorbed(was + [d], now + [d])
  {
    forall n | 0 <= n < |was| + 1 ensures AbsorbedAt(was + [d], now + [d], n) {
      if n < |was| {
        assert AbsorbedAt(was, now, n);
        assert (was + [d])[n..] == was[n..] + [d];
        JoinKeySnoc(was[n..], d, was[n].key);
        MergeAssoc(now[n].value, JoinKey(was[n..], was[n].key), Part(d, was[n].key));
      } else {
        assert (was + [d])[n..] == [d];
        MergeZero(d.value);
      }
    }
  }

  /** The delta of a key and the join of an interval that starts with it are below the join of the
      key's deltas from there on. */
  lemma {:induction false} JoinKeyGrows(buf: Buf, k: Key, i: nat)
    requires i <= |buf|
    ensures Below(JoinKey(buf[..i], k), JoinKey(buf, k))
    ensures i > 0 ==> Below(Part(buf[0], k), JoinKey(buf[..i], k))
  {
    if i == 0 {
      MergeZero(JoinKey(buf, k));
    } else {
      JoinKeyGrows(buf[1..], k, i - 1);
      assert buf[..i][1..] == buf[1..][..i - 1];
      var x, y, z := Part(buf[0], k), JoinKey(buf[1..][..i - 1], k), JoinKey(buf[1..], k);
      MergeIsBand();
      MergeAssoc(x, y, Merge(x, z));
      MergeAssoc(y, x, z);
      MergeAssoc(x, y, z);
      MergeAssoc(x, x, z);
      MergeAssoc(x, x, y);
      MergeZero(x);
      assert Merge(y, x) == Merge(x, y);
    }
  }

  /** Deltas of other keys in front do not matter. */
  lemma {:induction false} JoinKeySkips(buf: Buf, k: Key, n: nat)
    requires n <= |buf| && forall m | 0 <= m < n :: buf[m].key != k
    ensures JoinKey(buf, k) == JoinKey(buf[n..], k)
  {
    if n > 0 {
      JoinKeySkips(buf[1..], k, n - 1);
      assert buf[1..][n - 1..] == buf[n..];
      MergeZero(JoinKey(buf[1..], k));
    }
  }

  lemma SameKeys(was: Buf, now: Buf, k: Key)
    requires Absorbed(was, now)
    ensures (exists n :: 0 <= n < |was| && was[n].key == k) <==> (exists n :: 0 <= n < |now| && now[n].key == k)
  {
    forall n | 0 <= n < |was| ensures was[n].key == now[n].key {
      assert AbsorbedAt(was, now, n);
    }
  }
}
