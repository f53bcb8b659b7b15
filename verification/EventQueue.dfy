/** EventQueue and Member.sendToAddr (internal/swim/event.go, internal/swim/swim.go): events ride on
    outgoing messages, least-sent first, and go back into the queue until they were sent often enough. */
module EventQueue {
  import opened EventHeap
  import Codec

  ghost predicate Sorted(s: seq<Entry>) {
    forall i, j | 0 <= i < j < |s| :: s[i].sends <= s[j].sends
  }

  /** taken are n entries of the bag that were sent least, in order, and rest the others. */
  ghost predicate Least(bag: multiset<Entry>, n: nat, taken: seq<Entry>, rest: multiset<Entry>) {
    && |taken| == (if n <= |bag| then n else |bag|)
    && bag == multiset(taken) + rest && Sorted(taken)
    && forall t, x | t in taken && x in rest :: t.sends <= x.sends
  }

  /** The entries that go back into the queue after a successful send, each counted once more. */
  function Kept(taken: seq<Entry>, limit: nat): seq<Entry> {
    if taken == [] then []
    else
      var last := taken[|taken| - 1];
      Kept(taken[..|taken| - 1], limit) + if last.sends + 1 < limit then [Entry(last.event, last.sends + 1)] else []
  }

  /** What is kept, exactly: each carried entry below the limit comes back once, counted once more, and
      nothing else does. */
  lemma {:induction false} KeptExactly(taken: seq<Entry>, limit: nat, e: Entry)
    ensures multiset(Kept(taken, limit))[e]
              == if 1 <= e.sends < limit then multiset(taken)[Entry(e.event, e.sends - 1)] else 0
  {
    if taken != [] {
      var rest, last := taken[..|taken| - 1], taken[|taken| - 1];
      assert taken == rest + [last];
      KeptExactly(rest, limit, e);
    }
  }

  function Events(s: seq<Entry>): (r: seq<Event>)
    ensures |r| == |s| && forall i | 0 <= i < |s| :: r[i] == s[i].event
  {
    seq(|s|, i requires 0 <= i < |s| => s[i].event)
  }

  /** A send attempt: a failed one leaves the queue as it was. */
  ghost predicate SendStep(bag: multiset<Entry>, limit: nat, ok: bool, taken: seq<Entry>, bag': multiset<Entry>) {
    exists rest ::
      && Least(bag, Codec.MAX_PIGGYBACK_EVENTS, taken, rest)
      && bag' == if ok then rest + multiset(Kept(taken, limit)) else bag
  }

  class Queue {
    const pq: Heap

    ghost predicate Valid()
      reads this, pq
    {
      pq.Valid()
    }

    ghost function Contents(): multiset<Entry>
      reads this, pq
    {
      Bag(pq.items)
    }

    constructor ()
      ensures Valid() && fresh(pq) && Contents() == multiset{}
    {
      pq := new Heap();
    }

    method Push(items: seq<Entry>)
      requires Valid()
      modifies pq
      ensures Valid() && Contents() == old(Contents()) + multiset(items)
    {
      for n := 0 to |items|
        invariant Valid() && Contents() == old(Contents()) + multiset(items[..n])
      {
        assert items[..n + 1] == items[..n] + [items[n]];
        pq.Push(items[n]);
      }
      assert items[..|items|] == items;
    }

    method Pop(n: nat) returns (items: seq<Entry>)
      requires Valid()
      modifies pq
      ensures Valid() && Least(old(Contents()), n, items, Contents())
    {
      items := [];
      var count := if n <= |pq.items| then n else |pq.items|;
      while |items| < count
        invariant Valid() && |items| <= count && |pq.items| == old(|pq.items|) - |items|
        invariant old(Contents()) == multiset(items) + Contents() && Sorted(items)
        invariant forall t, x | t in items && x in Contents() :: t.sends <= x.sends
        decreases count - |items|
      {
        ghost var was := Contents();
        var e := pq.Pop();
        assert e in was;
        TakeOne(items, e, was, Contents());
        items := items + [e];
      }
      assert |old(Contents())| == old(|pq.items|);
    }

    /** Member.sendToAddr, with the outcome of the write and the current limit as inputs. */
    method Send(limit: nat, ok: bool) returns (carried: seq<Event>, ghost taken: seq<Entry>)
      requires Valid()
      modifies pq
      ensures Valid() && SendStep(old(Contents()), limit, ok, taken, Contents()) && carried == Events(taken)
    {
      var items := Pop(Codec.MAX_PIGGYBACK_EVENTS);
      taken := items;
      carried := Events(items);
      ghost var rest := Contents();
      if !ok {
        Push(items);
        assert Contents() == old(Contents());
        return;
      }
      var kept := Compact(items, limit);
      Push(kept);
      assert Contents() == rest + multiset(Kept(taken, limit));
    }
  }

  /** Count the items once more and move those below the limit to the front, in place. */
  method Compact(items: seq<Entry>, limit: nat) returns (kept: seq<Entry>)
    ensures kept == Kept(items, limit)
  {
    var a := new Entry[|items|](i requires 0 <= i < |items| => items[i]);
    var end := 0;
    for i := 0 to a.Length
      invariant 0 <= end <= i && a[i..] == items[i..]
      invariant a[..end] == Kept(items[..i], limit)
    {
      assert items[..i + 1][..i] == items[..i];
      assert a[i] == a[i..][0] == items[i];
      a[i] := Entry(a[i].event, a[i].sends + 1);
      if a[i].sends < limit {
        a[end] := a[i];
        end := end + 1;
      }
      assert a[i + 1..] == items[i + 1..];
    }
    assert items[..|items|] == items;
    kept := a[..end];
  }

  lemma TakeOne(items: seq<Entry>, e: Entry, was: multiset<Entry>, rest: multiset<Entry>)
    requires was == rest + multiset{e} && Sorted(items)
    requires forall t, x | t in items && x in was :: t.sends <= x.sends
    requires forall x | x in rest :: e.sends <= x.sends
    ensures Sorted(items + [e]) && multiset(items + [e]) + rest == multiset(items) + was
    ensures forall t, x | t in items + [e] && x in rest :: t.sends <= x.sends
  {
    assert e in was;
    forall i, j | 0 <= i < j < |items + [e]| ensures (items + [e])[i].sends <= (items + [e])[j].sends {
      if j == |items| {
        assert items[i] in items;
      }
    }
    forall t, x | t in items + [e] && x in rest ensures t.sends <= x.sends {
      assert x in was;
    }
  }
}
