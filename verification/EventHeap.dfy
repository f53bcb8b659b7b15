/** The dissemination queue (internal/swim/event.go): a binary heap of events ordered by how often each
    was sent.  Up and Down are those of Go's container/heap. */
module EventHeap {
  import Membership

  type Event = Membership.Event

  /** An event and the number of times this node has sent it. */
  datatype Entry = Entry(event: Event, sends: nat)

  /** An entry in the heap, with the position the heap maintains for it. */
  datatype Item = Item(entry: Entry, index: nat)

  function Parent(i: nat): nat {
    if i == 0 then 0 else (i - 1) / 2
  }

  function Sends(s: seq<Item>, i: nat): nat
    requires i < |s|
  {
    s[i].entry.sends
  }

  /** Item i was sent at least as often as its parent. */
  ghost predicate Edge(s: seq<Item>, i: nat)
    requires i < |s|
  {
    Sends(s, Parent(i)) <= Sends(s, i)
  }

  /** Item i was sent at least as often as its grandparent. */
  ghost predicate Bridge(s: seq<Item>, i: nat)
    requires i < |s|
  {
    Sends(s, Parent(Parent(i))) <= Sends(s, i)
  }

  ghost predicate Ordered(s: seq<Item>, n: nat)
    requires n <= |s|
  {
    forall i | 1 <= i < n :: Edge(s, i)
  }

  /** Ordered but for place j, which may be smaller than its parent. */
  ghost predicate OrderedAbove(s: seq<Item>, j: nat)
    requires j < |s|
  {
    && (forall i | 1 <= i < |s| && i != j :: Edge(s, i))
    && (forall i | 1 <= i < |s| && Parent(i) == j :: Bridge(s, i))
  }

  /** Ordered in the first n places but for place k, which may be larger than its children. */
  ghost predicate OrderedBelow(s: seq<Item>, k: nat, n: nat)
    requires k < n <= |s|
  {
    && (forall i | 1 <= i < n && Parent(i) != k :: Edge(s, i))
    && (k > 0 ==> forall i | 1 <= i < n && Parent(i) == k :: Bridge(s, i))
  }

  ghost predicate Indexed(s: seq<Item>) {
    forall i | 0 <= i < |s| :: s[i].index == i
  }

  function Entries(s: seq<Item>): (r: seq<Entry>)
    ensures |r| == |s| && forall i | 0 <= i < |s| :: r[i] == s[i].entry
  {
    seq(|s|, i requires 0 <= i < |s| => s[i].entry)
  }

  ghost function Bag(s: seq<Item>): multiset<Entry> {
    multiset(Entries(s))
  }

  /** Swap two items and restore their index fields. */
  function Swapped(s: seq<Item>, i: nat, j: nat): seq<Item>
    requires i < |s| && j < |s|
  {
    s[i := Item(s[j].entry, i)][j := Item(s[i].entry, j)]
  }

  lemma SwappedKeeps(s: seq<Item>, i: nat, j: nat)
    requires i < |s| && j < |s|
    ensures Bag(Swapped(s, i, j)) == Bag(s)
    ensures Indexed(s) ==> Indexed(Swapped(s, i, j))
  {
    var e: seq<Entry> := Entries(s);
    var f: seq<Entry> := e[i := e[j]][j := e[i]];
    assert Entries(Swapped(s, i, j)) == f;
    assert multiset(f) == multiset(e);
  }

  /** The root of an ordered heap was sent least. */
  lemma {:induction false} RootIsLeast(s: seq<Item>, n: nat, i: nat)
    requires i < n <= |s| && Ordered(s, n)
    ensures Sends(s, 0) <= Sends(s, i)
  {
    if i > 0 {
      RootIsLeast(s, n, Parent(i));
      assert Edge(s, i);
    }
  }

  lemma UpStep(s: seq<Item>, j: nat)
    requires 0 < j < |s| && OrderedAbove(s, j) && Sends(s, j) < Sends(s, Parent(j))
    ensures OrderedAbove(Swapped(s, Parent(j), j), Parent(j))
  {
    var p, t := Parent(j), Swapped(s, Parent(j), j);
    forall i | 1 <= i < |t| && i != p ensures Edge(t, i) {
      if i != j {
        assert Edge(s, i);
        if Parent(i) == j {
          assert Bridge(s, i);
        }
      }
    }
    forall i | 1 <= i < |t| && Parent(i) == p ensures Bridge(t, i) {
      if p > 0 {
        assert Edge(s, p);
        assert i != j ==> Edge(s, i);
      } else {
        assert i != j ==> Edge(s, i);
      }
    }
  }

  lemma DownStep(s: seq<Item>, k: nat, n: nat, j: nat)
    requires k < n <= |s| && 1 <= j < n && Parent(j) == k && OrderedBelow(s, k, n) && Sends(s, j) < Sends(s, k)
    requires forall i | 1 <= i < n && Parent(i) == k :: Sends(s, j) <= Sends(s, i)
    ensures OrderedBelow(Swapped(s, k, j), j, n)
  {
    var t := Swapped(s, k, j);
    forall i | 1 <= i < n && Parent(i) != j ensures Edge(t, i) {
      if Parent(i) == k {
        assert Sends(s, j) <= Sends(s, i);
      } else {
        assert Edge(s, i);
        if i == k {
          assert Bridge(s, j);
        }
      }
    }
    forall i | 1 <= i < n && Parent(i) == j ensures Bridge(t, i) {
      assert Edge(s, i);
    }
  }

  /** The smaller of the two children, as Down picks it. */
  lemma LeastChild(s: seq<Item>, k: nat, n: nat, j: nat)
    requires n <= |s| && j < n && (j == 2 * k + 1 || j == 2 * k + 2)
    requires j == 2 * k + 1 ==> 2 * k + 2 >= n || Sends(s, 2 * k + 1) <= Sends(s, 2 * k + 2)
    requires j == 2 * k + 2 ==> Sends(s, 2 * k + 2) <= Sends(s, 2 * k + 1)
    ensures Parent(j) == k && forall i | 1 <= i < n && Parent(i) == k :: Sends(s, j) <= Sends(s, i)
  {
    forall i | 1 <= i < n && Parent(i) == k ensures Sends(s, j) <= Sends(s, i) {
      assert i == 2 * k + 1 || i == 2 * k + 2;
    }
  }

  lemma DownDone(s: seq<Item>, k: nat, n: nat)
    requires k < n <= |s| && OrderedBelow(s, k, n)
    requires forall i | 1 <= i < n && Parent(i) == k :: Sends(s, k) <= Sends(s, i)
    ensures Ordered(s, n)
  {
    forall i | 1 <= i < n ensures Edge(s, i) {
      if Parent(i) == k {
        assert Sends(s, k) <= Sends(s, i);
      }
    }
  }

  /** After the root went to the end, only place 0 is out of order. */
  lemma RootReplaced(s: seq<Item>)
    requires |s| > 1 && Ordered(s, |s|)
    ensures OrderedBelow(Swapped(s, 0, |s| - 1), 0, |s| - 1)
  {
    var t := Swapped(s, 0, |s| - 1);
    forall i | 1 <= i < |s| - 1 && Parent(i) != 0 ensures Edge(t, i) {
      assert Edge(s, i);
    }
  }

  class Heap {
    var items: seq<Item>

    ghost predicate Valid()
      reads this
    {
      Ordered(items, |items|) && Indexed(items)
    }

    constructor ()
      ensures Valid() && items == []
    {
      items := [];
    }

    /** Two entries change places; all others stay, and every item still knows its place. */
    method Swap(i: nat, j: nat)
      requires i < |items| && j < |items|
      modifies this
      ensures items == Swapped(old(items), i, j) && Bag(items) == old(Bag(items))
      ensures old(Indexed(items)) ==> Indexed(items)
    {
      SwappedKeeps(items, i, j);
      var a, b := items[i].entry, items[j].entry;
      items := items[i := Item(b, i)][j := Item(a, j)];
    }

    method Up(start: nat)
      requires start < |items| && OrderedAbove(items, start) && Indexed(items)
      modifies this
      ensures Valid() && Bag(items) == old(Bag(items)) && |items| == old(|items|)
    {
      var j: nat := start;
      while true
        invariant j < |items| == old(|items|) && OrderedAbove(items, j) && Indexed(items)
                  && Bag(items) == old(Bag(items))
        decreases j
      {
        var i := Parent(j);
        if i == j || items[j].entry.sends >= items[i].entry.sends {
          assert Edge(items, j);
          return;
        }
        UpStep(items, j);
        Swap(i, j);
        j := i;
      }
    }

    /** Restore the order of the first n items from place 0 down. */
    method Down(n: nat)
      requires 0 < n <= |items| && OrderedBelow(items, 0, n) && Indexed(items)
      modifies this
      ensures |items| == old(|items|) && Ordered(items, n) && Indexed(items) && Bag(items) == old(Bag(items))
      ensures items[n..] == old(items[n..])
    {
      var i: nat := 0;
      while true
        invariant i < n <= |items| == old(|items|) && OrderedBelow(items, i, n) && Indexed(items)
        invariant Bag(items) == old(Bag(items)) && items[n..] == old(items[n..])
        decreases n - i
      {
        var j := 2 * i + 1;
        if j >= n {
          DownDone(items, i, n);
          return;
        }
        if j + 1 < n && items[j + 1].entry.sends < items[j].entry.sends {
          j := j + 1;
        }
        LeastChild(items, i, n, j);
        if items[j].entry.sends >= items[i].entry.sends {
          DownDone(items, i, n);
          return;
        }
        DownStep(items, i, n, j);
        Swap(i, j);
        i := j;
      }
    }

    /** heap.Push. */
    method Push(e: Entry)
      requires Valid()
      modifies this
      ensures Valid() && Bag(items) == old(Bag(items)) + multiset{e} && |items| == old(|items|) + 1
    {
      ghost var was := items;
      assert Entries(items + [Item(e, |items|)]) == Entries(items) + [e];
      items := items + [Item(e, |items|)];
      assert forall i | 1 <= i < |was| :: Edge(was, i) ==> Edge(items, i);
      Up(|items| - 1);
    }

    /** heap.Pop: takes out an entry that was sent least. */
    method Pop() returns (e: Entry)
      requires Valid() && items != []
      modifies this
      ensures Valid() && old(Bag(items)) == Bag(items) + multiset{e} && |items| == old(|items|) - 1
      ensures forall x | x in Bag(items) :: e.sends <= x.sends
    {
      ghost var was := items;
      RootToEnd();
      var n := |items| - 1;
      e := items[n].entry;
      SplitLast(items);
      CutLast(items);
      items := items[..n];
      LeastOfBag(was, items, e);
    }

    /** Swap the root with the last item and restore the order of the others. */
    method RootToEnd()
      requires Valid() && items != []
      modifies this
      ensures |items| == old(|items|) && Bag(items) == old(Bag(items))
      ensures Ordered(items, |items| - 1) && Indexed(items) && items[|items| - 1].entry == old(items[0].entry)
    {
      var n := |items| - 1;
      SwappedKeeps(items, 0, n);
      if n > 0 {
        RootReplaced(items);
      }
      Swap(0, n);
      if n > 0 {
        Down(n);
        assert items[n] == items[n..][0];
      }
    }
  }

  lemma CutLast(s: seq<Item>)
    requires s != [] && Ordered(s, |s| - 1) && Indexed(s)
    ensures Ordered(s[..|s| - 1], |s| - 1) && Indexed(s[..|s| - 1])
  {
    var t := s[..|s| - 1];
    forall i | 1 <= i < |t| ensures Edge(t, i) {
      assert Edge(s, i);
    }
  }

  lemma SplitLast(s: seq<Item>)
    requires s != []
    ensures Bag(s) == Bag(s[..|s| - 1]) + multiset{s[|s| - 1].entry}
  {
    assert Entries(s) == Entries(s[..|s| - 1]) + [s[|s| - 1].entry];
  }

  lemma LeastOfBag(was: seq<Item>, rest: seq<Item>, e: Entry)
    requires was != [] && Ordered(was, |was|) && e == was[0].entry && Bag(was) == Bag(rest) + multiset{e}
    ensures forall x | x in Bag(rest) :: e.sends <= x.sends
  {
    forall x | x in Bag(rest) ensures e.sends <= x.sends {
      assert x in Bag(was);
      assert x in Entries(was);
      var i :| 0 <= i < |was| && Entries(was)[i] == x;
      RootIsLeast(was, |was|, i);
    }
  }
}
