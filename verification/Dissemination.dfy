/** How often an event rides: over every sequence of pushes and sends with a fixed limit, each pushed
    event rides on exactly max(1, limit) successful sends before it is dropped, and the queue drains. */
module Dissemination {
  import opened EventHeap
  import opened EventQueue
  import Codec

  /** taken are the entries a send attempt carried. */
  datatype Op = Pushed(event: Event) | Sent(ok: bool, taken: seq<Entry>)

  /** All events, or one. */
  datatype Which = All | Only(event: Event)

  predicate Picks(w: Which, e: Event) {
    w.All? || w.event == e
  }

  /** The number of sends an event is good for. */
  function Cap(limit: nat): nat {
    if limit <= 1 then 1 else limit
  }

  /** The sends an entry still has ahead of it. */
  function Ahead(e: Entry, limit: nat, w: Which): int {
    if Picks(w, e.event) then Cap(limit) - e.sends else 0
  }

  ghost function Left(bag: multiset<Entry>, limit: nat, w: Which): int
    decreases |bag|
  {
    if bag == multiset{} then 0 else
      var e :| e in bag;
      Ahead(e, limit, w) + Left(bag - multiset{e}, limit, w)
  }

  ghost function LeftSeq(s: seq<Entry>, limit: nat, w: Which): int {
    if s == [] then 0 else LeftSeq(s[..|s| - 1], limit, w) + Ahead(s[|s| - 1], limit, w)
  }

  lemma RemoveTwo(bag: multiset<Entry>, e: Entry, f: Entry)
    ensures bag - multiset{f} - multiset{e} == bag - multiset{e} - multiset{f}
  {}

  lemma {:induction false} LeftRemove(bag: multiset<Entry>, e: Entry, limit: nat, w: Which)
    requires e in bag
    ensures Left(bag, limit, w) == Ahead(e, limit, w) + Left(bag - multiset{e}, limit, w)
    decreases |bag|
  {
    var f :| f in bag && Left(bag, limit, w) == Ahead(f, limit, w) + Left(bag - multiset{f}, limit, w);
    if f != e {
      assert |bag - multiset{f}| < |bag| && |bag - multiset{e}| < |bag|;
      LeftRemove(bag - multiset{f}, e, limit, w);
      LeftRemove(bag - multiset{e}, f, limit, w);
      RemoveTwo(bag, e, f);
    }
  }

  lemma LeftAdd(bag: multiset<Entry>, e: Entry, limit: nat, w: Which)
    ensures Left(bag + multiset{e}, limit, w) == Left(bag, limit, w) + Ahead(e, limit, w)
  {
    LeftRemove(bag + multiset{e}, e, limit, w);
    assert bag + multiset{e} - multiset{e} == bag;
  }

  lemma LeftSeqSnoc(s: seq<Entry>, e: Entry, limit: nat, w: Which)
    ensures LeftSeq(s + [e], limit, w) == LeftSeq(s, limit, w) + Ahead(e, limit, w)
  {
    assert (s + [e])[..|s|] == s;
  }

  lemma {:induction false} LeftConcat(bag: multiset<Entry>, s: seq<Entry>, limit: nat, w: Which)
    ensures Left(bag + multiset(s), limit, w) == Left(bag, limit, w) + LeftSeq(s, limit, w)
  {
    if s == [] {
      assert bag + multiset(s) == bag;
    } else {
      var rest, last := s[..|s| - 1], s[|s| - 1];
      assert s == rest + [last];
      LeftConcat(bag, rest, limit, w);
      var whole := bag + multiset(s);
      assert last in whole && whole - multiset{last} == bag + multiset(rest);
      LeftRemove(whole, last, limit, w);
    }
  }

  /** The picked events among the carried entries. */
  function Carried(s: seq<Entry>, w: Which): nat {
    if s == [] then 0 else Carried(s[..|s| - 1], w) + if Picks(w, s[|s| - 1].event) then 1 else 0
  }

  /** Every entry in the queue still has a send ahead of it. */
  ghost predicate Fresh(bag: multiset<Entry>, limit: nat) {
    forall e | e in bag :: e.sends < Cap(limit)
  }

  /** A successful send costs each carried event exactly one of its sends. */
  lemma {:induction false} KeptCosts(s: seq<Entry>, limit: nat, w: Which)
    requires forall e | e in s :: e.sends < Cap(limit)
    ensures LeftSeq(Kept(s, limit), limit, w) == LeftSeq(s, limit, w) - Carried(s, w)
    ensures forall e | e in Kept(s, limit) :: e.sends < Cap(limit)
  {
    if s != [] {
      var rest, last := s[..|s| - 1], s[|s| - 1];
      KeptCosts(rest, limit, w);
      assert last in s;
      var k := Kept(rest, limit);
      if last.sends + 1 < limit {
        LeftSeqSnoc(k, Entry(last.event, last.sends + 1), limit, w);
      } else {
        assert Kept(s, limit) == k;
        assert Cap(limit) - last.sends == 1;
      }
    }
  }

  // ---------------------------------------------------------------- runs

  ghost predicate Step(limit: nat, bag: multiset<Entry>, op: Op, bag': multiset<Entry>) {
    match op
    case Pushed(e) => bag' == bag + multiset{Entry(e, 0)}
    case Sent(ok, taken) => SendStep(bag, limit, ok, taken, bag')
  }

  ghost predicate IsRun(limit: nat, bags: seq<multiset<Entry>>, ops: seq<Op>) {
    && |bags| == |ops| + 1
    && forall n | 0 <= n < |ops| :: Step(limit, bags[n], ops[n], bags[n + 1])
  }

  function PushesOf(op: Op, w: Which): nat {
    if op.Pushed? && Picks(w, op.event) then 1 else 0
  }

  /** The sends a push brings with it. */
  function GrantOf(op: Op, limit: nat, w: Which): nat {
    if PushesOf(op, w) == 1 then Cap(limit) else 0
  }

  function RidesOf(op: Op, w: Which): nat {
    if op.Sent? && op.ok then Carried(op.taken, w) else 0
  }

  function Pushes(ops: seq<Op>, w: Which): nat {
    if ops == [] then 0 else Pushes(ops[..|ops| - 1], w) + PushesOf(ops[|ops| - 1], w)
  }

  function Grants(ops: seq<Op>, limit: nat, w: Which): nat {
    if ops == [] then 0 else Grants(ops[..|ops| - 1], limit, w) + GrantOf(ops[|ops| - 1], limit, w)
  }

  lemma {:induction false} GrantsAre(ops: seq<Op>, limit: nat, w: Which)
    ensures Grants(ops, limit, w) == Cap(limit) * Pushes(ops, w)
  {
    if ops != [] {
      GrantsAre(ops[..|ops| - 1], limit, w);
      var p, q := Pushes(ops[..|ops| - 1], w), PushesOf(ops[|ops| - 1], w);
      assert Cap(limit) * (p + q) == Cap(limit) * p + Cap(limit) * q;
    }
  }

  /** On how many successful sends the picked events rode. */
  function Rides(ops: seq<Op>, w: Which): nat {
    if ops == [] then 0 else Rides(ops[..|ops| - 1], w) + RidesOf(ops[|ops| - 1], w)
  }

  /** One step conserves the sends ahead plus the rides taken. */
  lemma StepConserves(limit: nat, bag: multiset<Entry>, op: Op, bag': multiset<Entry>, w: Which)
    requires Fresh(bag, limit) && Step(limit, bag, op, bag')
    ensures Fresh(bag', limit)
    ensures Left(bag', limit, w) + RidesOf(op, w) == Left(bag, limit, w) + GrantOf(op, limit, w)
  {
    match op
    case Pushed(e) => PushConserves(limit, bag, e, w);
    case Sent(ok, taken) =>
      if ok {
        SendConserves(limit, bag, taken, bag', w);
      } else {
        FailedSend(limit, bag, taken, bag');
      }
  }

  lemma PushConserves(limit: nat, bag: multiset<Entry>, e: Event, w: Which)
    requires Fresh(bag, limit)
    ensures var bag' := bag + multiset{Entry(e, 0)};
            Fresh(bag', limit) && Left(bag', limit, w) == Left(bag, limit, w) + if Picks(w, e) then Cap(limit) else 0
  {
    LeftAdd(bag, Entry(e, 0), limit, w);
  }

  lemma FailedSend(limit: nat, bag: multiset<Entry>, taken: seq<Entry>, bag': multiset<Entry>)
    requires SendStep(bag, limit, false, taken, bag')
    ensures bag' == bag
  {}

  lemma SendConserves(limit: nat, bag: multiset<Entry>, taken: seq<Entry>, bag': multiset<Entry>, w: Which)
    requires Fresh(bag, limit) && SendStep(bag, limit, true, taken, bag')
    ensures Fresh(bag', limit) && Left(bag', limit, w) + Carried(taken, w) == Left(bag, limit, w)
  {
    var rest :| Least(bag, Codec.MAX_PIGGYBACK_EVENTS, taken, rest) && bag' == rest + multiset(Kept(taken, limit));
    assert bag == rest + multiset(taken);
    forall e | e in taken ensures e.sends < Cap(limit) {
      assert e in bag;
    }
    KeptCosts(taken, limit, w);
    LeftConcat(rest, taken, limit, w);
    LeftConcat(rest, Kept(taken, limit), limit, w);
    forall e | e in bag' ensures e.sends < Cap(limit) {
      if e in rest {
        assert e in bag;
      } else {
        assert e in Kept(taken, limit);
      }
    }
  }

  lemma {:induction false} GrantsAreConserved(limit: nat, bags: seq<multiset<Entry>>, ops: seq<Op>, w: Which, n: nat)
    requires IsRun(limit, bags, ops) && bags[0] == multiset{} && n <= |ops|
    ensures Fresh(bags[n], limit)
    ensures Rides(ops[..n], w) + Left(bags[n], limit, w) == Grants(ops[..n], limit, w)
  {
    if n > 0 {
      GrantsAreConserved(limit, bags, ops, w, n - 1);
      assert ops[..n][..n - 1] == ops[..n - 1];
      assert Step(limit, bags[n - 1], ops[n - 1], bags[n]);
      StepConserves(limit, bags[n - 1], ops[n - 1], bags[n], w);
    }
  }

  /** Conservation over every run from an empty queue: the rides an event has taken and those its queued
      entries still have ahead add up to max(1, limit) for each time it was pushed. */
  lemma RidesAreConserved(limit: nat, bags: seq<multiset<Entry>>, ops: seq<Op>, w: Which, n: nat)
    requires IsRun(limit, bags, ops) && bags[0] == multiset{} && n <= |ops|
    ensures Fresh(bags[n], limit)
    ensures Rides(ops[..n], w) + Left(bags[n], limit, w) == Cap(limit) * Pushes(ops[..n], w)
  {
    GrantsAreConserved(limit, bags, ops, w, n);
    GrantsAre(ops[..n], limit, w);
  }

  lemma {:induction false} LeftIsPositive(bag: multiset<Entry>, limit: nat, w: Which)
    requires Fresh(bag, limit)
    ensures Left(bag, limit, w) >= 0
    ensures forall e | e in bag && Picks(w, e.event) :: Left(bag, limit, w) >= Cap(limit) - e.sends
    decreases |bag|
  {
    forall e | e in bag
      ensures Left(bag, limit, w) >= 0 && (Picks(w, e.event) ==> Left(bag, limit, w) >= Cap(limit) - e.sends)
    {
      LeftRemove(bag, e, limit, w);
      LeftIsPositive(bag - multiset{e}, limit, w);
    }
  }

  /** An event has left the queue exactly when every push of it has had all its rides. */
  lemma DroppedIffRidden(limit: nat, bags: seq<multiset<Entry>>, ops: seq<Op>, x: Event)
    requires IsRun(limit, bags, ops) && bags[0] == multiset{}
    ensures (forall e | e in bags[|ops|] :: e.event != x) <==> Rides(ops, Only(x)) == Cap(limit) * Pushes(ops, Only(x))
  {
    var bag := bags[|ops|];
    assert ops[..|ops|] == ops;
    RidesAreConserved(limit, bags, ops, Only(x), |ops|);
    LeftIsPositive(bag, limit, Only(x));
    if forall e | e in bag :: e.event != x {
      NothingLeft(bag, limit, x);
    }
  }

  lemma {:induction false} NothingLeft(bag: multiset<Entry>, limit: nat, x: Event)
    requires forall e | e in bag :: e.event != x
    ensures Left(bag, limit, Only(x)) == 0
    decreases |bag|
  {
    if e :| e in bag {
      LeftRemove(bag, e, limit, Only(x));
      NothingLeft(bag - multiset{e}, limit, x);
    }
  }

  lemma {:induction false} CarriedAll(s: seq<Entry>)
    ensures Carried(s, All) == |s|
  {
    if s != [] {
      CarriedAll(s[..|s| - 1]);
    }
  }

  /** When nothing is pushed, the sends left over all entries strictly decrease with every successful
      send from a queue that is not empty, so that many sends drain it. */
  lemma {:induction false} QueueDrains(limit: nat, bags: seq<multiset<Entry>>, ops: seq<Op>)
    requires IsRun(limit, bags, ops) && Fresh(bags[0], limit)
    requires (forall n | 0 <= n < |ops| :: ops[n].Sent? && ops[n].ok) && |ops| >= Left(bags[0], limit, All)
    ensures bags[|ops|] == multiset{}
    decreases |ops|
  {
    LeftIsPositive(bags[0], limit, All);
    if bags[0] == multiset{} {
      StaysEmpty(limit, bags, ops, |ops|);
    } else {
      assert Step(limit, bags[0], ops[0], bags[1]);
      SendTakes(limit, bags[0], ops[0].taken, bags[1]);
      RunTail(limit, bags, ops);
      QueueDrains(limit, bags[1..], ops[1..]);
    }
  }

  lemma SendTakes(limit: nat, bag: multiset<Entry>, taken: seq<Entry>, bag': multiset<Entry>)
    requires Fresh(bag, limit) && SendStep(bag, limit, true, taken, bag') && bag != multiset{}
    ensures Fresh(bag', limit) && Left(bag', limit, All) < Left(bag, limit, All)
  {
    SendConserves(limit, bag, taken, bag', All);
    CarriedAll(taken);
    var rest :| Least(bag, Codec.MAX_PIGGYBACK_EVENTS, taken, rest);
    TakesSome(bag, taken, rest);
  }

  lemma TakesSome(bag: multiset<Entry>, taken: seq<Entry>, rest: multiset<Entry>)
    requires Least(bag, Codec.MAX_PIGGYBACK_EVENTS, taken, rest) && bag != multiset{}
    ensures |taken| > 0
  {
    var e :| e in bag;
    assert bag == bag - multiset{e} + multiset{e};
  }

  lemma RunTail(limit: nat, bags: seq<multiset<Entry>>, ops: seq<Op>)
    requires IsRun(limit, bags, ops) && ops != []
    ensures IsRun(limit, bags[1..], ops[1..])
  {
    forall n | 0 <= n < |ops| - 1 ensures Step(limit, bags[1..][n], ops[1..][n], bags[1..][n + 1]) {
      assert Step(limit, bags[n + 1], ops[n + 1], bags[n + 2]);
    }
  }

  lemma {:induction false} StaysEmpty(limit: nat, bags: seq<multiset<Entry>>, ops: seq<Op>, n: nat)
    requires IsRun(limit, bags, ops) && n <= |ops| && bags[0] == multiset{} && forall k | 0 <= k < |ops| :: ops[k].Sent?
    ensures bags[n] == multiset{}
  {
    if n > 0 {
      StaysEmpty(limit, bags, ops, n - 1);
      assert Step(limit, bags[n - 1], ops[n - 1], bags[n]);
      assert |ops[n - 1].taken| == 0;
    }
  }

  // ---------------------------------------------------------------- an event pushed once

  ghost predicate NoneOf(bag: multiset<Entry>, x: Event) {
    forall e | e in bag :: e.event != x
  }

  ghost predicate AtMostOne(bag: multiset<Entry>, x: Event) {
    && (forall e, f | e in bag && f in bag && e.event == x && f.event == x :: e == f)
    && (forall e | e in bag && e.event == x :: bag[e] == 1)
  }

  lemma {:induction false} CarriedNone(s: seq<Entry>, x: Event)
    requires NoneOf(multiset(s), x)
    ensures Carried(s, Only(x)) == 0
  {
    if s != [] {
      assert s == s[..|s| - 1] + [s[|s| - 1]];
      CarriedNone(s[..|s| - 1], x);
    }
  }

  lemma {:induction false} CarriedOnce(s: seq<Entry>, x: Event)
    requires AtMostOne(multiset(s), x)
    ensures Carried(s, Only(x)) <= 1
  {
    if s != [] {
      var rest, last := s[..|s| - 1], s[|s| - 1];
      assert s == rest + [last];
      assert multiset(s) == multiset(rest) + multiset{last};
      if last.event == x {
        forall e: Entry | e in multiset(rest) ensures e.event != x {
          assert e in multiset(s) && last in multiset(s);
        }
        CarriedNone(rest, x);
      } else {
        assert forall e: Entry | e in multiset(rest) && e.event == x :: multiset(rest)[e] == multiset(s)[e];
        CarriedOnce(rest, x);
      }
    }
  }

  /** The entry before its last send. */
  function Before(e: Entry): Entry {
    Entry(e.event, if e.sends > 0 then e.sends - 1 else 0)
  }

  /** A kept entry comes from a taken one. */
  lemma KeptFrom(taken: seq<Entry>, limit: nat, e: Entry)
    ensures multiset(Kept(taken, limit))[e] <= multiset(taken)[Before(e)]
    ensures e in multiset(Kept(taken, limit)) ==> e.sends > 0 && Before(e) in multiset(taken)
  {
    KeptExactly(taken, limit, e);
  }

  lemma SendKeepsNone(limit: nat, bag: multiset<Entry>, ok: bool, taken: seq<Entry>, bag': multiset<Entry>, x: Event)
    requires SendStep(bag, limit, ok, taken, bag') && NoneOf(bag, x)
    ensures NoneOf(bag', x) && Carried(taken, Only(x)) == 0
  {
    var rest :| Least(bag, Codec.MAX_PIGGYBACK_EVENTS, taken, rest)
        && bag' == if ok then rest + multiset(Kept(taken, limit)) else bag;
    forall e | e in bag' ensures e.event != x {
      KeptFrom(taken, limit, e);
    }
    CarriedNone(taken, x);
  }

  lemma KeptStaysOne(limit: nat, bag: multiset<Entry>, taken: seq<Entry>, rest: multiset<Entry>, x: Event)
    requires bag == multiset(taken) + rest && AtMostOne(bag, x)
    ensures AtMostOne(rest + multiset(Kept(taken, limit)), x)
  {
    var bag' := rest + multiset(Kept(taken, limit));
    forall e, f | e in bag' && f in bag' && e.event == x && f.event == x ensures e == f {
      KeptFrom(taken, limit, e);
      KeptFrom(taken, limit, f);
      assert (e in rest ==> e in bag) && (f in rest ==> f in bag);
      assert (Before(e) in multiset(taken) ==> Before(e) in bag) && (Before(f) in multiset(taken) ==> Before(f) in bag);
    }
    forall e | e in bag' && e.event == x ensures bag'[e] == 1 {
      KeptFrom(taken, limit, e);
      assert (e in rest ==> e in bag) && (Before(e) in multiset(taken) ==> Before(e) in bag);
    }
  }

  lemma SendKeepsOne(limit: nat, bag: multiset<Entry>, ok: bool, taken: seq<Entry>, bag': multiset<Entry>, x: Event)
    requires SendStep(bag, limit, ok, taken, bag') && AtMostOne(bag, x)
    ensures AtMostOne(bag', x) && Carried(taken, Only(x)) <= 1
  {
    var rest :| Least(bag, Codec.MAX_PIGGYBACK_EVENTS, taken, rest)
        && bag' == if ok then rest + multiset(Kept(taken, limit)) else bag;
    KeptStaysOne(limit, bag, taken, rest, x);
    forall e | e in multiset(taken) && e.event == x ensures multiset(taken)[e] == 1 {
      assert e in bag;
    }
    assert forall e | e in multiset(taken) :: e in bag;
    CarriedOnce(taken, x);
  }

  /** What the queue holds of an event that was pushed p times. */
  ghost predicate OnceAfter(p: nat, bag: multiset<Entry>, x: Event) {
    (p == 0 ==> NoneOf(bag, x)) && (p <= 1 ==> AtMostOne(bag, x))
  }

  lemma StepKeepsOne(limit: nat, p: nat, bag: multiset<Entry>, op: Op, bag': multiset<Entry>, x: Event)
    requires Step(limit, bag, op, bag') && OnceAfter(p, bag, x)
    ensures OnceAfter(p + PushesOf(op, Only(x)), bag', x)
  {
    match op
    case Pushed(e) =>
    case Sent(ok, taken) =>
      if p == 0 {
        SendKeepsNone(limit, bag, ok, taken, bag', x);
      } else if p == 1 {
        SendKeepsOne(limit, bag, ok, taken, bag', x);
      }
  }

  lemma PushesNext(ops: seq<Op>, n: nat, w: Which)
    requires n < |ops|
    ensures Pushes(ops[..n + 1], w) == Pushes(ops[..n], w) + PushesOf(ops[n], w)
  {
    assert ops[..n + 1][..n] == ops[..n];
  }

  /** An event pushed at most once is in the queue at most once, in every run from an empty queue. */
  lemma {:induction false} OnceInQueue(limit: nat, bags: seq<multiset<Entry>>, ops: seq<Op>, x: Event, n: nat)
    requires IsRun(limit, bags, ops) && bags[0] == multiset{} && n <= |ops|
    ensures OnceAfter(Pushes(ops[..n], Only(x)), bags[n], x)
  {
    if n > 0 {
      var m := n - 1;
      OnceInQueue(limit, bags, ops, x, m);
      assert Step(limit, bags[m], ops[m], bags[m + 1]);
      StepKeepsOne(limit, Pushes(ops[..m], Only(x)), bags[m], ops[m], bags[m + 1], x);
      PushesNext(ops, m, Only(x));
    }
  }

  lemma {:induction false} PushesGrow(ops: seq<Op>, n: nat, w: Which)
    requires n <= |ops|
    ensures Pushes(ops[..n], w) <= Pushes(ops, w)
    decreases |ops| - n
  {
    if n == |ops| {
      assert ops[..n] == ops;
    } else {
      PushesGrow(ops, n + 1, w);
      PushesNext(ops, n, w);
    }
  }

  /** The successful sends that carried x. */
  function SendsWith(ops: seq<Op>, x: Event): nat {
    if ops == [] then 0
    else SendsWith(ops[..|ops| - 1], x) + if RidesOf(ops[|ops| - 1], Only(x)) > 0 then 1 else 0
  }

  lemma {:induction false} RidesAreSends(ops: seq<Op>, x: Event)
    requires forall n | 0 <= n < |ops| :: RidesOf(ops[n], Only(x)) <= 1
    ensures Rides(ops, Only(x)) == SendsWith(ops, x)
  {
    if ops != [] {
      RidesAreSends(ops[..|ops| - 1], x);
    }
  }

  lemma CarriedAtMostOnce(limit: nat, bags: seq<multiset<Entry>>, ops: seq<Op>, x: Event, n: nat)
    requires IsRun(limit, bags, ops) && bags[0] == multiset{} && Pushes(ops, Only(x)) <= 1 && n < |ops| && ops[n].Sent?
    ensures Carried(ops[n].taken, Only(x)) <= 1
  {
    PushesGrow(ops, n, Only(x));
    OnceInQueue(limit, bags, ops, x, n);
    assert Step(limit, bags[n], ops[n], bags[n + 1]);
    SendKeepsOne(limit, bags[n], ops[n].ok, ops[n].taken, bags[n + 1], x);
  }

  /** An event pushed once rides at most once on each message, on no more than max(1, limit) successful sends,
      and has left the queue exactly when it has ridden on that many different ones. */
  lemma PushedOnce(limit: nat, bags: seq<multiset<Entry>>, ops: seq<Op>, x: Event)
    requires IsRun(limit, bags, ops) && bags[0] == multiset{} && Pushes(ops, Only(x)) == 1
    ensures forall n | 0 <= n < |ops| && ops[n].Sent? :: Carried(ops[n].taken, Only(x)) <= 1
    ensures SendsWith(ops, x) <= Cap(limit) && (NoneOf(bags[|ops|], x) <==> SendsWith(ops, x) == Cap(limit))
  {
    forall n | 0 <= n < |ops| && ops[n].Sent? ensures Carried(ops[n].taken, Only(x)) <= 1 {
      CarriedAtMostOnce(limit, bags, ops, x, n);
    }
    assert ops[..|ops|] == ops;
    RidesAreSends(ops, x);
    DroppedIffRidden(limit, bags, ops, x);
    RidesAreConserved(limit, bags, ops, Only(x), |ops|);
    LeftIsPositive(bags[|ops|], limit, Only(x));
  }
}
