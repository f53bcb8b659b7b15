/** LWWRegister (internal/crdt/crdt.go): timestamped values, last writer wins, ties broken by the
    lexicographically highest node id. */
module Registers {
  import opened Bands
  import opened Gossip

  /** time counts from Go's zero time and may lie before it. */
  datatype Entry = Entry(writer: NodeID, time: int, value: string)

  /** The entry of a register that was never written. */
  const ZERO_ENTRY: Entry := Entry("", 0, "")

  /** String comparison a > b. */
  predicate Greater(a: string, b: string) {
    if a == [] then false
    else if b == [] then true
    else if a[0] == b[0] then Greater(a[1..], b[1..])
    else a[0] > b[0]
  }

  lemma {:induction false} GreaterIsTotal(a: string, b: string)
    ensures !(Greater(a, b) && Greater(b, a))
    ensures !Greater(a, b) && !Greater(b, a) <==> a == b
  {
    if a != [] && b != [] && a[0] == b[0] {
      GreaterIsTotal(a[1..], b[1..]);
      assert a == [a[0]] + a[1..] && b == [b[0]] + b[1..];
    }
  }

  lemma {:induction false} GreaterIsTransitive(a: string, b: string, c: string)
    requires Greater(a, b) && Greater(b, c)
    ensures Greater(a, c)
  {
    if c != [] && a[0] == b[0] && b[0] == c[0] {
      GreaterIsTransitive(a[1..], b[1..], c[1..]);
    }
  }

  lemma SharedHead(a: string, b: string, n: nat)
    requires n <= |a| && n <= |b| && a[..n] == b[..n]
    ensures n == 0 || a[0] == b[0]
  {
    if n > 0 {
      assert a[0] == a[..n][0] && b[0] == b[..n][0];
    }
  }

  /** Greater is the lexicographic order: the first difference decides, and a longer string is greater
      than its prefix. */
  lemma {:induction false} GreaterIsLexicographic(a: string, b: string)
    ensures Greater(a, b) <==>
            exists n :: 0 <= n < |a| && n <= |b| && a[..n] == b[..n] && (n == |b| || a[n] > b[n])
  {
    if a != [] && b != [] && a[0] == b[0] {
      GreaterIsLexicographic(a[1..], b[1..]);
      if Greater(a, b) {
        var n :| 0 <= n < |a[1..]| && n <= |b[1..]| && a[1..][..n] == b[1..][..n]
            && (n == |b[1..]| || a[1..][n] > b[1..][n]);
        assert a[..n + 1] == [a[0]] + a[1..][..n] && b[..n + 1] == [b[0]] + b[1..][..n];
      }
      if n :| 0 <= n < |a| && n <= |b| && a[..n] == b[..n] && (n == |b| || a[n] > b[n]) {
        assert n > 0;
        assert a[1..][..n - 1] == a[..n][1..] && b[1..][..n - 1] == b[..n][1..];
      }
    } else if a != [] {
      assert a[..0] == b[..0];
      if n :| 0 <= n < |a| && n <= |b| && a[..n] == b[..n] && (n == |b| || a[n] > b[n]) {
        SharedHead(a, b, n);
      }
    }
  }

  predicate After(e: Entry, f: Entry) {
    e.time > f.time || (e.time == f.time && Greater(e.writer, f.writer))
  }

  predicate SameStamp(e: Entry, f: Entry) {
    e.time == f.time && e.writer == f.writer
  }

  function Merge(a: Entry, b: Entry): Entry {
    if After(b, a) then b else a
  }

  predicate Leq(a: Entry, b: Entry) {
    !After(a, b)
  }

  /** After is a strict order whose incomparable entries carry the same stamp. */
  lemma AfterIsOrder(a: Entry, b: Entry, c: Entry)
    ensures !(After(a, b) && After(b, a))
    ensures !After(a, b) && !After(b, a) <==> SameStamp(a, b)
    ensures After(a, b) && After(b, c) ==> After(a, c)
    ensures After(a, b) && SameStamp(b, c) ==> After(a, c)
    ensures SameStamp(a, b) && After(b, c) ==> After(a, c)
  {
    GreaterIsTotal(a.writer, b.writer);
    if Greater(a.writer, b.writer) && Greater(b.writer, c.writer) {
      GreaterIsTransitive(a.writer, b.writer, c.writer);
    }
  }

  /** Merging keeps the entry with the later time and, at equal times, with the greater writer. */
  lemma MergeIsLastWriter(a: Entry, b: Entry)
    ensures var r := Merge(a, b);
            && (r == a || r == b) && r.time >= a.time && r.time >= b.time
            && (a.time == b.time ==> !Greater(a.writer, r.writer) && !Greater(b.writer, r.writer))
  {
    GreaterIsTotal(a.writer, b.writer);
    GreaterIsTotal(a.writer, a.writer);
    GreaterIsTotal(b.writer, b.writer);
  }

  const CARRIER: Carrier<Entry, Entry> := Carrier(Merge, Leq, ZERO_ENTRY, x => x, Merge)

  /** Registers are a carrier of the gossip protocol: keeping the left entry unless the right one is
      later is a left-regular band, although it does not commute on entries with the same stamp. */
  lemma RegisterLaws()
    ensures Laws(CARRIER)
  {
    forall x, y, z ensures Assoc(Merge, x, y, z) {
      AfterIsOrder(z, y, x);
      AfterIsOrder(y, x, z);
      AfterIsOrder(x, y, z);
      AfterIsOrder(z, x, y);
      AfterIsOrder(y, z, x);
    }
    forall x ensures Idem(Merge, x) {
    }
    forall x, y ensures Regular(Merge, x, y) {
      AfterIsOrder(x, y, x);
    }
    forall x, y ensures ViewOfJoin(CARRIER, x, y) {
    }
  }

  /** The first write to a key takes effect exactly when its time is past Go's zero time, or at it under a
      proper id (or writes nothing); otherwise the register reads empty. */
  lemma FirstWrite(l: Lane<Entry>, k: Key, e: Entry)
    requires k !in l.state
    ensures var r := Record(CARRIER, l, Delta(k, e)).state[k];
            && (r == e <==> e.time > 0 || (e.time == 0 && e.writer != "") || e == Entry("", 0, ""))
            && (r != e ==> r.value == "")
  {}
}
