/** MarshalBinary and UnmarshalBinary as the source runs them: a buffer filled in place, and a loop
    that advances through the events. */
module CodecImpl {
  import opened Codec

  lemma {:induction false} EncodeEventsSnoc(events: seq<Event>, e: Event)
    ensures EncodeEvents(events + [e]) == EncodeEvents(events) + EncodeEvent(e)
  {
    if events == [] {
      assert [e][1..] == [];
    } else {
      assert (events + [e])[1..] == events[1..] + [e];
      EncodeEventsSnoc(events[1..], e);
    }
  }

  lemma {:induction false} EncodeEventsGrow(events: seq<Event>, i: nat)
    requires i < |events|
    ensures EncodeEvents(events[..i + 1]) == EncodeEvents(events[..i]) + EncodeEvent(events[i])
    ensures |EncodeEvents(events[..i + 1])| <= |EncodeEvents(events)|
  {
    assert events[..i + 1] == events[..i] + [events[i]];
    EncodeEventsSnoc(events[..i], events[i]);
    EncodeEventsSplit(events[..i + 1], events[i + 1..]);
    assert events[..i + 1] + events[i + 1..] == events;
  }

  lemma {:induction false} EncodeEventsSplit(a: seq<Event>, b: seq<Event>)
    ensures EncodeEvents(a + b) == EncodeEvents(a) + EncodeEvents(b)
  {
    if a == [] {
      assert a + b == b;
    } else {
      assert (a + b)[1..] == a[1..] + b;
      EncodeEventsSplit(a[1..], b);
    }
  }

  /** copy(b[at:], s), and the bytes before at stay. */
  method Put(b: array<Byte>, at: nat, s: Bytes)
    requires at + |s| <= b.Length
    modifies b
    ensures b[..at + |s|] == old(b[..at]) + s
  {
    for j := 0 to |s|
      invariant b[..at] == old(b[..at])
      invariant b[at..at + j] == s[..j]
    {
      b[at + j] := s[j];
      assert b[at..at + j + 1] == b[at..at + j] + [s[j]];
    }
    assert b[..at + |s|] == b[..at] + b[at..at + |s|];
  }

  method EventBytes(events: seq<Event>) returns (n: nat)
    ensures n == |EncodeEvents(events)|
  {
    n := |events| * EVENT_HEADER_SIZE;
    for i := 0 to |events|
      invariant n == |EncodeEvents(events[..i])| + (|events| - i) * EVENT_HEADER_SIZE
    {
      EncodeEventsGrow(events, i);
      n := n + |events[i].node|;
    }
    assert events[..|events|] == events;
  }

  method PutHead(b: array<Byte>, m: Message)
    requires |EncodeHead(m)| <= b.Length
    modifies b
    ensures b[..|EncodeHead(m)|] == EncodeHead(m)
  {
    var s := 2 + |m.src|;
    Put(b, 0, [VERSION, |m.src| % 256]);
    Put(b, 2, m.src);
    assert b[..s] == [VERSION, |m.src| % 256] + m.src;
    Put(b, s, [m.kind]);
    Put(b, s + 1, BigEndian(m.period, 8));
    Put(b, s + 9, [|m.target| % 256]);
    Put(b, s + 10, m.target);
    Put(b, s + 10 + |m.target|, [|m.events| % 256]);
  }

  method PutEvent(b: array<Byte>, at: nat, e: Event)
    requires at + |EncodeEvent(e)| <= b.Length
    modifies b
    ensures b[..at + |EncodeEvent(e)|] == old(b[..at]) + EncodeEvent(e)
  {
    Put(b, at, [e.kind, |e.node| % 256]);
    Put(b, at + EVENT_HEADER_SIZE, e.node);
    assert old(b[..at]) + [e.kind, |e.node| % 256] + e.node == old(b[..at]) + EncodeEvent(e);
  }

  method PutEvents(b: array<Byte>, at: nat, events: seq<Event>)
    requires at + |EncodeEvents(events)| <= b.Length
    modifies b
    ensures b[..at + |EncodeEvents(events)|] == old(b[..at]) + EncodeEvents(events)
  {
    var p := at;
    for i := 0 to |events|
      invariant p == at + |EncodeEvents(events[..i])| <= b.Length
      invariant b[..p] == old(b[..at]) + EncodeEvents(events[..i])
    {
      EncodeEventsGrow(events, i);
      var e := events[i];
      PutEvent(b, p, e);
      p := p + EVENT_HEADER_SIZE + |e.node|;
      assert old(b[..at]) + EncodeEvents(events[..i]) + EncodeEvent(e) == old(b[..at]) + EncodeEvents(events[..i + 1]);
    }
    assert events[..|events|] == events;
  }

  method MarshalBinary(crc: Checksum, m: Message) returns (data: Bytes)
    ensures data == Encode(crc, m)
  {
    var eventBytes := EventBytes(m.events);
    var b := new Byte[MIN_MESSAGE_SIZE + |m.src| + |m.target| + eventBytes](_ => 0);
    var n := b.Length - 4;
    PutHead(b, m);
    PutEvents(b, HEADER_SIZE + |m.src| + |m.target|, m.events);
    assert b[..n] == Body(m);
    var sum := crc(b[..n]);
    Put(b, n, BigEndian(sum, 4));
    data := b[..];
    assert data == b[..n + 4];
  }

  function Prepend(events: seq<Event>, r: Result<seq<Event>>): Result<seq<Event>> {
    if r.Ok? then Ok(events + r.value) else r
  }

  lemma DecodeNext(n: nat, rest: Bytes, events: seq<Event>)
    requires n > 0 && DecodeEvent(rest).Ok? && EventSize(DecodeEvent(rest).value) <= |rest|
    ensures var e := DecodeEvent(rest).value;
            Prepend(events, DecodeEvents(n, rest)) == Prepend(events + [e], DecodeEvents(n - 1, rest[EventSize(e)..]))
  {
    var e := DecodeEvent(rest).value;
    var tail := DecodeEvents(n - 1, rest[EventSize(e)..]);
    if tail.Ok? {
      assert events + ([e] + tail.value) == (events + [e]) + tail.value;
    }
  }

  method UnmarshalEvents(count: nat, input: Bytes) returns (r: Result<seq<Event>>)
    ensures r == DecodeEvents(count, input)
  {
    var events, rest, i := [], input, 0;
    ghost var all := DecodeEvents(count, input);
    assert all.Ok? ==> [] + all.value == all.value;
    while i < count
      invariant i <= count
      invariant all == Prepend(events, DecodeEvents(count - i, rest))
    {
      var e := DecodeEvent(rest);
      if e.Err? {
        return Err(e.error);
      }
      if e.Panic? || EventSize(e.value) > |rest| {
        return Panic;
      }
      DecodeNext(count - i, rest, events);
      events, rest := events + [e.value], rest[EventSize(e.value)..];
      i := i + 1;
    }
    assert events + [] == events;
    return Ok(events);
  }

  method UnmarshalBinary(crc: Checksum, data: Bytes) returns (r: Result<Message>)
    ensures r == Decode(crc, data)
  {
    if |data| < MIN_MESSAGE_SIZE {
      return Err(ShortMessage);
    }
    if FromBigEndian(data[|data| - 4..]) != crc(data[..|data| - 4]) {
      return Err(BadChecksum);
    }
    if data[0] != VERSION {
      return Err(BadVersion);
    }
    var srcLen := data[1] as nat;
    if srcLen == 0 {
      return Err(NoSource);
    }
    var src := DecodeString(srcLen, data[2..]);
    if !src.Ok? {
      return if src.Err? then Err(src.error) else Panic;
    }
    var s := 2 + srcLen;
    if s + 11 > |data| - 4 {
      return Err(ShortHeader);
    }
    r := UnmarshalRest(data, src.value, s);
  }

  method UnmarshalRest(data: Bytes, src: Bytes, s: nat) returns (r: Result<Message>)
    requires s + 11 <= |data| - 4
    ensures r == DecodeRest(data, src, s)
  {
    if data[s] != PING && data[s] != ACK && data[s] != PING_REQ {
      return Err(UnknownKind);
    }
    Widths();
    FromBigEndianRoundTrip(data[s + 1..s + 9]);
    var period := FromBigEndian(data[s + 1..s + 9]);
    var targetLen := data[s + 9] as nat;
    var target := DecodeString(targetLen, data[s + 10..]);
    if !target.Ok? {
      return if target.Err? then Err(target.error) else Panic;
    }
    if s + 11 + targetLen > |data| - 4 {
      return Panic;
    }
    var events := UnmarshalEvents(data[s + 10 + targetLen], data[s + 11 + targetLen..|data| - 4]);
    match events
    case Err(e) => return Err(e);
    case Panic => return Panic;
    case Ok(list) => return Ok(Message(data[0], data[s], src, period, target.value, list));
  }
}
