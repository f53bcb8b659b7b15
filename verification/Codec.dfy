/** The SWIM wire format (internal/swim/message.go, internal/swim/event.go). */
module Codec {
  type Byte = x: nat | x < 256
  type Bytes = seq<Byte>
  type U32 = x: nat | x < 0x1_0000_0000
  type U64 = x: nat | x < 0x1_0000_0000_0000_0000

  /** The checksum of a packet's contents; its algorithm does not matter here. */
  type Checksum = Bytes -> U32

  datatype Event = Event(kind: Byte, node: Bytes)

  datatype Message = Message(version: Byte, kind: Byte, src: Bytes, period: U64, target: Bytes, events: seq<Event>)

  const VERSION: Byte := 1
  const PING: Byte := 0
  const ACK: Byte := 1
  const PING_REQ: Byte := 2
  const DEAD: Byte := 0
  const ALIVE: Byte := 1

  const HEADER_SIZE := 13
  const MAX_TARGET_SIZE := 47
  const MIN_MESSAGE_SIZE := HEADER_SIZE + 4
  const MAX_BASE_MESSAGE_SIZE := MIN_MESSAGE_SIZE + MAX_TARGET_SIZE + MAX_TARGET_SIZE
  const EVENT_HEADER_SIZE := 2
  const MAX_EVENT_SIZE := EVENT_HEADER_SIZE + MAX_TARGET_SIZE
  const UDP_PAYLOAD := 576 - 20 - 8
  const MAX_PIGGYBACK_EVENTS := (UDP_PAYLOAD - MAX_BASE_MESSAGE_SIZE) / MAX_EVENT_SIZE
  const MAX_MESSAGE_SIZE := MAX_BASE_MESSAGE_SIZE + MAX_PIGGYBACK_EVENTS * MAX_EVENT_SIZE

  // ---------------------------------------------------------------- integers

  function Pow256(k: nat): (p: nat)
    ensures p > 0
  {
    if k == 0 then 1 else 256 * Pow256(k - 1)
  }

  /** The low k bytes of n, most significant first. */
  function BigEndian(n: nat, k: nat): (b: Bytes)
    ensures |b| == k
  {
    if k == 0 then [] else BigEndian(n / 256, k - 1) + [n % 256]
  }

  function FromBigEndian(b: Bytes): nat {
    if b == [] then 0 else 256 * FromBigEndian(b[..|b| - 1]) + b[|b| - 1]
  }

  lemma {:induction false} BigEndianRoundTrip(n: nat, k: nat)
    requires n < Pow256(k)
    ensures FromBigEndian(BigEndian(n, k)) == n
  {
    if k > 0 {
      assert n / 256 < Pow256(k - 1);
      BigEndianRoundTrip(n / 256, k - 1);
      var b := BigEndian(n, k);
      assert b[..|b| - 1] == BigEndian(n / 256, k - 1);
    }
  }

  lemma {:induction false} FromBigEndianRoundTrip(b: Bytes)
    ensures FromBigEndian(b) < Pow256(|b|) && BigEndian(FromBigEndian(b), |b|) == b
  {
    if b != [] {
      var hi := b[..|b| - 1];
      FromBigEndianRoundTrip(hi);
      var n := FromBigEndian(b);
      assert n / 256 == FromBigEndian(hi) && n % 256 == b[|b| - 1];
      assert b == hi + [b[|b| - 1]];
    }
  }

  lemma DivTwice(n: nat, p: nat)
    requires p > 0
    ensures n / 256 / p == n / (256 * p)
  {
    var q, r := n / 256 / p, n / 256 % p;
    assert n / 256 == q * p + r;
    assert n == 256 * (q * p + r) + n % 256 == q * (256 * p) + (256 * r + n % 256);
    assert 0 <= 256 * r + n % 256 < 256 * p;
    DivUnique(n, 256 * p, q, 256 * r + n % 256);
  }

  lemma DivUnique(n: nat, d: nat, q: nat, r: nat)
    requires n == q * d + r && r < d
    ensures n / d == q
  {
    var k := q - n / d;
    assert k * d == q * d - n / d * d;
    MultipleIsFar(k, d);
  }

  lemma MultipleIsFar(k: int, d: int)
    requires d >= 0
    ensures k >= 1 ==> k * d >= d
    ensures k <= -1 ==> k * d <= -d
  {
    assert k >= 1 ==> (k - 1) * d >= 0;
    assert k <= -1 ==> (-k - 1) * d >= 0;
  }

  /** The byte order: the byte at place i has the weight 256^(k - 1 - i). */
  lemma {:induction false} BigEndianAt(n: nat, k: nat, i: nat)
    requires i < k
    ensures BigEndian(n, k)[i] == n / Pow256(k - 1 - i) % 256
  {
    if i < k - 1 {
      BigEndianAt(n / 256, k - 1, i);
      DivTwice(n, Pow256(k - 2 - i));
    }
  }

  /** The first byte weighs most. */
  lemma {:induction false} FromBigEndianHead(b: Bytes)
    requires b != []
    ensures FromBigEndian(b) == b[0] * Pow256(|b| - 1) + FromBigEndian(b[1..])
  {
    if |b| > 1 {
      var hi, rest := b[..|b| - 1], b[1..];
      FromBigEndianHead(hi);
      assert hi[1..] == rest[..|rest| - 1];
      assert 256 * (b[0] * Pow256(|b| - 2)) == b[0] * Pow256(|b| - 1);
    } else {
      assert b[..0] == [] && b[1..] == [];
    }
  }

  lemma Widths()
    ensures Pow256(4) == 0x1_0000_0000 && Pow256(8) == 0x1_0000_0000_0000_0000
  {
    assert Pow256(1) == 256;
    assert Pow256(2) == 0x1_0000;
    assert Pow256(3) == 0x100_0000;
    assert Pow256(4) == 0x1_0000_0000;
    assert Pow256(5) == 0x100_0000_0000;
    assert Pow256(6) == 0x1_0000_0000_0000;
    assert Pow256(7) == 0x100_0000_0000_0000;
  }

  // ---------------------------------------------------------------- encoding

  function EncodeEvent(e: Event): Bytes {
    [e.kind, |e.node| % 256] + e.node
  }

  function EncodeEvents(events: seq<Event>): Bytes {
    if events == [] then [] else EncodeEvent(events[0]) + EncodeEvents(events[1..])
  }

  /** Everything in front of the events: a length is written modulo 256, the bytes in full. */
  function EncodeHead(m: Message): Bytes {
    [VERSION, |m.src| % 256] + m.src + [m.kind] + BigEndian(m.period, 8) + [|m.target| % 256] + m.target
      + [|m.events| % 256]
  }

  function Body(m: Message): Bytes {
    EncodeHead(m) + EncodeEvents(m.events)
  }

  function Seal(crc: Checksum, body: Bytes): Bytes {
    body + BigEndian(crc(body), 4)
  }

  function Encode(crc: Checksum, m: Message): Bytes {
    Seal(crc, Body(m))
  }

  // ---------------------------------------------------------------- decoding

  datatype Error =
    | ShortMessage | BadChecksum | BadVersion | NoSource | LengthMismatch | TooLong
    | ShortHeader | UnknownKind | ShortEvent | UnknownEventKind

  /** Panic is a slice taken out of bounds. */
  datatype Result<T> = Ok(value: T) | Err(error: Error) | Panic

  function DecodeString(n: nat, input: Bytes): Result<Bytes> {
    if n == 0 then Ok([])
    else if n > |input| then Err(LengthMismatch)
    else if n > MAX_TARGET_SIZE then Err(TooLong)
    else Ok(input[..n])
  }

  function DecodeEvent(data: Bytes): Result<Event> {
    if |data| < EVENT_HEADER_SIZE then Err(ShortEvent)
    else if data[0] != DEAD && data[0] != ALIVE then Err(UnknownEventKind)
    else
      match DecodeString(data[1], data[2..])
      case Ok(node) => Ok(Event(data[0], node))
      case Err(e) => Err(e)
      case Panic => Panic
  }

  function EventSize(e: Event): nat {
    EVENT_HEADER_SIZE + |e.node|
  }

  function DecodeEvents(n: nat, input: Bytes): Result<seq<Event>> {
    if n == 0 then Ok([])
    else
      match DecodeEvent(input)
      case Err(e) => Err(e)
      case Panic => Panic
      case Ok(first) =>
        if EventSize(first) > |input| then Panic else
        match DecodeEvents(n - 1, input[EventSize(first)..])
        case Ok(rest) => Ok([first] + rest)
        case Err(e) => Err(e)
        case Panic => Panic
  }

  /** The part of a packet behind the source: s is the index of the kind. */
  function DecodeRest(data: Bytes, src: Bytes, s: nat): Result<Message>
    requires s + 11 <= |data| - 4
  {
    if data[s] != PING && data[s] != ACK && data[s] != PING_REQ then Err(UnknownKind)
    else
      var targetLen := data[s + 9];
      match DecodeString(targetLen, data[s + 10..])
      case Err(e) => Err(e)
      case Panic => Panic
      case Ok(target) =>
        if s + 11 + targetLen > |data| - 4 then Panic
        else
          match DecodeEvents(data[s + 10 + targetLen], data[s + 11 + targetLen..|data| - 4])
          case Err(e) => Err(e)
          case Panic => Panic
          case Ok(events) =>
            Widths();
            FromBigEndianRoundTrip(data[s + 1..s + 9]);
            Ok(Message(data[0], data[s], src, FromBigEndian(data[s + 1..s + 9]), target, events))
  }

  function Decode(crc: Checksum, data: Bytes): Result<Message> {
    if |data| < MIN_MESSAGE_SIZE then Err(ShortMessage)
    else if FromBigEndian(data[|data| - 4..]) != crc(data[..|data| - 4]) then Err(BadChecksum)
    else if data[0] != VERSION then Err(BadVersion)
    else if data[1] == 0 then Err(NoSource)
    else
      match DecodeString(data[1], data[2..])
      case Err(e) => Err(e)
      case Panic => Panic
      case Ok(src) =>
        if 2 + data[1] + 11 > |data| - 4 then Err(ShortHeader)
        else DecodeRest(data, src, 2 + data[1])
  }

  // ---------------------------------------------------------------- round trip

  predicate ValidEvent(e: Event) {
    e.kind <= ALIVE && |e.node| <= MAX_TARGET_SIZE
  }

  predicate ValidMessage(m: Message) {
    && m.version == VERSION && m.kind <= PING_REQ
    && 1 <= |m.src| <= MAX_TARGET_SIZE && |m.target| <= MAX_TARGET_SIZE && |m.events| <= 255
    && forall n | 0 <= n < |m.events| :: ValidEvent(m.events[n])
  }

  lemma DecodeEncodedEvent(e: Event, rest: Bytes)
    requires ValidEvent(e)
    ensures DecodeEvent(EncodeEvent(e) + rest) == Ok(e)
    ensures EventSize(e) == |EncodeEvent(e)| && (EncodeEvent(e) + rest)[EventSize(e)..] == rest
  {
    var data := EncodeEvent(e) + rest;
    assert data[2..] == e.node + rest;
    assert (e.node + rest)[..|e.node|] == e.node;
  }

  lemma {:induction false} DecodeEncodedEvents(events: seq<Event>, rest: Bytes)
    requires forall n | 0 <= n < |events| :: ValidEvent(events[n])
    ensures DecodeEvents(|events|, EncodeEvents(events) + rest) == Ok(events)
  {
    if events != [] {
      var tail := EncodeEvents(events[1..]) + rest;
      assert EncodeEvents(events) + rest == EncodeEvent(events[0]) + tail;
      DecodeEncodedEvent(events[0], tail);
      DecodeEncodedEvents(events[1..], rest);
      assert events == [events[0]] + events[1..];
    }
  }

  /** Where the fields of a head are. */
  lemma HeadFields(m: Message, rest: Bytes)
    ensures var data, s, t := EncodeHead(m) + rest, 2 + |m.src|, |m.target|;
            && |EncodeHead(m)| == s + 11 + t
            && data[0] == VERSION && data[1] == |m.src| % 256 && data[2..s] == m.src
            && data[s] == m.kind && data[s + 1..s + 9] == BigEndian(m.period, 8)
            && data[s + 9] == t % 256 && data[s + 10..s + 10 + t] == m.target
            && data[s + 10 + t] == |m.events| % 256 && data[s + 11 + t..] == rest
  {
    var s, t := 2 + |m.src|, |m.target|;
    var h1 := [VERSION, |m.src| % 256] + m.src;
    var h2 := h1 + [m.kind] + BigEndian(m.period, 8) + [|m.target| % 256];
    assert EncodeHead(m) == h2 + m.target + [|m.events| % 256];
    assert |h1| == s && |h2| == s + 10;
    var data := EncodeHead(m) + rest;
    assert data == h1 + ([m.kind] + BigEndian(m.period, 8) + [|m.target| % 256] + m.target + [|m.events| % 256] + rest);
    assert data == h2 + (m.target + [|m.events| % 256] + rest);
  }

  lemma ValidHeadFields(m: Message, rest: Bytes)
    requires ValidMessage(m)
    ensures var data, s, t := EncodeHead(m) + rest, 2 + |m.src|, |m.target|;
            && |EncodeHead(m)| == s + 11 + t
            && data[0] == VERSION && data[1] == |m.src| && data[2..s] == m.src
            && data[s] == m.kind && data[s + 1..s + 9] == BigEndian(m.period, 8)
            && data[s + 9] == t && data[s + 10..s + 10 + t] == m.target
            && data[s + 10 + t] == |m.events| && data[s + 11 + t..] == rest
  {
    HeadFields(m, rest);
  }

  /** The fields of m stand where the decoder looks for them. */
  ghost predicate FieldsAt(data: Bytes, m: Message, s: nat) {
    && s + 11 + |m.target| <= |data| - 4
    && data[0] == m.version && data[s] == m.kind && data[s + 1..s + 9] == BigEndian(m.period, 8)
    && data[s + 9] == |m.target| && data[s + 10..s + 10 + |m.target|] == m.target
    && data[s + 10 + |m.target|] == |m.events|
  }

  lemma DecodeFields(data: Bytes, m: Message, s: nat, extra: Bytes)
    requires ValidMessage(m) && FieldsAt(data, m, s)
    requires data[s + 11 + |m.target|..|data| - 4] == EncodeEvents(m.events) + extra
    ensures DecodeRest(data, m.src, s) == Ok(m)
  {
    assert data[s + 10..][..|m.target|] == data[s + 10..s + 10 + |m.target|];
    DecodeEncodedEvents(m.events, extra);
    Widths();
    BigEndianRoundTrip(m.period, 8);
  }

  /** What stands behind the source decodes to the rest of the message. */
  lemma DecodeRestOfBody(data: Bytes, m: Message, extra: Bytes)
    requires ValidMessage(m) && |data| >= 4 && data[..|data| - 4] == Body(m) + extra
    ensures data[0] == VERSION && data[1] == |m.src| && data[2..][..|m.src|] == m.src
    ensures 2 + |m.src| + 11 <= |data| - 4 && DecodeRest(data, m.src, 2 + |m.src|) == Ok(m)
  {
    var s, t := 2 + |m.src|, |m.target|;
    var behind := EncodeEvents(m.events) + extra + data[|data| - 4..];
    assert data == EncodeHead(m) + behind by {
      assert data == data[..|data| - 4] + data[|data| - 4..];
    }
    ValidHeadFields(m, behind);
    assert data[2..][..|m.src|] == data[2..s];
    assert data[s + 11 + t..|data| - 4] == EncodeEvents(m.events) + extra by {
      assert data[s + 11 + t..|data| - 4] == behind[..|behind| - 4];
    }
    DecodeFields(data, m, s, extra);
  }

  lemma SealParts(crc: Checksum, body: Bytes)
    ensures var data := Seal(crc, body);
            data[..|data| - 4] == body && FromBigEndian(data[|data| - 4..]) == crc(body)
  {
    var data := Seal(crc, body);
    assert data[..|data| - 4] == body && data[|data| - 4..] == BigEndian(crc(body), 4);
    Widths();
    BigEndianRoundTrip(crc(body), 4);
  }

  /** A sealed body decodes to its message, whatever bytes follow the last event. */
  lemma DecodeSealed(crc: Checksum, m: Message, extra: Bytes)
    requires ValidMessage(m)
    ensures Decode(crc, Seal(crc, Body(m) + extra)) == Ok(m)
  {
    var data := Seal(crc, Body(m) + extra);
    SealParts(crc, Body(m) + extra);
    DecodeRestOfBody(data, m, extra);
  }

  lemma DecodedString(n: nat, input: Bytes)
    requires DecodeString(n, input).Ok?
    ensures n <= |input| && n <= MAX_TARGET_SIZE && DecodeString(n, input).value == input[..n]
  {}

  lemma {:induction false} DecodedEvents(n: nat, input: Bytes)
    requires DecodeEvents(n, input).Ok?
    ensures var events := DecodeEvents(n, input).value;
            && |events| == n && (forall j | 0 <= j < n :: ValidEvent(events[j]))
            && EncodeEvents(events) <= input
  {
    if n > 0 {
      var first := DecodeEvent(input).value;
      var rest := input[EventSize(first)..];
      DecodedString(input[1], input[2..]);
      assert EncodeEvent(first) == input[..EventSize(first)];
      DecodedEvents(n - 1, rest);
      var events := DecodeEvents(n, input).value;
      assert events[1..] == DecodeEvents(n - 1, rest).value;
      assert input == EncodeEvent(first) + rest;
    }
  }

  /** The head of an accepted packet is the head of its message. */
  lemma DecodedFields(data: Bytes, src: Bytes, s: nat)
    requires s + 11 <= |data| - 4 && data[0] == VERSION && 1 <= |src| <= MAX_TARGET_SIZE && DecodeRest(data, src, s).Ok?
    ensures var m := DecodeRest(data, src, s).value;
            && ValidMessage(m) && m.src == src && FieldsAt(data, m, s)
            && EncodeEvents(m.events) <= data[s + 11 + |m.target|..|data| - 4]
  {
    var m, t := DecodeRest(data, src, s).value, data[s + 9];
    DecodedString(t, data[s + 10..]);
    assert data[s + 10..][..t] == data[s + 10..s + 10 + t];
    DecodedEvents(data[s + 10 + t], data[s + 11 + t..|data| - 4]);
    FromBigEndianRoundTrip(data[s + 1..s + 9]);
  }

  lemma HeadIsPrefix(data: Bytes, m: Message, s: nat)
    requires ValidMessage(m) && FieldsAt(data, m, s) && s == 2 + |m.src| && data[1] == |m.src| && data[2..s] == m.src
    ensures EncodeHead(m) == data[..s + 11 + |m.target|]
  {
    var t := |m.target|;
    assert data[..s] == [data[0], data[1]] + data[2..s];
    assert data[..s + 10] == data[..s] + [data[s]] + data[s + 1..s + 9] + [data[s + 9]];
    assert data[..s + 11 + t] == data[..s + 10] + data[s + 10..s + 10 + t] + [data[s + 10 + t]];
  }

  lemma BodyAndExtra(body: Bytes, m: Message, from: nat) returns (extra: Bytes)
    requires from <= |body| && EncodeHead(m) == body[..from] && EncodeEvents(m.events) <= body[from..]
    ensures body == Body(m) + extra
  {
    extra := body[from..][|EncodeEvents(m.events)|..];
    assert body[from..] == EncodeEvents(m.events) + extra;
    assert body == body[..from] + body[from..];
  }

  /** An accepted packet is the sealed body of its message, with whatever follows the last event. */
  lemma AcceptedShape(crc: Checksum, data: Bytes) returns (extra: Bytes)
    requires Decode(crc, data).Ok?
    ensures var m := Decode(crc, data).value; ValidMessage(m) && data == Seal(crc, Body(m) + extra)
  {
    var m, s := Decode(crc, data).value, 2 + data[1] as nat;
    var body, from := data[..|data| - 4], s + 11 + |m.target|;
    assert ValidMessage(m) && from <= |body| && EncodeHead(m) == data[..from]
           && EncodeEvents(m.events) <= data[from..|data| - 4] by {
      DecodedString(data[1], data[2..]);
      assert data[2..][..data[1]] == data[2..s];
      DecodedFields(data, data[2..s], s);
      HeadIsPrefix(data, m, s);
    }
    assert data[..from] == body[..from] && data[from..|data| - 4] == body[from..];
    extra := BodyAndExtra(body, m, from);
    SealOf(crc, data);
  }

  lemma SealOf(crc: Checksum, data: Bytes)
    requires |data| >= 4 && FromBigEndian(data[|data| - 4..]) == crc(data[..|data| - 4])
    ensures data == Seal(crc, data[..|data| - 4])
  {
    FromBigEndianRoundTrip(data[|data| - 4..]);
    assert data == data[..|data| - 4] + data[|data| - 4..];
  }

  /** A packet is accepted exactly when it is the sealed body of a valid message, possibly with bytes
      behind the last event; and it is accepted as that message. */
  lemma AcceptedIff(crc: Checksum, data: Bytes, m: Message)
    ensures Decode(crc, data) == Ok(m) <==> ValidMessage(m) && exists extra :: data == Seal(crc, Body(m) + extra)
  {
    if Decode(crc, data) == Ok(m) {
      var extra := AcceptedShape(crc, data);
    }
    if ValidMessage(m) && exists extra :: data == Seal(crc, Body(m) + extra) {
      var extra :| data == Seal(crc, Body(m) + extra);
      DecodeSealed(crc, m, extra);
    }
  }

  /** A message decodes to itself exactly when it keeps the limits of the format. */
  lemma RoundTrip(crc: Checksum, m: Message)
    ensures Decode(crc, Encode(crc, m)) == Ok(m) <==> ValidMessage(m)
  {
    AcceptedIff(crc, Encode(crc, m), m);
    if ValidMessage(m) {
      assert Body(m) + [] == Body(m);
      DecodeSealed(crc, m, []);
    }
  }

  /** Re-encoding what was decoded gives a packet of the same message, and gives the same packet
      exactly when nothing followed the last event. */
  lemma Reencode(crc: Checksum, data: Bytes, m: Message)
    requires Decode(crc, data) == Ok(m)
    ensures Decode(crc, Encode(crc, m)) == Ok(m)
    ensures Encode(crc, m) == data <==> |Encode(crc, m)| == |data|
  {
    AcceptedIff(crc, data, m);
    RoundTrip(crc, m);
    var extra :| data == Seal(crc, Body(m) + extra);
    if |Encode(crc, m)| == |data| {
      assert Body(m) + extra == Body(m);
    }
  }

  // ---------------------------------------------------------------- totality

  /** The length byte of the target points past the event count of the packet. */
  predicate TargetOverruns(data: Bytes) {
    && |data| >= MIN_MESSAGE_SIZE && 2 + data[1] + 11 <= |data| - 4
    && var s := 2 + data[1] as nat;
       data[s + 9] <= MAX_TARGET_SIZE && s + 10 + data[s + 9] <= |data| < s + 15 + data[s + 9]
  }

  lemma {:induction false} DecodeEventsTotal(n: nat, input: Bytes)
    ensures !DecodeEvents(n, input).Panic?
  {
    if n > 0 && DecodeEvent(input).Ok? {
      var first := DecodeEvent(input).value;
      DecodedString(input[1], input[2..]);
      DecodeEventsTotal(n - 1, input[EventSize(first)..]);
    }
  }

  /** The decoder takes a slice out of bounds exactly on packets that pass every check up to the target
      and whose target length runs into the event count and checksum. */
  lemma PanicsIff(crc: Checksum, data: Bytes)
    ensures Decode(crc, data).Panic? <==>
            && TargetOverruns(data)
            && FromBigEndian(data[|data| - 4..]) == crc(data[..|data| - 4])
            && data[0] == VERSION && 1 <= data[1] <= MAX_TARGET_SIZE && data[2 + data[1]] <= PING_REQ
  {
    if |data| >= MIN_MESSAGE_SIZE && 2 + data[1] + 11 <= |data| - 4 {
      var s := 2 + data[1] as nat;
      if s + 11 + data[s + 9] <= |data| - 4 {
        DecodeEventsTotal(data[s + 10 + data[s + 9]], data[s + 11 + data[s + 9]..|data| - 4]);
      }
    }
  }

  /** Such packets exist for every checksum. */
  lemma OverrunExists(crc: Checksum)
    ensures Decode(crc, Seal(crc, [VERSION, 1, 120, PING, 0, 0, 0, 0, 0, 0, 0, 0, 5, 0])).Panic?
  {
    var body: Bytes := [VERSION, 1, 120, PING, 0, 0, 0, 0, 0, 0, 0, 0, 5, 0];
    SealParts(crc, body);
    var data := Seal(crc, body);
    assert forall j | 0 <= j < 14 :: data[j] == body[j];
    PanicsIff(crc, data);
  }

  // ---------------------------------------------------------------- size

  lemma {:induction false} EventsFit(events: seq<Event>)
    requires forall n | 0 <= n < |events| :: ValidEvent(events[n])
    ensures |EncodeEvents(events)| <= |events| * MAX_EVENT_SIZE
  {
    if events != [] {
      EventsFit(events[1..]);
    }
  }

  lemma EncodedSize(crc: Checksum, m: Message)
    ensures |Encode(crc, m)| == MIN_MESSAGE_SIZE + |m.src| + |m.target| + |EncodeEvents(m.events)|
  {}

  /** With no more than the piggyback limit of events, a message fits its buffer and the datagram every
      IPv4 host accepts (section 3.1 of RFC 791). */
  lemma MessageFits(crc: Checksum, m: Message)
    requires ValidMessage(m) && |m.events| <= MAX_PIGGYBACK_EVENTS
    ensures |Encode(crc, m)| <= MAX_MESSAGE_SIZE <= UDP_PAYLOAD
  {
    EventsFit(m.events);
    EncodedSize(crc, m);
  }

  function MaxAddress(): Bytes {
    seq(MAX_TARGET_SIZE, _ => 0)
  }

  /** The limit is the largest possible: one event more and some valid message no longer fits. */
  lemma LimitIsTight(crc: Checksum)
    ensures exists m :: ValidMessage(m) && |m.events| == MAX_PIGGYBACK_EVENTS + 1 && |Encode(crc, m)| > UDP_PAYLOAD
  {
    var a := MaxAddress();
    var events := seq(MAX_PIGGYBACK_EVENTS + 1, _ => Event(DEAD, a));
    var m := Message(VERSION, PING_REQ, a, 0, a, events);
    FullEvents(events);
    EncodedSize(crc, m);
  }

  lemma {:induction false} FullEvents(events: seq<Event>)
    requires forall n | 0 <= n < |events| :: |events[n].node| == MAX_TARGET_SIZE
    ensures |EncodeEvents(events)| == |events| * MAX_EVENT_SIZE
  {
    if events != [] {
      FullEvents(events[1..]);
    }
  }

  // ---------------------------------------------------------------- layout

  /** Where event i starts behind the event count. */
  function EventOffset(events: seq<Event>, i: nat): nat
    requires i <= |events|
  {
    if i == 0 then 0 else EventOffset(events, i - 1) + 2 + |events[i - 1].node|
  }

  lemma {:induction false} EventOffsetTail(events: seq<Event>, i: nat)
    requires 0 < i <= |events|
    ensures EventOffset(events, i) == 2 + |events[0].node| + EventOffset(events[1..], i - 1)
  {
    if i > 1 {
      EventOffsetTail(events, i - 1);
    }
  }

  /** An event is its kind, the length of its address and the address, one event right after the other. */
  lemma {:induction false} EventAt(events: seq<Event>, i: nat)
    requires i < |events|
    ensures var data, o, e := EncodeEvents(events), EventOffset(events, i), events[i];
            && o + 2 + |e.node| <= |data|
            && data[o] == e.kind && data[o + 1] == |e.node| % 256 && data[o + 2..o + 2 + |e.node|] == e.node
  {
    var first, rest := EncodeEvent(events[0]), EncodeEvents(events[1..]);
    if i > 0 {
      EventAt(events[1..], i - 1);
      EventOffsetTail(events, i);
      var o, n := EventOffset(events[1..], i - 1), |events[i].node|;
      assert (first + rest)[|first| + o + 2..|first| + o + 2 + n] == rest[o + 2..o + 2 + n];
    }
  }

  /** The packet of every message: its head, its events and the checksum of both. */
  lemma PacketParts(crc: Checksum, m: Message)
    ensures Encode(crc, m) == EncodeHead(m) + (EncodeEvents(m.events) + BigEndian(crc(Body(m)), 4))
  {}

  /** The head, byte by byte, whatever follows: version, source, kind, period with the highest byte first,
      target and event count. */
  lemma HeadLayout(m: Message, rest: Bytes, i: nat)
    requires i < 8
    ensures var data, s, t := EncodeHead(m) + rest, 2 + |m.src|, |m.target|;
            && |data| == s + 11 + t + |rest|
            && data[0] == 1 && data[1] == |m.src| % 256 && data[2..s] == m.src && data[s] == m.kind
            && data[s + 1 + i] == m.period / Pow256(7 - i) % 256
            && data[s + 9] == t % 256 && data[s + 10..s + 10 + t] == m.target
            && data[s + 10 + t] == |m.events| % 256 && data[s + 11 + t..] == rest
  {
    HeadFields(m, rest);
    BigEndianAt(m.period, 8, i);
    var data, s := EncodeHead(m) + rest, 2 + |m.src|;
    assert data[s + 1 + i] == data[s + 1..s + 9][i];
  }

  /** The last four bytes are the checksum of all before them, with the highest byte first. */
  lemma SealLayout(crc: Checksum, body: Bytes, i: nat)
    requires i < 4
    ensures var data := Seal(crc, body);
            && |data| == |body| + 4 && data[..|body|] == body
            && data[|body| + i] == crc(body) / Pow256(3 - i) % 256
  {
    BigEndianAt(crc(body), 4, i);
    assert Seal(crc, body)[..|body|] == body;
  }

  /** The limits the source computes: the longest address, eight events, 503 bytes. */
  lemma Limits()
    ensures MAX_TARGET_SIZE == |"[ffff:ffff:ffff:ffff:ffff:ffff:ffff:ffff]:65535"|
    ensures MAX_PIGGYBACK_EVENTS == 8 && MAX_MESSAGE_SIZE == 503 && UDP_PAYLOAD == 548
  {}

  // ---------------------------------------------------------------- faults

  lemma {:induction false} EventFaults(n: nat, input: Bytes)
    ensures DecodeEvents(n, input).Err? ==>
              DecodeEvents(n, input).error in {ShortEvent, UnknownEventKind, LengthMismatch, TooLong}
  {
    if n > 0 && DecodeEvent(input).Ok? {
      var size := EventSize(DecodeEvent(input).value);
      if size <= |input| {
        EventFaults(n - 1, input[size..]);
      }
    }
  }

  /** The packet is long enough and carries the checksum of its contents. */
  predicate Intact(crc: Checksum, data: Bytes) {
    |data| >= 17 && FromBigEndian(data[|data| - 4..]) == crc(data[..|data| - 4])
  }

  /** The first faults, in the order they are looked for: length, checksum, version, missing source. */
  lemma EarlyFaults(crc: Checksum, data: Bytes)
    ensures Decode(crc, data) == Err(ShortMessage) <==> |data| < 17
    ensures Decode(crc, data) == Err(BadChecksum) <==> |data| >= 17 && !Intact(crc, data)
    ensures Decode(crc, data) == Err(BadVersion) <==> Intact(crc, data) && data[0] != 1
    ensures Decode(crc, data) == Err(NoSource) <==> Intact(crc, data) && data[0] == 1 && data[1] == 0
  {
    if |data| >= 17 && data[1] as nat <= |data| - 17 {
      RestFaults(data, data[2..][..data[1]], 2 + data[1] as nat);
    }
  }

  /** And then: a source longer than the packet or than an address, a header cut off, an unknown kind. */
  lemma LateFaults(crc: Checksum, data: Bytes)
    requires Intact(crc, data) && data[0] == 1 && data[1] > 0
    ensures data[1] > |data| - 2 ==> Decode(crc, data) == Err(LengthMismatch)
    ensures 47 < data[1] <= |data| - 2 ==> Decode(crc, data) == Err(TooLong)
    ensures Decode(crc, data) == Err(ShortHeader) <==> data[1] <= 47 && |data| - 17 < data[1] <= |data| - 2
    ensures Decode(crc, data) == Err(UnknownKind) <==> data[1] <= 47 && data[1] <= |data| - 17 && data[2 + data[1]] > 2
  {
    if |data| >= 17 && data[1] as nat <= |data| - 17 {
      RestFaults(data, data[2..][..data[1]], 2 + data[1] as nat);
    }
  }

  /** What stands behind the source is refused for its kind or for one of the faults of strings and events. */
  lemma RestFaults(data: Bytes, src: Bytes, s: nat)
    requires s + 11 <= |data| - 4
    ensures var r := DecodeRest(data, src, s);
            && (r == Err(UnknownKind) <==> data[s] > 2)
            && (r.Err? ==> r.error in {UnknownKind, ShortEvent, UnknownEventKind, LengthMismatch, TooLong})
  {
    if s + 11 + data[s + 9] <= |data| - 4 {
      EventFaults(data[s + 10 + data[s + 9]], data[s + 11 + data[s + 9]..|data| - 4]);
    }
  }
}
