/** REQ_USER_UPDATES: what both clients write, event by event, and what Game::handleEvents reads back by walking over the
    payload. */
module UserEvents {
  import opened Wrappers
  import opened Bytes
  import opened Sequences
  import opened Packets
  import opened ClientApi

  datatype Event = Event(id: byte, state: byte)

  /** The value is the bit pattern of a float. */
  datatype EventAxis = EventAxis(id: byte, value: u32)

  const EVENT_SIZE := 2
  const AXIS_SIZE := 5

  function EventBytes(e: Event): (b: seq<byte>)
    ensures |b| == EVENT_SIZE
  {
    [e.id, e.state]
  }

  function AxisBytes(a: EventAxis): (b: seq<byte>)
    ensures |b| == AXIS_SIZE
  {
    [a.id] + ToLE(4, a.value)
  }

  function EventsBytes(es: seq<Event>): (b: seq<byte>)
    ensures |b| == EVENT_SIZE * |es|
  {
    if es == [] then [] else EventBytes(es[0]) + EventsBytes(es[1..])
  }

  function AxesBytes(xs: seq<EventAxis>): (b: seq<byte>)
    ensures |b| == AXIS_SIZE * |xs|
  {
    if xs == [] then [] else AxisBytes(xs[0]) + AxesBytes(xs[1..])
  }

  /** Counts are cast to 16 bits. */
  function UpdatePayload(es: seq<Event>, xs: seq<EventAxis>): (b: seq<byte>)
    ensures |b| == 4 + EVENT_SIZE * |es| + AXIS_SIZE * |xs|
  {
    (ToLE(2, |es|) + EventsBytes(es)) + (ToLE(2, |xs|) + AxesBytes(xs))
  }

  // ---------------------------------------------------------------- the server's walk

  /** `*(Event *)` at an offset. */
  function EventAt(payload: seq<byte>, at: nat): Event
    requires at + EVENT_SIZE <= |payload|
  {
    Event(payload[at], payload[at + 1])
  }

  function AxisAt(payload: seq<byte>, at: nat): EventAxis
    requires at + AXIS_SIZE <= |payload|
  {
    Widths();
    EventAxis(payload[at], FromLE(payload[at + 1..at + 5]))
  }

  function EventsAt(payload: seq<byte>, at: nat, n: nat): (es: seq<Event>)
    requires at + EVENT_SIZE * n <= |payload|
    ensures |es| == n
  {
    seq(n, i requires 0 <= i < n => EventAt(payload, at + EVENT_SIZE * i))
  }

  function AxesAt(payload: seq<byte>, at: nat, n: nat): (xs: seq<EventAxis>)
    requires at + AXIS_SIZE * n <= |payload|
    ensures |xs| == n
  {
    seq(n, i requires 0 <= i < n => AxisAt(payload, at + AXIS_SIZE * i))
  }

  /** None: the source reads outside the payload, which it never checks. */
  function Walked(payload: seq<byte>): Option<(seq<Event>, seq<EventAxis>)> {
    if |payload| < 2 then None else
    var countEvents := FromLE(payload[..2]);
    var axisAt := 2 + EVENT_SIZE * countEvents;
    if axisAt + 2 > |payload| then None else
    var countAxis := FromLE(payload[axisAt..axisAt + 2]);
    if axisAt + 2 + AXIS_SIZE * countAxis > |payload| then None else
    Some((EventsAt(payload, 2, countEvents), AxesAt(payload, axisAt + 2, countAxis)))
  }

  /** The walk by pointer arithmetic; counts first, then the events, then the axis events. */
  method ReadEvents(payload: seq<byte>) returns (r: Option<(seq<Event>, seq<EventAxis>)>)
    ensures r == Walked(payload)
  {
    if |payload| < 2 {
      return None;
    }
    var countEvents := FromLE(payload[..2]);
    var axisAt := 2 + countEvents * EVENT_SIZE;
    if axisAt + 2 > |payload| {
      return None;
    }
    var countAxis := FromLE(payload[axisAt..axisAt + 2]);
    if axisAt + 2 + countAxis * AXIS_SIZE > |payload| {
      return None;
    }
    var data := 2;
    var events := [];
    for i := 0 to countEvents
      invariant events == EventsAt(payload, data, i)
    {
      events := events + [EventAt(payload, data + i * EVENT_SIZE)];
    }
    data := data + countEvents * EVENT_SIZE + 2;
    var axes := [];
    for i := 0 to countAxis
      invariant axes == AxesAt(payload, data, i)
    {
      axes := axes + [AxisAt(payload, data + i * AXIS_SIZE)];
    }
    return Some((events, axes));
  }

  // ---------------------------------------------------------------- the round trip

  lemma {:induction false} EventSlice(es: seq<Event>, i: nat)
    requires i < |es|
    ensures EventsBytes(es)[EVENT_SIZE * i] == es[i].id && EventsBytes(es)[EVENT_SIZE * i + 1] == es[i].state
  {
    var first, rest := EventBytes(es[0]), EventsBytes(es[1..]);
    assert EventsBytes(es) == first + rest;
    if i > 0 {
      EventSlice(es[1..], i - 1);
      assert (first + rest)[EVENT_SIZE * i] == rest[EVENT_SIZE * (i - 1)];
      assert (first + rest)[EVENT_SIZE * i + 1] == rest[EVENT_SIZE * (i - 1) + 1];
    }
  }

  lemma {:induction false} AxisSlice(xs: seq<EventAxis>, i: nat)
    requires i < |xs|
    ensures AxesBytes(xs)[AXIS_SIZE * i..AXIS_SIZE * (i + 1)] == AxisBytes(xs[i])
  {
    var first, rest := AxisBytes(xs[0]), AxesBytes(xs[1..]);
    if i == 0 {
      PartsOfSum(first, rest);
    } else {
      AxisSlice(xs[1..], i - 1);
      ShiftedSlice(first, rest, AXIS_SIZE * (i - 1), AXIS_SIZE * i);
    }
  }

  lemma ShiftedSlice<T>(a: seq<T>, b: seq<T>, lo: nat, hi: nat)
    requires lo <= hi <= |b|
    ensures (a + b)[|a| + lo..|a| + hi] == b[lo..hi]
  {
  }

  lemma SliceOfSlice<T>(p: seq<T>, at: nat, n: nat, lo: nat, hi: nat)
    requires at + n <= |p| && lo <= hi <= n
    ensures p[at..at + n][lo..hi] == p[at + lo..at + hi]
  {
    var s := p[at..at + n];
    assert forall i :: lo <= i < hi ==> s[i] == p[at + i];
    assert forall i :: 0 <= i < hi - lo ==> s[lo..hi][i] == p[at + lo..at + hi][i];
  }

  lemma EventsReadBack(p: seq<byte>, at: nat, es: seq<Event>)
    requires at + EVENT_SIZE * |es| <= |p| && p[at..at + EVENT_SIZE * |es|] == EventsBytes(es)
    ensures EventsAt(p, at, |es|) == es
  {
    hide EventsBytes;
    forall i | 0 <= i < |es|
      ensures EventAt(p, at + EVENT_SIZE * i) == es[i]
    {
      EventSlice(es, i);
    }
  }

  lemma AxesReadBack(p: seq<byte>, at: nat, xs: seq<EventAxis>)
    requires at + AXIS_SIZE * |xs| <= |p| && p[at..at + AXIS_SIZE * |xs|] == AxesBytes(xs)
    ensures AxesAt(p, at, |xs|) == xs
  {
    hide AxesBytes, AxisBytes, AxisAt;
    forall i | 0 <= i < |xs|
      ensures AxisAt(p, at + AXIS_SIZE * i) == xs[i]
    {
      AxisSlice(xs, i);
      SliceOfSlice(p, at, AXIS_SIZE * |xs|, AXIS_SIZE * i, AXIS_SIZE * (i + 1));
      AxisReadBack(p, at + AXIS_SIZE * i, xs[i]);
    }
  }

  lemma AxisReadBack(p: seq<byte>, at: nat, x: EventAxis)
    requires at + AXIS_SIZE <= |p| && p[at..at + AXIS_SIZE] == AxisBytes(x)
    ensures AxisAt(p, at) == x
  {
    var w := p[at..at + AXIS_SIZE];
    assert p[at] == w[0] && p[at + 1..at + 5] == w[1..5] == ToLE(4, x.value);
    ReadBack32(x.value);
  }

  /** The walk reads back everything, in order, whenever both counts fit 16 bits. */
  lemma WalkReadsBack(es: seq<Event>, xs: seq<EventAxis>)
    requires |es| < 0x1_0000 && |xs| < 0x1_0000
    ensures Walked(UpdatePayload(es, xs)) == Some((es, xs))
  {
    hide EventsBytes, AxesBytes, EventsAt, AxesAt;
    var p := UpdatePayload(es, xs);
    var axisAt := 2 + EVENT_SIZE * |es|;
    PayloadParts(es, xs);
    ReadBack16(|es|);
    ReadBack16(|xs|);
    EventsReadBack(p, 2, es);
    AxesReadBack(p, axisAt + 2, xs);
  }

  lemma PayloadParts(es: seq<Event>, xs: seq<EventAxis>)
    ensures var p, axisAt := UpdatePayload(es, xs), 2 + EVENT_SIZE * |es|;
      && p[..2] == ToLE(2, |es|)
      && p[2..axisAt] == EventsBytes(es)
      && p[axisAt..axisAt + 2] == ToLE(2, |xs|)
      && p[axisAt + 2..axisAt + 2 + AXIS_SIZE * |xs|] == AxesBytes(xs)
  {
    hide EventsBytes, AxesBytes, ToLE;
    var n, e, m, x := ToLE(2, |es|), EventsBytes(es), ToLE(2, |xs|), AxesBytes(xs);
    var p := (n + e) + (m + x);
    assert p[..2] == n && p[2..2 + |e|] == e;
    assert p[2 + |e|..4 + |e|] == m && p[4 + |e|..4 + |e| + |x|] == x;
  }

  // ---------------------------------------------------------------- the clients' encoders

  /** The packet the C++ client builds: everything is appended, the length counts modulo 65536. */
  function UpdateFrame(es: seq<Event>, xs: seq<EventAxis>, now: u64): Frame {
    var payload := UpdatePayload(es, xs);
    Frame(Header(HIGH, V_1, REQ_USER_UPDATES, |payload| % 0x1_0000, now), payload)
  }

  /** The packet the C# client builds: what the length does not count is not sent. */
  function CsUpdateFrame(es: seq<Event>, xs: seq<EventAxis>, now: u64): Frame {
    Written(HIGH, REQ_USER_UPDATES, UpdatePayload(es, xs), now)
  }

  /** The server receives this packet as events es and xs. */
  predicate Arrives(p: Frame, es: seq<Event>, xs: seq<EventAxis>) {
    var r := Deserialized(Received(Serialized(p)));
    r.Success? && r.value.header.command == REQ_USER_UPDATES && Walked(r.value.payload) == Some((es, xs))
  }

  predicate FitsReceiveBuffer(es: seq<Event>, xs: seq<EventAxis>) {
    HEADER_SIZE + 4 + EVENT_SIZE * |es| + AXIS_SIZE * |xs| <= RECEIVE_SIZE
  }

  /** End to end: what the server's walk finds in the received buffer is what either client sent, exactly when the
      datagram fits the receive buffer. */
  lemma EventsArrive(es: seq<Event>, xs: seq<EventAxis>, now: u64)
    ensures Arrives(UpdateFrame(es, xs, now), es, xs) <==> FitsReceiveBuffer(es, xs)
    ensures Arrives(CsUpdateFrame(es, xs, now), es, xs) <==> FitsReceiveBuffer(es, xs)
  {
    hide Arrives;
    if FitsReceiveBuffer(es, xs) {
      SmallFrameArrives(UpdateFrame(es, xs, now), es, xs);
      assert UpdateFrame(es, xs, now) == CsUpdateFrame(es, xs, now);
    } else {
      BigFrameLost(UpdateFrame(es, xs, now), es, xs);
      BigFrameLost(CsUpdateFrame(es, xs, now), es, xs);
    }
  }

  lemma SmallFrameArrives(p: Frame, es: seq<Event>, xs: seq<EventAxis>)
    requires Framed(p) && p.header.command == REQ_USER_UPDATES && p.payload == UpdatePayload(es, xs)
    requires FitsReceiveBuffer(es, xs)
    ensures Arrives(p, es, xs)
  {
    hide Walked, UpdatePayload, Received, Serialized, Deserialized;
    ReceivedRoundTrip(p);
    WalkReadsBack(es, xs);
  }

  /** A longer one is rejected, or arrives as a payload too short to hold its events. */
  lemma BigFrameLost(p: Frame, es: seq<Event>, xs: seq<EventAxis>)
    requires !FitsReceiveBuffer(es, xs)
    ensures !Arrives(p, es, xs)
  {
    hide Walked, Serialized, Deserialized;
    var buffer := Received(Serialized(p));
    if Deserialized(buffer).Success? {
      AcceptedFits(buffer);
      WalkFits(Deserialized(buffer).value.payload);
    }
  }

  /** Whatever the walk finds lies inside the payload. */
  lemma WalkFits(payload: seq<byte>)
    ensures Walked(payload).Some? ==>
      4 + EVENT_SIZE * |Walked(payload).value.0| + AXIS_SIZE * |Walked(payload).value.1| <= |payload|
  {
  }

  /** UDPClient::reqUserUpdates; nothing is sent when there is nothing to report. */
  method ReqUserUpdates(es: seq<Event>, xs: seq<EventAxis>, now: u64) returns (sent: Option<seq<byte>>)
    ensures sent.None? <==> es == [] && xs == []
    ensures sent.Some? ==> sent.value == Serialized(UpdateFrame(es, xs, now))
  {
    hide EventsBytes, AxesBytes;
    if es == [] && xs == [] {
      return None;
    }
    var packet := new Packet(HIGH, V_1, REQ_USER_UPDATES, now);
    packet.Append(ToLE(2, |es|));
    NoBytes();
    Empty(ToLE(2, |es|));
    for i := 0 to |es|
      invariant packet.payload == ToLE(2, |es|) + EventsBytes(es[..i])
      invariant Consistent(packet.Value()) && packet.header.(contentLength := 0)
        == Header(HIGH, V_1, REQ_USER_UPDATES, 0, now)
    {
      PutKeepsConsistent(packet.Value(), EventBytes(es[i]));
      packet.Append(EventBytes(es[i]));
      EventsBytesSnoc(es[..i], es[i]);
      assert es[..i] + [es[i]] == es[..i + 1];
      Associative(ToLE(2, |es|), EventsBytes(es[..i]), EventBytes(es[i]));
    }
    assert es[..|es|] == es;
    ghost var front := packet.payload;
    PutKeepsConsistent(packet.Value(), ToLE(2, |xs|));
    packet.Append(ToLE(2, |xs|));
    Empty(front + ToLE(2, |xs|));
    for i := 0 to |xs|
      invariant packet.payload == (front + ToLE(2, |xs|)) + AxesBytes(xs[..i])
      invariant Consistent(packet.Value()) && packet.header.(contentLength := 0)
        == Header(HIGH, V_1, REQ_USER_UPDATES, 0, now)
    {
      ghost var before := packet.payload;
      PutKeepsConsistent(packet.Value(), [xs[i].id]);
      packet.Append([xs[i].id]);
      PutKeepsConsistent(packet.Value(), ToLE(4, xs[i].value));
      packet.Append(ToLE(4, xs[i].value));
      Associative(before, [xs[i].id], ToLE(4, xs[i].value));
      AxesBytesSnoc(xs[..i], xs[i]);
      assert xs[..i] + [xs[i]] == xs[..i + 1];
      Associative(front + ToLE(2, |xs|), AxesBytes(xs[..i]), AxisBytes(xs[i]));
    }
    assert xs[..|xs|] == xs;
    Associative(front, ToLE(2, |xs|), AxesBytes(xs));
    assert packet.payload == UpdatePayload(es, xs);
    var buffer := packet.Serialize();
    assert packet.Value() == UpdateFrame(es, xs, now);
    return Some(buffer);
  }

  lemma NoBytes()
    ensures EventsBytes([]) == [] && AxesBytes([]) == []
  {
  }

  lemma {:induction false} EventsBytesSnoc(es: seq<Event>, e: Event)
    ensures EventsBytes(es + [e]) == EventsBytes(es) + EventBytes(e)
  {
    if es == [] {
      assert [] + [e] == [e];
      Empty(EventBytes(e));
    } else {
      EventsBytesSnoc(es[1..], e);
      HeadOfSum(es, [e]);
      Associative(EventBytes(es[0]), EventsBytes(es[1..]), EventBytes(e));
    }
  }

  lemma {:induction false} AxesBytesSnoc(xs: seq<EventAxis>, x: EventAxis)
    ensures AxesBytes(xs + [x]) == AxesBytes(xs) + AxisBytes(x)
  {
    if xs == [] {
      assert [] + [x] == [x];
      Empty(AxisBytes(x));
    } else {
      AxesBytesSnoc(xs[1..], x);
      HeadOfSum(xs, [x]);
      Associative(AxisBytes(xs[0]), AxesBytes(xs[1..]), AxisBytes(x));
    }
  }

  /** Event.Serialize(List<Event>): two bytes per event, by index. */
  method SerializeEvents(es: seq<Event>) returns (bytes: array<byte>)
    ensures fresh(bytes) && bytes[..] == EventsBytes(es)
  {
    bytes := new byte[EVENT_SIZE * |es|](i => 0);
    for i := 0 to |es|
      invariant bytes[..EVENT_SIZE * i] == EventsBytes(es[..i])
    {
      bytes[i * EVENT_SIZE] := es[i].id;
      bytes[i * EVENT_SIZE + 1] := es[i].state;
      EventsBytesSnoc(es[..i], es[i]);
      assert es[..i] + [es[i]] == es[..i + 1];
      assert bytes[..EVENT_SIZE * (i + 1)] == bytes[..EVENT_SIZE * i] + EventBytes(es[i]);
    }
    assert es[..|es|] == es && bytes[..] == bytes[..EVENT_SIZE * |es|];
  }

  /** Event.Serialize(Dictionary<EventId, float>), in the order the dictionary yields its entries. */
  method SerializeAxes(xs: seq<EventAxis>) returns (bytes: array<byte>)
    ensures fresh(bytes) && bytes[..] == AxesBytes(xs)
  {
    bytes := new byte[AXIS_SIZE * |xs|](i => 0);
    for i := 0 to |xs|
      invariant bytes[..AXIS_SIZE * i] == AxesBytes(xs[..i])
    {
      var value := ToLE(4, xs[i].value);
      bytes[i * AXIS_SIZE] := xs[i].id;
      forall j | 0 <= j < 4 {
        bytes[i * AXIS_SIZE + 1 + j] := value[j];
      }
      AxesBytesSnoc(xs[..i], xs[i]);
      assert xs[..i] + [xs[i]] == xs[..i + 1];
      assert bytes[..AXIS_SIZE * (i + 1)] == bytes[..AXIS_SIZE * i] + AxisBytes(xs[i]);
    }
    assert xs[..|xs|] == xs && bytes[..] == bytes[..AXIS_SIZE * |xs|];
  }

  /** APIClient.ReqUserUpdates */
  method CsReqUserUpdates(es: seq<Event>, xs: seq<EventAxis>, now: u64) returns (packet: array<byte>)
    ensures packet[..] == Serialized(CsUpdateFrame(es, xs, now))
  {
    var eventCount := new byte[2](i requires 0 <= i < 2 => ToLE(2, |es|)[i]);
    var events := SerializeEvents(es);
    var axisCount := new byte[2](i requires 0 <= i < 2 => ToLE(2, |xs|)[i]);
    var axes := SerializeAxes(xs);
    var payload := ConcatByteArrays(eventCount, events);
    payload := ConcatByteArrays(payload, axisCount);
    payload := ConcatByteArrays(payload, axes);
    Associative(ToLE(2, |es|) + EventsBytes(es), ToLE(2, |xs|), AxesBytes(xs));
    assert eventCount[..] == ToLE(2, |es|) && axisCount[..] == ToLE(2, |xs|);
    packet := SerializePacket(HIGH, REQ_USER_UPDATES, payload, now);
  }
}
