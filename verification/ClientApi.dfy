/** Libraries/Flakkari4Unity/Runtime: the C# side of the protocol and the splitter of received datagrams. */
module ClientApi {
  import opened Wrappers
  import opened Bytes
  import opened Sequences
  import opened Packets

  /** Packet.Deserialize. The priority is masked with 0 before its check, so no priority is refused. */
  function Read(packet: seq<byte>): (r: Result<Frame, RejectReason>)
    ensures r.Success? ==> HEADER_SIZE + |r.value.payload| <= |packet|
  {
    if |packet| < HEADER_SIZE then Failure(TooSmall) else
    var h := DecodedHeader(packet);
    if h.api != V_1 then Failure(BadVersion)
    else if h.command >= MAX_COMMAND_ID then Failure(BadCommand)
    else if h.contentLength > |packet| - HEADER_SIZE then Failure(BadLength)
    else Success(Frame(h, packet[HEADER_SIZE..HEADER_SIZE + h.contentLength]))
  }

  /** What the client can read: version 1, a known command, and a stated length. */
  predicate Readable(p: Frame) {
    p.header.api == V_1 && p.header.command < MAX_COMMAND_ID && p.header.contentLength == |p.payload|
  }

  /** A packet at the front of a datagram is read back exactly when it is readable. */
  lemma ReadFirst(p: Frame, rest: seq<byte>)
    ensures Read(Serialized(p) + rest) == Success(p) <==> Readable(p)
  {
    hide EncodedHeader, DecodedHeader;
    Associative(EncodedHeader(p.header), p.payload, rest);
    HeaderRoundTrip(p.header, p.payload + rest);
    if Readable(p) {
      assert (EncodedHeader(p.header) + (p.payload + rest))[12..12 + |p.payload|] == p.payload;
    }
  }

  /** What is read was the front of the datagram. */
  lemma ReadIsFront(data: seq<byte>)
    ensures Read(data).Success? ==>
      var p := Read(data).value;
      Readable(p) && |Serialized(p)| <= |data| && Serialized(p) + data[|Serialized(p)|..] == data
  {
    hide EncodedHeader, DecodedHeader;
    if Read(data).Success? {
      HeaderWriteBack(data);
      var n := DecodedHeader(data).contentLength;
      assert data[..12] + data[12..12 + n] + data[12 + n..] == data;
    }
  }

  /** Client and server accept the same packets, but for priorities above CRITICAL and version 0. */
  lemma ReadAgainstServer(buffer: seq<byte>, p: Frame)
    ensures Read(buffer) == Success(p) && p.header.priority < MAX_PRIORITY <==>
      Deserialized(buffer) == Success(p) && p.header.api == V_1
  {
  }

  // ---------------------------------------------------------------- splitting a datagram

  /** The datagram that carries these packets one after the other. */
  function Joined(ps: seq<Frame>): seq<byte> {
    if ps == [] then [] else Serialized(ps[0]) + Joined(ps[1..])
  }

  /** Reply: reads packet after packet; any exception loses the whole datagram. */
  function Split(data: seq<byte>): Result<seq<Frame>, RejectReason>
    decreases |data|
  {
    if data == [] then Success([]) else
    match Read(data)
    case Failure(e) => Failure(e)
    case Success(p) => After([p], Split(data[HEADER_SIZE + |p.payload|..]))
  }

  function After(done: seq<Frame>, rest: Result<seq<Frame>, RejectReason>): Result<seq<Frame>, RejectReason> {
    match rest
    case Failure(e) => Failure(e)
    case Success(ps) => Success(done + ps)
  }

  ghost predicate AllReadable(ps: seq<Frame>) {
    forall p :: p in ps ==> Readable(p)
  }

  lemma SplitStep(p: Frame, rest: seq<byte>)
    requires Readable(p)
    ensures Split(Serialized(p) + rest) == After([p], Split(rest))
  {
    hide Serialized, Readable, Read;
    ReadFirst(p, rest);
    PartsOfSum(Serialized(p), rest);
  }

  lemma {:induction false} SplitOfJoined(ps: seq<Frame>)
    requires AllReadable(ps)
    ensures Split(Joined(ps)) == Success(ps)
  {
    hide Serialized, Readable, Read;
    if ps != [] {
      assert ps[0] in ps;
      SplitOfJoined(ps[1..]);
      SplitStep(ps[0], Joined(ps[1..]));
      HeadAndTail(ps);
    }
  }

  lemma {:induction false} JoinedOfSplit(data: seq<byte>)
    ensures Split(data).Success? ==> AllReadable(Split(data).value) && Joined(Split(data).value) == data
    decreases |data|
  {
    hide Readable, Read;
    if data != [] && Read(data).Success? {
      var p := Read(data).value;
      var rest := data[HEADER_SIZE + |p.payload|..];
      ReadIsFront(data);
      JoinedOfSplit(rest);
      if Split(rest).Success? {
        HeadOfSum([p], Split(rest).value);
        Empty(Split(rest).value);
      }
    }
  }

  /** The splitter succeeds exactly on concatenations of readable packets, and recovers them in order. */
  lemma SplitIsExact(data: seq<byte>, ps: seq<Frame>)
    ensures Split(data) == Success(ps) <==> data == Joined(ps) && AllReadable(ps)
  {
    JoinedOfSplit(data);
    if AllReadable(ps) {
      SplitOfJoined(ps);
    }
  }

  lemma {:induction false} JoinedAppend(a: seq<Frame>, b: seq<Frame>)
    ensures Joined(a + b) == Joined(a) + Joined(b)
  {
    hide Serialized;
    if a == [] {
      Empty(b);
      Empty(Joined(b));
    } else {
      JoinedAppend(a[1..], b);
      HeadOfSum(a, b);
      Associative(Serialized(a[0]), Joined(a[1..]), Joined(b));
    }
  }

  function Commands(ps: seq<Frame>): seq<byte> {
    seq(|ps|, i requires 0 <= i < |ps| => ps[i].header.command)
  }

  function SequenceNumbers(ps: seq<Frame>): seq<u64> {
    seq(|ps|, i requires 0 <= i < |ps| => ps[i].header.sequence)
  }

  function Payloads(ps: seq<Frame>): seq<seq<byte>> {
    seq(|ps|, i requires 0 <= i < |ps| => ps[i].payload)
  }

  lemma AfterTwice(done: seq<Frame>, p: Frame, rest: Result<seq<Frame>, RejectReason>)
    ensures After(done, After([p], rest)) == After(done + [p], rest)
  {
    if rest.Success? {
      Associative(done, [p], rest.value);
    }
  }

  /** Terminates because every packet is at least a header long. */
  method Reply(receivedData: seq<byte>)
      returns (thrown: Option<RejectReason>, commandIds: seq<byte>, sequenceNumbers: seq<u64>, payloads: seq<seq<byte>>)
    ensures match Split(receivedData)
      case Failure(e) => thrown == Some(e)
      case Success(ps) =>
        && thrown == None && commandIds == Commands(ps)
        && sequenceNumbers == SequenceNumbers(ps) && payloads == Payloads(ps)
  {
    hide Read;
    thrown, commandIds, sequenceNumbers, payloads := None, [], [], [];
    var data := receivedData;
    ghost var done: seq<Frame> := [];
    AfterNothing(Split(data));
    while |data| > 0
      invariant Split(receivedData) == After(done, Split(data))
      invariant commandIds == Commands(done)
      invariant sequenceNumbers == SequenceNumbers(done)
      invariant payloads == Payloads(done)
      decreases |data|
    {
      var r := Read(data);
      if r.Failure? {
        thrown := Some(r.error);
        return;
      }
      ReadIsFront(data);
      AfterTwice(done, r.value, Split(data[HEADER_SIZE + |r.value.payload|..]));
      commandIds := commandIds + [r.value.header.command];
      sequenceNumbers := sequenceNumbers + [r.value.header.sequence];
      payloads := payloads + [r.value.payload];
      done := done + [r.value];
      data := data[HEADER_SIZE + |r.value.payload|..];
    }
    Empty(done);
  }

  lemma AfterNothing(rest: Result<seq<Frame>, RejectReason>)
    ensures After([], rest) == rest
  {
    if rest.Success? {
      Empty(rest.value);
    }
  }

  // ---------------------------------------------------------------- writing packets from C#

  /** Buffer.BlockCopy between distinct arrays. */
  method BlockCopy(src: array<byte>, srcOffset: nat, dst: array<byte>, dstOffset: nat, count: nat)
    requires src != dst && srcOffset + count <= src.Length && dstOffset + count <= dst.Length
    modifies dst
    ensures dst[..] == old(dst[..dstOffset]) + src[srcOffset..srcOffset + count] + old(dst[dstOffset + count..])
  {
    var i := 0;
    while i < count
      invariant 0 <= i <= count
      invariant dst[..] == old(dst[..dstOffset]) + src[srcOffset..srcOffset + i] + old(dst[dstOffset + i..])
    {
      dst[dstOffset + i] := src[srcOffset + i];
      i := i + 1;
    }
  }

  method ConcatByteArrays(first: array<byte>, second: array<byte>) returns (result: array<byte>)
    ensures fresh(result) && result[..] == first[..] + second[..]
  {
    result := new byte[first.Length + second.Length](i => 0);
    BlockCopy(first, 0, result, 0, first.Length);
    BlockCopy(second, 0, result, first.Length, second.Length);
  }

  /** The packet C# builds: the length is cast to ushort and only that many bytes are copied. */
  function Written(priority: nibble, command: byte, payload: seq<byte>, now: u64): Frame {
    var n := |payload| % 0x1_0000;
    Frame(Header(priority, V_1, command, n, now), payload[..n])
  }

  method SerializeHeader(h: Header) returns (bytes: array<byte>)
    ensures fresh(bytes) && bytes[..] == EncodedHeader(h)
  {
    bytes := new byte[HEADER_SIZE](i => 0);
    var length, sequence := ToLE(2, h.contentLength), ToLE(8, h.sequence);
    bytes[0] := h.priority + 16 * (h.api as int);
    bytes[1] := h.command;
    forall i | 0 <= i < 2 {
      bytes[2 + i] := length[i];
    }
    forall i | 0 <= i < 8 {
      bytes[4 + i] := sequence[i];
    }
  }

  method SerializePacket(priority: nibble, command: byte, payload: array<byte>, now: u64) returns (packet: array<byte>)
    ensures fresh(packet) && packet[..] == Serialized(Written(priority, command, payload[..], now))
  {
    var contentLength := payload.Length % 0x1_0000;
    var header := SerializeHeader(Header(priority, V_1, command, contentLength, now));
    packet := new byte[header.Length + contentLength](i => 0);
    BlockCopy(header, 0, packet, 0, header.Length);
    BlockCopy(payload, 0, packet, header.Length, contentLength);
    assert header[..] == header[0..header.Length];
    assert payload[..][..contentLength] == payload[0..contentLength];
  }

  /** The server reads what C# writes exactly when priority and command are in range; nothing is cut below 64 KiB. */
  lemma ServerReadsWritten(priority: nibble, command: byte, payload: seq<byte>, now: u64, trailing: seq<byte>)
    ensures var p := Written(priority, command, payload, now);
      Deserialized(Serialized(p) + trailing) == Success(p) <==> priority < MAX_PRIORITY && command < MAX_COMMAND_ID
    ensures Written(priority, command, payload, now).payload == payload <==> |payload| < 0x1_0000
  {
    SerializeThenDeserialize(Written(priority, command, payload, now), trailing);
  }
}
