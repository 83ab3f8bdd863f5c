/** Flakkari/Protocol: the 12-byte header, packets as values (Frame), and the mutable Packet. */
module Packets {
  import opened Wrappers
  import opened Bytes

  const HEADER_SIZE := 12
  const MAX_PRIORITY := 4
  const MAX_VERSION := 2
  const MAX_COMMAND_ID := 60

  const REQ_CONNECT: byte := 0
  const REP_CONNECT: byte := 1
  const REQ_DISCONNECT: byte := 2
  const REQ_HEARTBEAT: byte := 4
  const REP_HEARTBEAT: byte := 5
  const REQ_ENTITY_SPAWN: byte := 20
  const REQ_ENTITY_UPDATE: byte := 22
  const REQ_ENTITY_DESTROY: byte := 24
  const REQ_ENTITY_MOVED: byte := 26
  const REQ_USER_UPDATES: byte := 30

  const V_1: nibble := 1
  const LOW: nibble := 0
  const HIGH: nibble := 2

  /** Two 4-bit fields share the first byte of the header. */
  type nibble = x: int | 0 <= x < 16

  datatype Header = Header(priority: nibble, api: nibble, command: byte, contentLength: u16, sequence: u64)

  /** A packet as a value: what is queued, copied and compared. */
  datatype Frame = Frame(header: Header, payload: seq<byte>)

  datatype RejectReason = TooSmall | BadPriority | BadVersion | BadCommand | BadLength

  function EncodedHeader(h: Header): (s: seq<byte>)
    ensures |s| == HEADER_SIZE
  {
    var first: byte := h.priority + 16 * (h.api as int);
    [first, h.command] + ToLE(2, h.contentLength) + ToLE(8, h.sequence)
  }

  function DecodedHeader(s: seq<byte>): Header
    requires |s| >= HEADER_SIZE
  {
    Widths();
    Header(s[0] % 16, s[0] / 16, s[1], FromLE(s[2..4]), FromLE(s[4..12]))
  }

  /** Byte by byte: priority in the low half of the first, version in the high one, the command, the length, the
      sequence number. */
  lemma HeaderLayout(h: Header)
    ensures var s := EncodedHeader(h);
      && s[0] % 16 == h.priority && s[0] / 16 == h.api && s[1] == h.command
      && s[2..4] == ToLE(2, h.contentLength) && s[4..12] == ToLE(8, h.sequence)
  {
  }

  lemma HeaderRoundTrip(h: Header, rest: seq<byte>)
    ensures DecodedHeader(EncodedHeader(h) + rest) == h
  {
    var s := EncodedHeader(h) + rest;
    assert s[2..4] == ToLE(2, h.contentLength) && s[4..12] == ToLE(8, h.sequence);
    ReadBack16(h.contentLength);
    ReadBack64(h.sequence);
  }

  lemma HeaderWriteBack(s: seq<byte>)
    requires |s| >= HEADER_SIZE
    ensures EncodedHeader(DecodedHeader(s)) == s[..12]
  {
    WriteBack(s[2..4]);
    WriteBack(s[4..12]);
    assert s[..12] == [s[0], s[1]] + s[2..4] + s[4..12];
  }

  function Serialized(p: Frame): (s: seq<byte>)
    ensures |s| == HEADER_SIZE + |p.payload|
  {
    EncodedHeader(p.header) + p.payload
  }

  /** The checks of `deserialize` in its order. */
  function Deserialized(buffer: seq<byte>): Result<Frame, RejectReason> {
    if |buffer| < HEADER_SIZE then Failure(TooSmall) else
    var h := DecodedHeader(buffer);
    if h.priority >= MAX_PRIORITY then Failure(BadPriority)
    else if h.api >= MAX_VERSION then Failure(BadVersion)
    else if h.command >= MAX_COMMAND_ID then Failure(BadCommand)
    else if h.contentLength > |buffer| - HEADER_SIZE then Failure(BadLength)
    else Success(Frame(h, buffer[HEADER_SIZE..HEADER_SIZE + h.contentLength]))
  }

  predicate InRange(h: Header) {
    h.priority < MAX_PRIORITY && h.api < MAX_VERSION && h.command < MAX_COMMAND_ID
  }

  predicate Framed(p: Frame) {
    InRange(p.header) && p.header.contentLength == |p.payload|
  }

  /** A packet followed by anything is read back exactly when its header is in range and states its length. */
  lemma SerializeThenDeserialize(p: Frame, trailing: seq<byte>)
    ensures Deserialized(Serialized(p) + trailing) == Success(p) <==> Framed(p)
  {
    var s := Serialized(p) + trailing;
    assert s == EncodedHeader(p.header) + (p.payload + trailing);
    HeaderRoundTrip(p.header, p.payload + trailing);
    if Framed(p) {
      assert s[12..12 + |p.payload|] == p.payload;
    }
  }

  /** Whatever is accepted was the serialisation of what it was read as, and the rest is ignored. */
  lemma DeserializeThenSerialize(buffer: seq<byte>)
    ensures Deserialized(buffer).Success? ==>
      var p := Deserialized(buffer).value;
      Framed(p) && Serialized(p) <= buffer
  {
    if Deserialized(buffer).Success? {
      HeaderWriteBack(buffer);
      var n := DecodedHeader(buffer).contentLength;
      assert buffer[..12] + buffer[12..12 + n] == buffer[..12 + n];
    }
  }

  /** A datagram as `receiveFrom` hands it on: cut or zero-padded to 4096 bytes. */
  const RECEIVE_SIZE := 4096

  function Received(datagram: seq<byte>): (buffer: seq<byte>)
    ensures |buffer| == RECEIVE_SIZE
  {
    if |datagram| >= RECEIVE_SIZE then datagram[..RECEIVE_SIZE]
    else datagram + seq(RECEIVE_SIZE - |datagram|, i => 0)
  }

  /** Exactly the framed packets of at most 4096 bytes arrive. */
  lemma ReceivedRoundTrip(p: Frame)
    ensures Deserialized(Received(Serialized(p))) == Success(p) <==>
      Framed(p) && HEADER_SIZE + |p.payload| <= RECEIVE_SIZE
  {
    var s := Serialized(p);
    if |s| <= RECEIVE_SIZE {
      var padding: seq<byte> := seq(RECEIVE_SIZE - |s|, i => 0);
      assert Received(s) == s + padding;
      SerializeThenDeserialize(p, padding);
    } else {
      var kept := p.payload[..RECEIVE_SIZE - HEADER_SIZE];
      assert Received(s) == EncodedHeader(p.header) + kept;
      HeaderRoundTrip(p.header, kept);
    }
  }

  /** The header survives even where the payload is cut. */
  lemma ReceivedHeader(p: Frame)
    ensures DecodedHeader(Received(Serialized(p))) == p.header
  {
    var s := Serialized(p);
    if |s| <= RECEIVE_SIZE {
      var padding: seq<byte> := seq(RECEIVE_SIZE - |s|, i => 0);
      assert Received(s) == EncodedHeader(p.header) + (p.payload + padding);
      HeaderRoundTrip(p.header, p.payload + padding);
    } else {
      var kept := p.payload[..RECEIVE_SIZE - HEADER_SIZE];
      assert Received(s) == EncodedHeader(p.header) + kept;
      HeaderRoundTrip(p.header, kept);
    }
  }

  // ---------------------------------------------------------------- payload operations

  /** How an extraction ends: a value, the source's exception, or a read it does not check. */
  datatype Extraction<+T> = Got(value: T, rest: Frame) | TooShort | OutOfBounds

  function Plus(length: u16, n: nat): u16 {
    (length + n % 0x1_0000) % 0x1_0000
  }

  function Minus(length: u16, n: nat): u16 {
    (length - n % 0x1_0000) % 0x1_0000
  }

  /** `packet << data` for the object representation of data. */
  function Put(p: Frame, data: seq<byte>): Frame {
    Frame(p.header.(contentLength := Plus(p.header.contentLength, |data|)), p.payload + data)
  }

  /** `packet >> data` for a type of size n. */
  function Take(p: Frame, n: nat): Extraction<seq<byte>> {
    if |p.payload| < n then TooShort
    else Got(p.payload[..n], Frame(p.header.(contentLength := Minus(p.header.contentLength, n)), p.payload[n..]))
  }

  /** The length prefix is the low 32 bits of the size, as a C++ int. */
  function EncodedString(s: text): (e: seq<byte>)
    ensures |e| == 4 + |s|
  {
    ToLE(4, |s|) + s
  }

  function PutString(p: Frame, s: text): Frame {
    Frame(p.header.(contentLength := Plus(p.header.contentLength, |s| + 4)), p.payload + EncodedString(s))
  }

  const INT_MAX := 0x7FFF_FFFF

  /** The prefix is read as a signed int and never compared with what is left: reading past it is OutOfBounds. */
  function TakeString(p: Frame): Extraction<text> {
    if |p.payload| < 4 then TooShort else
    var n := FromLE(p.payload[..4]);
    if n > INT_MAX || 4 + n > |p.payload| then OutOfBounds
    else Got(p.payload[4..4 + n],
             Frame(p.header.(contentLength := Minus(p.header.contentLength, n + 4)), p.payload[4 + n..]))
  }

  /** What contentLength means: the payload size modulo 65536. */
  predicate Consistent(p: Frame) {
    p.header.contentLength == |p.payload| % 0x1_0000
  }

  lemma AcceptedFits(buffer: seq<byte>)
    ensures Deserialized(buffer).Success? ==>
      var p := Deserialized(buffer).value;
      p.header.api < MAX_VERSION && HEADER_SIZE + |p.payload| <= |buffer|
  {
  }

  lemma Modulo(x: int, k: int)
    ensures (x + 0x1_0000 * k) % 0x1_0000 == x % 0x1_0000
  {
  }

  lemma ModularLength(size: nat, n: nat)
    ensures Plus(size % 0x1_0000, n) == (size + n) % 0x1_0000
    ensures n <= size ==> Minus(size % 0x1_0000, n) == (size - n) % 0x1_0000
  {
    Modulo(size % 0x1_0000 + n % 0x1_0000, size / 0x1_0000 + n / 0x1_0000);
    Modulo(size % 0x1_0000 - n % 0x1_0000, size / 0x1_0000 - n / 0x1_0000);
  }

  lemma PutKeepsConsistent(p: Frame, data: seq<byte>)
    requires Consistent(p)
    ensures Consistent(Put(p, data))
  {
    ModularLength(|p.payload|, |data|);
  }

  lemma PutStringKeepsConsistent(p: Frame, s: text)
    requires Consistent(p)
    ensures Consistent(PutString(p, s))
  {
    ModularLength(|p.payload|, |s| + 4);
  }

  lemma TakeKeepsConsistent(p: Frame, n: nat)
    requires Consistent(p)
    ensures Take(p, n).Got? ==> Consistent(Take(p, n).rest)
    ensures TakeString(p).Got? ==> Consistent(TakeString(p).rest)
  {
    ModularLength(|p.payload|, n);
    if TakeString(p).Got? {
      ModularLength(|p.payload|, FromLE(p.payload[..4]) + 4);
    }
  }

  /** Flakkari/Protocol/Packet.hpp's struct: operators change the payload and the header in place. */
  class Packet {
    var header: Header
    var payload: seq<byte>

    constructor (priority: nibble, api: nibble, command: byte, sequence: u64)
      ensures Value() == Frame(Header(priority, api, command, 0, sequence), [])
    {
      header := Header(priority, api, command, 0, sequence);
      payload := [];
    }

    function Value(): Frame
      reads this
    {
      Frame(header, payload)
    }

    method Append(data: seq<byte>)
      modifies this
      ensures Value() == Put(old(Value()), data)
    {
      payload := payload + data;
      header := header.(contentLength := Plus(header.contentLength, |data|));
    }

    method Extract(n: nat) returns (r: Extraction<seq<byte>>)
      modifies this
      ensures r == Take(old(Value()), n)
      ensures r.Got? ==> Value() == r.rest
      ensures !r.Got? ==> unchanged(this)
    {
      if |payload| < n {
        return TooShort;
      }
      var data := payload[..n];
      payload := payload[n..];
      header := header.(contentLength := Minus(header.contentLength, n));
      r := Got(data, Value());
    }

    method InjectString(s: text)
      modifies this
      ensures Value() == PutString(old(Value()), s)
    {
      var prefix := ToLE(4, |s|);
      payload := payload + prefix;
      payload := payload + s;
      header := header.(contentLength := Plus(header.contentLength, |s| + 4));
      assert payload == old(payload) + EncodedString(s);
    }

    /** An out-of-bounds length has no defined effect in the source; here the packet is then left alone. */
    method ExtractString() returns (r: Extraction<text>)
      modifies this
      ensures r == TakeString(old(Value()))
      ensures r.Got? ==> Value() == r.rest
      ensures !r.Got? ==> unchanged(this)
    {
      if |payload| < 4 {
        return TooShort;
      }
      var n := FromLE(payload[..4]);
      if n > INT_MAX || 4 + n > |payload| {
        return OutOfBounds;
      }
      payload := payload[4..];
      var s := payload[..n];
      payload := payload[n..];
      header := header.(contentLength := Minus(header.contentLength, n + 4));
      assert s == old(payload)[4..4 + n] && payload == old(payload)[4 + n..];
      r := Got(s, Value());
    }

    method Serialize() returns (buffer: seq<byte>)
      ensures buffer == Serialized(Value())
    {
      buffer := EncodedHeader(header) + payload;
    }

    /** The header is overwritten before the checks, so a rejected buffer still changes it. */
    method Deserialize(buffer: seq<byte>) returns (ok: bool)
      modifies this
      ensures ok == Deserialized(buffer).Success?
      ensures ok ==> Value() == Deserialized(buffer).value
      ensures !ok ==> payload == old(payload)
      ensures !ok ==> header == if |buffer| < HEADER_SIZE then old(header) else DecodedHeader(buffer)
    {
      if |buffer| < HEADER_SIZE {
        return false;
      }
      header := DecodedHeader(buffer);
      if header.priority >= MAX_PRIORITY || header.api >= MAX_VERSION || header.command >= MAX_COMMAND_ID {
        return false;
      }
      if header.contentLength > |buffer| - HEADER_SIZE {
        return false;
      }
      payload := buffer[HEADER_SIZE..HEADER_SIZE + header.contentLength];
      return true;
    }
  }
}
