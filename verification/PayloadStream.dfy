/** The payload of a packet as a first-in first-out stream of typed values. */
module PayloadStreams {
  import opened Wrappers
  import opened Bytes
  import opened Sequences
  import opened Packets

  /** A value written with `<<` (its object representation) or with injectString. */
  datatype Field = Raw(bytes: seq<byte>) | Str(chars: text)

  /** What a reader asks for: n bytes, or a length-prefixed string. */
  datatype Shape = RawOf(size: nat) | StrOf

  /** C++ objects have a positive size; a string's size must survive the cast to int. */
  predicate ValidField(f: Field) {
    match f
    case Raw(bytes) => |bytes| > 0
    case Str(chars) => |chars| <= INT_MAX
  }

  predicate ValidShape(s: Shape) {
    s.RawOf? ==> s.size > 0
  }

  function ShapeOf(f: Field): Shape {
    match f
    case Raw(bytes) => RawOf(|bytes|)
    case Str(_) => StrOf
  }

  function Encoded(f: Field): seq<byte> {
    match f
    case Raw(bytes) => bytes
    case Str(chars) => EncodedString(chars)
  }

  function EncodedAll(q: seq<Field>): seq<byte> {
    if q == [] then [] else Encoded(q[0]) + EncodedAll(q[1..])
  }

  function Write(p: Frame, f: Field): Frame {
    match f
    case Raw(bytes) => Put(p, bytes)
    case Str(chars) => PutString(p, chars)
  }

  function Read(p: Frame, s: Shape): Extraction<Field> {
    match s
    case RawOf(n) =>
      (match Take(p, n)
       case Got(bytes, rest) => Got(Raw(bytes), rest)
       case TooShort => TooShort
       case OutOfBounds => OutOfBounds)
    case StrOf =>
      match TakeString(p)
      case Got(chars, rest) => Got(Str(chars), rest)
      case TooShort => TooShort
      case OutOfBounds => OutOfBounds
  }

  /** Every operation keeps contentLength equal to the payload size modulo 65536. */
  lemma OperationsKeepConsistent(p: Frame, f: Field, s: Shape)
    requires Consistent(p)
    ensures Consistent(Write(p, f))
    ensures Read(p, s).Got? ==> Consistent(Read(p, s).rest)
  {
    match f {
      case Raw(bytes) => PutKeepsConsistent(p, bytes);
      case Str(chars) => PutStringKeepsConsistent(p, chars);
    }
    TakeKeepsConsistent(p, if s.RawOf? then s.size else 0);
  }

  lemma EncodedAppend(q: seq<Field>, f: Field)
    ensures EncodedAll(q + [f]) == EncodedAll(q) + Encoded(f)
  {
    EncodedAllAppend(q, [f]);
    Empty(Encoded(f));
  }

  /** The first field is read back whatever follows it. */
  lemma ReadFirst(p: Frame, f: Field, rest: seq<byte>)
    requires ValidField(f) && p.payload == Encoded(f) + rest
    ensures var r := Read(p, ShapeOf(f)); r.Got? && r.value == f && r.rest.payload == rest
  {
    match f
    case Raw(bytes) =>
    case Str(chars) =>
      ReadBack32(|chars|);
      assert p.payload[..4] == ToLE(4, |chars|);
  }

  /** The size goes through a signed 32-bit int: a string alone in a packet is read back exactly up to INT_MAX bytes. */
  lemma StringRoundTrip(p: Frame, s: text)
    requires p.payload == []
    ensures (var r := TakeString(PutString(p, s)); r.Got? && r.value == s) <==> |s| <= INT_MAX
  {
    if |s| <= INT_MAX {
      assert PutString(p, s).payload == Encoded(Str(s)) + [];
      ReadFirst(PutString(p, s), Str(s), []);
    }
  }

  // ---------------------------------------------------------------- whole runs

  datatype Op = Write(f: Field) | Read(s: Shape)

  /** The abstract machine: a queue of fields. A reader of an empty queue fails and changes nothing. */
  function QueueStep(q: seq<Field>, op: Op): (seq<Field>, Option<Field>)
  {
    match op
    case Write(f) => (q + [f], None)
    case Read(s) => if q == [] then (q, None) else (q[1..], Some(q[0]))
  }

  /** The packet. An exception leaves it unchanged. */
  function PacketStep(p: Frame, op: Op): (Frame, Option<Field>) {
    match op
    case Write(f) => (Write(p, f), None)
    case Read(s) =>
      match Read(p, s)
      case Got(f, rest) => (rest, Some(f))
      case TooShort => (p, None)
      case OutOfBounds => (p, None)
  }

  /** Readers ask for the shape that is next in line, as a protocol's two ends agree to. */
  predicate Agreed(q: seq<Field>, op: Op) {
    match op
    case Write(f) => ValidField(f)
    case Read(s) => ValidShape(s) && (q != [] ==> s == ShapeOf(q[0]))
  }

  predicate AgreedRun(q: seq<Field>, ops: seq<Op>)
    decreases |ops|
  {
    ops == [] || (Agreed(q, ops[0]) && AgreedRun(QueueStep(q, ops[0]).0, ops[1..]))
  }

  function QueueRun(q: seq<Field>, ops: seq<Op>): (seq<Field>, seq<Option<Field>>)
    decreases |ops|
  {
    if ops == [] then (q, []) else
    var (q1, out) := QueueStep(q, ops[0]);
    var (q2, outs) := QueueRun(q1, ops[1..]);
    (q2, [out] + outs)
  }

  function PacketRun(p: Frame, ops: seq<Op>): (Frame, seq<Option<Field>>)
    decreases |ops|
  {
    if ops == [] then (p, []) else
    var (p1, out) := PacketStep(p, ops[0]);
    var (p2, outs) := PacketRun(p1, ops[1..]);
    (p2, [out] + outs)
  }

  ghost predicate Represents(p: Frame, q: seq<Field>) {
    p.payload == EncodedAll(q) && Consistent(p) && forall f :: f in q ==> ValidField(f)
  }

  lemma StepRefines(p: Frame, q: seq<Field>, op: Op)
    requires Represents(p, q) && Agreed(q, op)
    ensures PacketStep(p, op).1 == QueueStep(q, op).1
    ensures Represents(PacketStep(p, op).0, QueueStep(q, op).0)
  {
    match op
    case Write(f) =>
      EncodedAppend(q, f);
      OperationsKeepConsistent(p, f, StrOf);
    case Read(s) =>
      if q != [] {
        assert q[0] in q;
        ReadFirst(p, q[0], EncodedAll(q[1..]));
        OperationsKeepConsistent(p, q[0], s);
      }
  }

  /** Any interleaving of writes and agreed reads behaves as a queue of fields, empty reads included. */
  lemma {:induction false} PayloadIsQueue(p: Frame, q: seq<Field>, ops: seq<Op>)
    requires Represents(p, q) && AgreedRun(q, ops)
    ensures PacketRun(p, ops).1 == QueueRun(q, ops).1
    ensures Represents(PacketRun(p, ops).0, QueueRun(q, ops).0)
    decreases |ops|
  {
    if ops != [] {
      StepRefines(p, q, ops[0]);
      PayloadIsQueue(PacketStep(p, ops[0]).0, QueueStep(q, ops[0]).0, ops[1..]);
    }
  }

  function Writes(fields: seq<Field>): seq<Op> {
    if fields == [] then [] else [Op.Write(fields[0])] + Writes(fields[1..])
  }

  function Reads(fields: seq<Field>): seq<Op> {
    if fields == [] then [] else [Op.Read(ShapeOf(fields[0]))] + Reads(fields[1..])
  }

  function WriteAll(p: Frame, fields: seq<Field>): Frame
    decreases |fields|
  {
    if fields == [] then p else WriteAll(Write(p, fields[0]), fields[1..])
  }

  /** Reads the shapes of `fields` in order; None if some read fails. */
  function ReadAll(p: Frame, shapes: seq<Shape>): (r: Option<(Frame, seq<Field>)>)
    ensures r.Some? ==> |r.value.0.payload| <= |p.payload|
    decreases |shapes|
  {
    if shapes == [] then Some((p, [])) else
    match Read(p, shapes[0])
    case TooShort => None
    case OutOfBounds => None
    case Got(f, rest) =>
      match ReadAll(rest, shapes[1..])
      case None => None
      case Some(r) => Some((r.0, [f] + r.1))
  }

  function Shapes(fields: seq<Field>): (s: seq<Shape>)
    ensures |s| == |fields|
  {
    seq(|fields|, i requires 0 <= i < |fields| => ShapeOf(fields[i]))
  }

  lemma WriteAppends(p: Frame, f: Field)
    requires Consistent(p)
    ensures Write(p, f).payload == p.payload + Encoded(f)
    ensures Consistent(Write(p, f))
    ensures Write(p, f).header == p.header.(contentLength := Write(p, f).header.contentLength)
  {
    OperationsKeepConsistent(p, f, StrOf);
  }

  lemma {:induction false} WriteAllAppends(p: Frame, fields: seq<Field>)
    requires Consistent(p)
    ensures WriteAll(p, fields).payload == p.payload + EncodedAll(fields)
    ensures Consistent(WriteAll(p, fields))
    ensures WriteAll(p, fields).header == p.header.(contentLength := WriteAll(p, fields).header.contentLength)
    decreases |fields|
  {
    if fields == [] {
      Empty(p.payload);
    } else {
      var next := Write(p, fields[0]);
      var rest := EncodedAll(fields[1..]);
      WriteAppends(p, fields[0]);
      WriteAllAppends(next, fields[1..]);
      Associative(p.payload, Encoded(fields[0]), rest);
      assert WriteAll(p, fields) == WriteAll(next, fields[1..]);
    }
  }

  lemma WriteOne(p: Frame, f: Field)
    ensures WriteAll(p, [f]) == Write(p, f)
  {
    hide Write;
    assert [f][1..] == [];
    assert WriteAll(Write(p, f), []) == Write(p, f);
  }

  lemma {:induction false} WriteAllSum(p: Frame, a: seq<Field>, b: seq<Field>)
    ensures WriteAll(p, a + b) == WriteAll(WriteAll(p, a), b)
    decreases |a|
  {
    hide Write;
    if a == [] {
      Empty(b);
    } else {
      HeadOfSum(a, b);
      WriteAllSum(Write(p, a[0]), a[1..], b);
    }
  }

  lemma {:induction false} ReadAllReads(p: Frame, fields: seq<Field>, rest: seq<byte>)
    requires Consistent(p) && p.payload == EncodedAll(fields) + rest
    requires forall f :: f in fields ==> ValidField(f)
    ensures var r := ReadAll(p, Shapes(fields));
      r.Some? && r.value.1 == fields && r.value.0.payload == rest && Consistent(r.value.0)
    decreases |fields|
  {
    if fields != [] {
      var tail := EncodedAll(fields[1..]) + rest;
      Associative(Encoded(fields[0]), EncodedAll(fields[1..]), rest);
      assert fields[0] in fields;
      ReadFirst(p, fields[0], tail);
      var next := Read(p, ShapeOf(fields[0])).rest;
      OperationsKeepConsistent(p, fields[0], ShapeOf(fields[0]));
      ReadAllReads(next, fields[1..], rest);
      assert Shapes(fields)[0] == ShapeOf(fields[0]) && Shapes(fields)[1..] == Shapes(fields[1..]);
      ReadAllStep(p, Shapes(fields), fields);
    }
  }

  lemma ReadAllStep(p: Frame, shapes: seq<Shape>, fields: seq<Field>)
    requires shapes != [] && fields != []
    requires var r := Read(p, shapes[0]); r.Got? && r.value == fields[0]
    requires var r := ReadAll(Read(p, shapes[0]).rest, shapes[1..]); r.Some? && r.value.1 == fields[1..]
    ensures ReadAll(p, shapes) == Some((ReadAll(Read(p, shapes[0]).rest, shapes[1..]).value.0, fields))
  {
    HeadAndTail(fields);
  }

  lemma {:induction false} EncodedAllAppend(a: seq<Field>, b: seq<Field>)
    ensures EncodedAll(a + b) == EncodedAll(a) + EncodedAll(b)
  {
    if a == [] {
      Empty(b);
      Empty(EncodedAll(b));
    } else {
      EncodedAllAppend(a[1..], b);
      HeadOfSum(a, b);
      Associative(Encoded(a[0]), EncodedAll(a[1..]), EncodedAll(b));
    }
  }

  lemma EmptyReads(p: Frame, fields: seq<Field>)
    requires Consistent(p) && p.payload == EncodedAll(fields)
    requires forall f :: f in fields ==> ValidField(f)
    ensures var r := ReadAll(p, Shapes(fields));
      r.Some? && r.value.1 == fields && r.value.0.payload == [] && r.value.0.header.contentLength == 0
  {
    hide EncodedAll, ReadAll, Shapes;
    Empty(EncodedAll(fields));
    ReadAllReads(p, fields, []);
  }

  /** Writing a list into an empty packet and reading its shapes gives the list back and empties the packet. */
  lemma WriteThenRead(p: Frame, fields: seq<Field>)
    requires p.payload == [] && Consistent(p)
    requires forall f :: f in fields ==> ValidField(f)
    ensures var r := ReadAll(WriteAll(p, fields), Shapes(fields));
      r.Some? && r.value.1 == fields && r.value.0.payload == [] && r.value.0.header.contentLength == 0
  {
    hide EncodedAll, ReadAll, WriteAll, Shapes;
    var written := WriteAll(p, fields);
    WriteAllAppends(p, fields);
    Empty(EncodedAll(fields));
    EmptyReads(written, fields);
  }
}
