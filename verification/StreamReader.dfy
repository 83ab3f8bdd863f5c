/** A reader of component streams written down from the layout alone: numeric tags, members by name. */
module StreamReaders {
  import opened Wrappers
  import opened Bytes
  import opened Sequences
  import opened Packets
  import opened PayloadStreams
  import opened Components
  import opened ComponentStreams

  /** The i-th 64-bit number of a block. */
  function WordNo(b: seq<byte>, i: nat): u64
    requires 8 * i + 8 <= |b|
  {
    Widths();
    FromLE(b[8 * i..8 * i + 8])
  }

  /** The i-th float of a block. */
  function FloatNo(b: seq<byte>, i: nat): f32
    requires 4 * i + 4 <= |b|
  {
    Widths();
    FromLE(b[4 * i..4 * i + 4])
  }

  function Vec2At(b: seq<byte>, i: nat): Vec2
    requires 4 * i + 8 <= |b|
  {
    Vec2(FloatNo(b, i), FloatNo(b, i + 1))
  }

  function Vec3At(b: seq<byte>, i: nat): Vec3
    requires 4 * i + 12 <= |b|
  {
    Vec3(FloatNo(b, i), FloatNo(b, i + 1), FloatNo(b, i + 2))
  }

  function QuatAt(b: seq<byte>, i: nat): Quat
    requires 4 * i + 16 <= |b|
  {
    Quat(FloatNo(b, i), FloatNo(b, i + 1), FloatNo(b, i + 2), FloatNo(b, i + 3))
  }

  /** The i-th binary digit, lowest first. */
  function Bit(word: nat, i: nat): bool {
    if i == 0 then word % 2 == 1 else Bit(word / 2, i - 1)
  }

  datatype Reading<T> = Found(value: T, rest: seq<byte>) | Short

  /** A 32-bit size and that many characters. */
  function ReadText(b: seq<byte>): Reading<text> {
    if |b| < 4 || |b| - 4 < FromLE(b[..4]) then Short else Found(b[4..4 + FromLE(b[..4])], b[4 + FromLE(b[..4])..])
  }

  /** What follows the tags 20 to 29. */
  function ReadCommon(tag: byte, b: seq<byte>): Reading<CommonComponent> {
    if tag == 20 then (match ReadText(b) case Short => Short case Found(name, rest) => Found(Child(name), rest))
    else if tag == 21 then (match ReadText(b) case Short => Short case Found(name, rest) => Found(Evolve(name), rest))
    else if tag == 22 then
      if |b| < 32 then Short else Found(Health(WordNo(b, 0), WordNo(b, 1), WordNo(b, 2), WordNo(b, 3)), b[32..])
    else if tag == 23 then if |b| < 8 then Short else Found(Id(WordNo(b, 0)), b[8..])
    else if tag == 24 then
      if |b| < 8 then Short else
      match ReadText(b[8..])
      case Short => Short
      case Found(weapon, more) =>
        if |more| < 16 then Short
        else Found(Level(WordNo(b, 0), weapon, WordNo(more, 0), WordNo(more, 1)), more[16..])
    else if tag == 25 then if |b| < 8 then Short else Found(Parent(WordNo(b, 0)), b[8..])
    else if tag == 26 then (match ReadText(b) case Short => Short case Found(name, rest) => Found(Tag(name), rest))
    else if tag == 27 then
      (match ReadText(b) case Short => Short case Found(name, rest) => Found(Template(name, []), rest))
    else if tag == 28 then if |b| < 12 then Short else Found(Timer(WordNo(b, 0), FloatNo(b[8..], 0)), b[12..])
    else if tag == 29 then
      if |b| < 32 then Short
      else Found(Weapon(WordNo(b, 0), WordNo(b, 1), FloatNo(b[16..], 0), FloatNo(b[16..], 1), WordNo(b[24..], 0)),
                b[32..])
    else Short
  }

  /** What follows the tags 0 to 4. */
  function ReadPlanar(tag: byte, b: seq<byte>): Reading<PlanarComponent> {
    if tag == 0 then
      if |b| < 5 then Short
      else Found(PlanarComponent.Control(b[0] == 1, b[1] == 1, b[2] == 1, b[3] == 1, b[4] == 1), b[5..])
    else if tag == 1 then
      if |b| < 16 then Short else Found(PlanarComponent.Movable(Vec2At(b, 0), Vec2At(b, 2)), b[16..])
    else if tag == 2 then
      if |b| < 20 then Short
      else Found(PlanarComponent.Transform(Vec2At(b, 0), FloatNo(b, 2), Vec2At(b, 3)), b[20..])
    else if tag == 3 then if |b| < 8 then Short else Found(Collider(Vec2At(b, 0)), b[8..])
    else if tag == 4 then
      if |b| < 17 then Short
      else Found(PlanarComponent.RigidBody(FloatNo(b, 0), FloatNo(b, 1), FloatNo(b, 2), FloatNo(b, 3), false,
                                          b[16] == 1), b[17..])
    else Short
  }

  /** What follows the tags 10 to 15. */
  function ReadSpatial(tag: byte, b: seq<byte>): Reading<SpatialComponent> {
    if tag == 10 then
      if |b| < 2 then Short else
      var w := FromLE(b[..2]);
      Found(SpatialComponent.Control(Bit(w, 0), Bit(w, 1), Bit(w, 2), Bit(w, 3), Bit(w, 4), Bit(w, 5),
                                    Bit(w, 6), Bit(w, 7), Bit(w, 8), Bit(w, 9), Bit(w, 10)), b[2..])
    else if tag == 11 then
      if |b| < 32 then Short
      else Found(SpatialComponent.Movable(Vec3At(b, 0), Vec3At(b, 3), FloatNo(b, 6), FloatNo(b, 7)), b[32..])
    else if tag == 12 then
      if |b| < 40 then Short
      else Found(SpatialComponent.Transform(Vec3At(b, 0), QuatAt(b, 3), Vec3At(b, 7)), b[40..])
    else if tag == 13 then if |b| < 24 then Short else Found(BoxCollider(Vec3At(b, 3), Vec3At(b, 0)), b[24..])
    else if tag == 14 then if |b| < 16 then Short else Found(SphereCollider(Vec3At(b, 0), FloatNo(b, 3)), b[16..])
    else if tag == 15 then
      if |b| < 13 then Short
      else Found(SpatialComponent.RigidBody(FloatNo(b, 0), FloatNo(b, 1), FloatNo(b, 2), b[12] == 1, false), b[13..])
    else Short
  }

  /** One component, members that are not sent at their defaults. */
  function ReadComponent(b: seq<byte>): Reading<Component> {
    if b == [] then Short
    else if b[0] >= 20 then
      (match ReadCommon(b[0], b[1..]) case Short => Short case Found(c, rest) => Found(Common(c), rest))
    else if b[0] >= 10 then
      (match ReadSpatial(b[0], b[1..]) case Short => Short case Found(c, rest) => Found(Spatial(c), rest))
    else
      match ReadPlanar(b[0], b[1..]) case Short => Short case Found(c, rest) => Found(Planar(c), rest)
  }

  function ReadStream(b: seq<byte>): Option<seq<Component>>
    decreases |b|
  {
    if b == [] then Some([]) else
    match ReadComponent(b)
    case Short => None
    case Found(c, rest) => if |rest| >= |b| then None else Prepend(c, ReadStream(rest))
  }

  // ---------------------------------------------------------------- blocks of numbers

  lemma FirstFloats(xs: seq<f32>)
    requires xs != []
    ensures EncodedAll(Floats(xs)) == ToLE(4, xs[0]) + EncodedAll(Floats(xs[1..]))
    ensures EncodedAll(Floats([])) == []
  {
    assert Floats(xs)[1..] == Floats(xs[1..]);
  }

  lemma {:induction false} FloatsAt(xs: seq<f32>, rest: seq<byte>)
    ensures var b := EncodedAll(Floats(xs)) + rest;
      && |b| == 4 * |xs| + |rest| && b[4 * |xs|..] == rest
      && forall i: nat :: i < |xs| ==> FloatNo(b, i) == xs[i]
    decreases |xs|
  {
    hide EncodedAll, Floats, ToLE, FromLE;
    if xs == [] {
      FirstFloats([0]);
      Empty(rest);
    } else {
      var first, more := ToLE(4, xs[0]), EncodedAll(Floats(xs[1..])) + rest;
      FirstFloats(xs);
      Associative(first, EncodedAll(Floats(xs[1..])), rest);
      FloatsAt(xs[1..], rest);
      ReadBack32(xs[0]);
      PartsOfSum(first, more);
      forall i: nat | i < |xs|
        ensures FloatNo(first + more, i) == xs[i]
      {
        if i > 0 {
          SliceOfSum(first, more, 4 * i, 4 * i + 4);
          assert FloatNo(more, i - 1) == xs[1..][i - 1];
        }
      }
      DropOfSum(first, more, 4 * |xs|);
    }
  }

  lemma FirstWords(xs: seq<u64>)
    requires xs != []
    ensures EncodedAll(Words(xs)) == ToLE(8, xs[0]) + EncodedAll(Words(xs[1..]))
    ensures EncodedAll(Words([])) == []
  {
    assert Words(xs)[1..] == Words(xs[1..]);
  }

  lemma {:induction false} WordsAt(xs: seq<u64>, rest: seq<byte>)
    ensures var b := EncodedAll(Words(xs)) + rest;
      && |b| == 8 * |xs| + |rest| && b[8 * |xs|..] == rest
      && forall i: nat :: i < |xs| ==> WordNo(b, i) == xs[i]
    decreases |xs|
  {
    hide EncodedAll, Words, ToLE, FromLE;
    if xs == [] {
      FirstWords([0]);
      Empty(rest);
    } else {
      var first, more := ToLE(8, xs[0]), EncodedAll(Words(xs[1..])) + rest;
      FirstWords(xs);
      Associative(first, EncodedAll(Words(xs[1..])), rest);
      WordsAt(xs[1..], rest);
      ReadBack64(xs[0]);
      PartsOfSum(first, more);
      forall i: nat | i < |xs|
        ensures WordNo(first + more, i) == xs[i]
      {
        if i > 0 {
          SliceOfSum(first, more, 8 * i, 8 * i + 8);
          assert WordNo(more, i - 1) == xs[1..][i - 1];
        }
      }
      DropOfSum(first, more, 8 * |xs|);
    }
  }

  lemma {:induction false} FlagsAt(bs: seq<bool>, rest: seq<byte>)
    ensures var b := EncodedAll(Flags(bs)) + rest;
      && |b| == |bs| + |rest| && b[|bs|..] == rest
      && forall i: nat :: i < |bs| ==> (b[i] == 1 <==> bs[i])
    decreases |bs|
  {
    var b := EncodedAll(Flags(bs)) + rest;
    if bs != [] {
      var b' := EncodedAll(Flags(bs[1..])) + rest;
      assert Flags(bs)[1..] == Flags(bs[1..]);
      assert b == [if bs[0] then 1 else 0] + b';
      FlagsAt(bs[1..], rest);
      assert forall i: nat :: 0 < i < |bs| ==> b[i] == b'[i - 1] && bs[i] == bs[1..][i - 1];
      assert b[|bs|..] == b'[|bs[1..]|..];
    }
  }

  lemma TextBytes(s: text)
    ensures EncodedAll([Str(s)]) == ToLE(4, |s|) + s
  {
    assert [Str(s)][1..] == [];
  }

  lemma SizeFirst(size: seq<byte>, s: text, rest: seq<byte>)
    requires |size| == 4 && FromLE(size) == |s|
    ensures ReadText((size + s) + rest) == Found(s, rest)
  {
    hide FromLE;
    var b := (size + s) + rest;
    Associative(size, s, rest);
    PartsOfSum(size, s + rest);
    PartsOfSum(size + s, rest);
    assert b[..4] == size;
    assert b[4..4 + |s|] == s;
  }

  lemma TextAt(s: text, rest: seq<byte>)
    requires |s| <= INT_MAX
    ensures ReadText(EncodedAll([Str(s)]) + rest) == Found(s, rest)
  {
    hide FromLE, ToLE, EncodedAll, ReadText;
    TextBytes(s);
    ReadBack32(|s|);
    SizeFirst(ToLE(4, |s|), s, rest);
  }

  // ---------------------------------------------------------------- the stream is laid out for this reader

  lemma CommonReads(c: CommonComponent, rest: seq<byte>)
    requires forall f :: f in CommonWire(c) ==> ValidField(f)
    ensures var k := CommonKind(c);
      ReadCommon(WireId(k), EncodedAll(CommonWire(c)) + rest)
        == Found(if c.Template? then Template(c.name, []) else c, rest)
  {
    hide EncodedAll, WordNo, FloatNo, ReadText, Words, Floats;
    match c
    case Child(s) => OneText(s); TextAt(s, rest);
    case Evolve(s) => OneText(s); TextAt(s, rest);
    case Tag(s) => OneText(s); TextAt(s, rest);
    case Template(s, _) => OneText(s); TextAt(s, rest);
    case Health(a, b, d, e) => WordsAt([a, b, d, e], rest);
    case Id(id) => WordsAt([id], rest);
    case Parent(e) => WordsAt([e], rest);
    case Level(l, w, x, r) => LevelReads(l, w, x, r, rest);
    case Timer(last, max) => TimerReads(last, max, rest);
    case Weapon(min, max, charge, rate, level) => WeaponReads(min, max, charge, rate, level, rest);
  }

  lemma OneText(s: text)
    requires forall f :: f in [Str(s)] ==> ValidField(f)
    ensures |s| <= INT_MAX
  {
    assert Str(s) in [Str(s)];
  }

  lemma LevelReads(l: u64, w: text, x: u64, r: u64, rest: seq<byte>)
    requires forall f :: f in CommonWire(Level(l, w, x, r)) ==> ValidField(f)
    ensures ReadCommon(24, EncodedAll(CommonWire(Level(l, w, x, r))) + rest) == Found(Level(l, w, x, r), rest)
  {
    hide EncodedAll, WordNo, ReadText, Words;
    assert Str(w) in CommonWire(Level(l, w, x, r));
    var tail := EncodedAll(Words([x, r])) + rest;
    var named := EncodedAll([Str(w)]) + tail;
    EncodedAllAppend(Words([l]), [Str(w)] + Words([x, r]));
    EncodedAllAppend([Str(w)], Words([x, r]));
    assert EncodedAll(CommonWire(Level(l, w, x, r))) + rest == EncodedAll(Words([l])) + named;
    WordsAt([l], named);
    TextAt(w, tail);
    WordsAt([x, r], rest);
  }

  lemma TimerReads(last: u64, max: f32, rest: seq<byte>)
    ensures ReadCommon(28, EncodedAll(CommonWire(Timer(last, max))) + rest) == Found(Timer(last, max), rest)
  {
    hide EncodedAll, WordNo, FloatNo, Words, Floats;
    var tail := EncodedAll(Floats([max])) + rest;
    EncodedAllAppend(Words([last]), Floats([max]));
    var b := EncodedAll(CommonWire(Timer(last, max))) + rest;
    assert b == EncodedAll(Words([last])) + tail;
    WordsAt([last], tail);
    FloatsAt([max], rest);
    assert b[12..] == b[8..][4..];
  }

  lemma WeaponReads(min: u64, max: u64, charge: f32, rate: f32, level: u64, rest: seq<byte>)
    ensures ReadCommon(29, EncodedAll(CommonWire(Weapon(min, max, charge, rate, level))) + rest)
      == Found(Weapon(min, max, charge, rate, level), rest)
  {
    hide EncodedAll, WordNo, FloatNo, Words, Floats;
    var last := EncodedAll(Words([level])) + rest;
    var tail := EncodedAll(Floats([charge, rate])) + last;
    EncodedAllAppend(Words([min, max]), Floats([charge, rate]) + Words([level]));
    EncodedAllAppend(Floats([charge, rate]), Words([level]));
    var b := EncodedAll(CommonWire(Weapon(min, max, charge, rate, level))) + rest;
    assert b == EncodedAll(Words([min, max])) + tail;
    WordsAt([min, max], tail);
    FloatsAt([charge, rate], last);
    WordsAt([level], rest);
    assert b[24..] == b[16..][8..] && b[32..] == b[24..][8..];
  }

  lemma PlanarReads(c: PlanarComponent, rest: seq<byte>)
    ensures ReadPlanar(WireId(PlanarKind(c)), EncodedAll(PlanarWire(c)) + rest)
      == Found(if c.RigidBody? then c.(isGravityAffected := false) else c, rest)
  {
    hide EncodedAll, FloatNo, Floats, Flags;
    match c
    case Transform(p, r, s) => FloatsAt([p.x, p.y, r, s.x, s.y], rest);
    case Movable(v, a) => FloatsAt([v.x, v.y, a.x, a.y], rest);
    case Control(u, d, l, r, s) => FlagsAt([u, d, l, r, s], rest);
    case Collider(s) => FloatsAt([s.x, s.y], rest);
    case RigidBody(m, r, f, g, gravity, k) => BodyReads(m, r, f, g, gravity, k, rest);
  }

  lemma BodyReads(mass: f32, restitution: f32, friction: f32, scale: f32, gravity: bool, kinematic: bool,
                  rest: seq<byte>)
    ensures var c := PlanarComponent.RigidBody(mass, restitution, friction, scale, gravity, kinematic);
      ReadPlanar(4, EncodedAll(PlanarWire(c)) + rest) == Found(c.(isGravityAffected := false), rest)
  {
    hide EncodedAll, FloatNo, Floats, Flags;
    var tail := EncodedAll(Flags([kinematic])) + rest;
    var head := EncodedAll(Floats([mass, restitution, friction, scale]));
    EncodedAllAppend(Floats([mass, restitution, friction, scale]), Flags([kinematic]));
    Associative(head, EncodedAll(Flags([kinematic])), rest);
    FloatsAt([mass, restitution, friction, scale], tail);
    FlagsAt([kinematic], rest);
    var b := head + tail;
    assert b[16..] == tail;
    assert b[16] == tail[0] && b[17..] == b[16..][1..];
  }

  lemma SpatialReads(c: SpatialComponent, rest: seq<byte>)
    ensures ReadSpatial(WireId(SpatialKind(c)), EncodedAll(SpatialWire(c)) + rest)
      == Found(if c.RigidBody? then c.(isKinematic := false) else c, rest)
  {
    hide EncodedAll, FloatNo, Floats, Flags, Bit, Permissions, Bits, SpatialWire, ReadSpatial;
    match c
    case Transform(p, r, s) => TransformReads(p, r, s, rest);
    case Movable(v, a, min, max) => MovableReads(v, a, min, max, rest);
    case Control(_, _, _, _, _, _, _, _, _, _, _) => ControlReads(c, rest);
    case BoxCollider(o, s) => BoxReads(o, s, rest);
    case SphereCollider(o, r) => SphereReads(o, r, rest);
    case RigidBody(m, d, a, g, k) => RigidBodyReads(m, d, a, g, k, rest);
  }

  lemma TransformReads(p: Vec3, r: Quat, s: Vec3, rest: seq<byte>)
    ensures var c := SpatialComponent.Transform(p, r, s);
      ReadSpatial(12, EncodedAll(SpatialWire(c)) + rest) == Found(c, rest)
  {
    hide EncodedAll, FloatNo, Floats;
    FloatsAt([p.x, p.y, p.z, r.x, r.y, r.z, r.w, s.x, s.y, s.z], rest);
  }

  lemma MovableReads(v: Vec3, a: Vec3, min: f32, max: f32, rest: seq<byte>)
    ensures var c := SpatialComponent.Movable(v, a, min, max);
      ReadSpatial(11, EncodedAll(SpatialWire(c)) + rest) == Found(c, rest)
  {
    hide EncodedAll, FloatNo, Floats;
    FloatsAt([v.x, v.y, v.z, a.x, a.y, a.z, min, max], rest);
  }

  lemma BoxReads(center: Vec3, size: Vec3, rest: seq<byte>)
    ensures var c := BoxCollider(center, size);
      ReadSpatial(13, EncodedAll(SpatialWire(c)) + rest) == Found(c, rest)
  {
    hide EncodedAll, FloatNo, Floats;
    FloatsAt([size.x, size.y, size.z, center.x, center.y, center.z], rest);
  }

  lemma SphereReads(center: Vec3, radius: f32, rest: seq<byte>)
    ensures var c := SphereCollider(center, radius);
      ReadSpatial(14, EncodedAll(SpatialWire(c)) + rest) == Found(c, rest)
  {
    hide EncodedAll, FloatNo, Floats;
    FloatsAt([center.x, center.y, center.z, radius], rest);
  }

  lemma RigidBodyReads(mass: f32, drag: f32, angularDrag: f32, gravity: bool, kinematic: bool, rest: seq<byte>)
    ensures var c := SpatialComponent.RigidBody(mass, drag, angularDrag, gravity, kinematic);
      ReadSpatial(15, EncodedAll(SpatialWire(c)) + rest) == Found(c.(isKinematic := false), rest)
  {
    hide EncodedAll, FloatNo, Floats, Flags;
    var tail := EncodedAll(Flags([gravity])) + rest;
    var head := EncodedAll(Floats([mass, drag, angularDrag]));
    EncodedAllAppend(Floats([mass, drag, angularDrag]), Flags([gravity]));
    Associative(head, EncodedAll(Flags([gravity])), rest);
    FloatsAt([mass, drag, angularDrag], tail);
    FlagsAt([gravity], rest);
    var b := head + tail;
    assert b[12..] == tail;
    assert b[12] == tail[0] && b[13..] == b[12..][1..];
  }

  lemma {:induction false} BitsOfWord(bits: seq<bool>, i: nat)
    requires i < |bits|
    ensures Bit(Word(bits), i) == bits[i]
    decreases i
  {
    if i > 0 {
      BitsOfWord(bits[1..], i - 1);
    }
  }

  lemma ControlReads(c: SpatialComponent, rest: seq<byte>)
    requires c.Control?
    ensures ReadSpatial(10, EncodedAll(SpatialWire(c)) + rest) == Found(c, rest)
  {
    hide Bit, Word;
    var bits := Permissions(c);
    var b := EncodedAll(SpatialWire(c)) + rest;
    WordBelow(bits);
    ReadBack16(Word(bits));
    assert [Bits(bits)][1..] == [];
    assert b == ToLE(2, Word(bits)) + rest && b[..2] == ToLE(2, Word(bits));
    forall i: nat | i < 11
      ensures Bit(Word(bits), i) == bits[i]
    {
      BitsOfWord(bits, i);
    }
  }

  /** One tagged component is read off the front of anything, whatever its kind: the reader rebuilds every member that
      is sent. */
  lemma ComponentReads(c: Component, rest: seq<byte>)
    requires !c.Spawned? && forall f :: f in Wire(c) ==> ValidField(f)
    ensures ReadComponent(EncodedAll(Tagged(KindOf(c), c)) + rest) == Found(Seen(c), rest)
    ensures |EncodedAll(Tagged(KindOf(c), c))| >= 1
  {
    hide CommonWire, PlanarWire, SpatialWire, ReadCommon, ReadPlanar, ReadSpatial, EncodedAll;
    var tag := WireId(KindOf(c));
    var b := EncodedAll(Tagged(KindOf(c), c)) + rest;
    TaggedBytes(KindOf(c), c);
    assert b[0] == tag && b[1..] == EncodedAll(Wire(c)) + rest;
    match c
    case Common(x) => CommonReads(x, rest);
    case Planar(x) => PlanarReads(x, rest);
    case Spatial(x) => SpatialReads(x, rest);
  }

  lemma TaggedBytes(k: Kind, c: Component)
    ensures EncodedAll(Tagged(k, c)) == [WireId(k)] + EncodedAll(Wire(c))
  {
    hide Wire;
    HeadOfSum([Raw([WireId(k)])], Wire(c));
    Empty(Wire(c));
  }

  /** What is sent of an entity, in the order it is sent: common, then 2D, then 3D components. */
  const SENT: seq<Kind> :=
    [CHILD, EVOLVE, HEALTH, ID, LEVEL, PARENT, TAG, TEMPLATE, TIMER, WEAPON,
     TRANSFORM, MOVABLE, CONTROL, COLLIDER, RIGIDBODY,
     TRANSFORM_3D, MOVABLE_3D, CONTROL_3D, BOXCOLLIDER, SPHERECOLLIDER, RIGIDBODY_3D]

  function SentOf(order: seq<Kind>, e: Entity): seq<Component> {
    if order == [] then []
    else (if order[0] in e then [Seen(e[order[0]])] else []) + SentOf(order[1..], e)
  }

  lemma {:induction false} StreamReads(order: seq<Kind>, e: Entity)
    requires WellTyped(e) && SPAWNED !in order
    ensures ReadStream(EncodedAll(StreamFields(order, e))) == Some(SentOf(order, e))
    decreases |order|
  {
    hide ReadComponent, Wire, EncodedAll, Seen, KindOf, Tagged;
    if order == [] {
      assert EncodedAll([]) == [] by { NoFieldsNoBytes(); }
    } else {
      var k, rest := order[0], EncodedAll(StreamFields(order[1..], e));
      assert k in order;
      StreamReads(order[1..], e);
      if k in e {
        NotSpawned(e[k], k);
        EncodedAllAppend(Tagged(k, e[k]), StreamFields(order[1..], e));
        ComponentReads(e[k], rest);
      } else {
        Empty(StreamFields(order[1..], e));
        Empty(SentOf(order[1..], e));
      }
    }
  }

  lemma NoFieldsNoBytes()
    ensures EncodedAll([]) == []
  {
  }

  lemma NotSpawned(c: Component, k: Kind)
    requires KindOf(c) == k && k != SPAWNED
    ensures !c.Spawned?
  {
  }

  /** The whole stream: for strings of any length and any subset of components the reader gets back exactly the sent
      members of the entity's components, in the order of the source. */
  lemma EntityReads(e: Entity)
    requires WellTyped(e)
    ensures ReadStream(EntityStream(e)) == Some(SentOf(SENT, e))
  {
    hide ReadStream, StreamFields, WellTyped, EncodedAll;
    assert ORDER == SENT;
    StreamReads(SENT, e);
  }
}
