/** Flakkari/Protocol/Engine/PacketFactory.hpp: an entity's components as a tagged byte stream. */
module ComponentStreams {
  import opened Wrappers
  import opened Bytes
  import opened Sequences
  import opened Packets
  import opened PayloadStreams
  import opened Components

  const COMMON_ORDER: seq<Kind> := [CHILD, EVOLVE, HEALTH, ID, LEVEL, PARENT, TAG, TEMPLATE, TIMER, WEAPON]
  const ORDER_2D: seq<Kind> := [TRANSFORM, MOVABLE, CONTROL, COLLIDER, RIGIDBODY]
  const ORDER_3D: seq<Kind> := [TRANSFORM_3D, MOVABLE_3D, CONTROL_3D, BOXCOLLIDER, SPHERECOLLIDER, RIGIDBODY_3D]

  /** ComponentId; a Spawned component is never written. */
  function WireId(k: Kind): byte {
    match k
    case CONTROL => 0
    case MOVABLE => 1
    case TRANSFORM => 2
    case COLLIDER => 3
    case RIGIDBODY => 4
    case CONTROL_3D => 10
    case MOVABLE_3D => 11
    case TRANSFORM_3D => 12
    case BOXCOLLIDER => 13
    case SPHERECOLLIDER => 14
    case RIGIDBODY_3D => 15
    case CHILD => 20
    case EVOLVE => 21
    case HEALTH => 22
    case ID => 23
    case LEVEL => 24
    case PARENT => 25
    case TAG => 26
    case TEMPLATE => 27
    case TIMER => 28
    case WEAPON => 29
    case SPAWNED => 30
  }

  function KindOfWire(id: byte): Option<Kind> {
    match id
    case 0 => Some(CONTROL)
    case 1 => Some(MOVABLE)
    case 2 => Some(TRANSFORM)
    case 3 => Some(COLLIDER)
    case 4 => Some(RIGIDBODY)
    case 10 => Some(CONTROL_3D)
    case 11 => Some(MOVABLE_3D)
    case 12 => Some(TRANSFORM_3D)
    case 13 => Some(BOXCOLLIDER)
    case 14 => Some(SPHERECOLLIDER)
    case 15 => Some(RIGIDBODY_3D)
    case 20 => Some(CHILD)
    case 21 => Some(EVOLVE)
    case 22 => Some(HEALTH)
    case 23 => Some(ID)
    case 24 => Some(LEVEL)
    case 25 => Some(PARENT)
    case 26 => Some(TAG)
    case 27 => Some(TEMPLATE)
    case 28 => Some(TIMER)
    case 29 => Some(WEAPON)
    case _ => None
  }

  function U64(x: u64): Field {
    Raw(ToLE(8, x))
  }

  function Words(xs: seq<u64>): (fs: seq<Field>)
    ensures |fs| == |xs|
  {
    seq(|xs|, i requires 0 <= i < |xs| => U64(xs[i]))
  }

  function Floats(xs: seq<f32>): (fs: seq<Field>)
    ensures |fs| == |xs|
  {
    seq(|xs|, i requires 0 <= i < |xs| => Raw(ToLE(4, xs[i])))
  }

  function Flags(bs: seq<bool>): (fs: seq<Field>)
    ensures |fs| == |bs|
  {
    seq(|bs|, i requires 0 <= i < |bs| => Flag(bs[i]))
  }

  function Flag(b: bool): Field {
    Raw([if b then 1 else 0])
  }

  /** Bits, lowest first. */
  function Word(bits: seq<bool>): nat {
    if bits == [] then 0 else (if bits[0] then 1 else 0) + 2 * Word(bits[1..])
  }

  function Permissions(c: SpatialComponent): (bits: seq<bool>)
    requires c.Control?
    ensures |bits| == 11
  {
    [c.moveUp, c.moveDown, c.moveLeft, c.moveRight, c.moveFront, c.moveBack,
     c.lookUp, c.lookDown, c.lookLeft, c.lookRight, c.shoot]
  }

  /** Control::toSerialized: eleven permissions in a 16-bit word. */
  function Bits(bits: seq<bool>): Field {
    Raw(ToLE(2, Word(bits)))
  }

  /** The fields written after the tag, in the order they are written. */
  function CommonWire(c: CommonComponent): seq<Field> {
    match c
    case Child(name) => [Str(name)]
    case Evolve(name) => [Str(name)]
    case Health(current, max, shield, maxShield) => Words([current, max, shield, maxShield])
    case Id(id) => Words([id])
    case Level(level, weapon, exp, required) => Words([level]) + ([Str(weapon)] + Words([exp, required]))
    case Parent(entity) => Words([entity])
    case Tag(tag) => [Str(tag)]
    case Template(name, _) => [Str(name)]
    case Timer(last, max) => Words([last]) + Floats([max])
    case Weapon(min, max, charge, rate, level) => Words([min, max]) + (Floats([charge, rate]) + Words([level]))
  }

  function PlanarWire(c: PlanarComponent): seq<Field> {
    match c
    case Transform(p, r, s) => Floats([p.x, p.y, r, s.x, s.y])
    case Movable(v, a) => Floats([v.x, v.y, a.x, a.y])
    case Control(up, down, left, right, shoot) => Flags([up, down, left, right, shoot])
    case Collider(s) => Floats([s.x, s.y])
    case RigidBody(mass, restitution, friction, gravityScale, _, kinematic) =>
      Floats([mass, restitution, friction, gravityScale]) + Flags([kinematic])
  }

  function SpatialWire(c: SpatialComponent): seq<Field> {
    match c
    case Transform(p, r, s) => Floats([p.x, p.y, p.z, r.x, r.y, r.z, r.w, s.x, s.y, s.z])
    case Movable(v, a, min, max) => Floats([v.x, v.y, v.z, a.x, a.y, a.z, min, max])
    case Control(_, _, _, _, _, _, _, _, _, _, _) => [Bits(Permissions(c))]
    case BoxCollider(center, size) => Floats([size.x, size.y, size.z, center.x, center.y, center.z])
    case SphereCollider(center, radius) => Floats([center.x, center.y, center.z, radius])
    case RigidBody(mass, drag, angularDrag, gravity, _) => Floats([mass, drag, angularDrag]) + Flags([gravity])
  }

  function Wire(c: Component): seq<Field> {
    match c
    case Common(x) => CommonWire(x)
    case Planar(x) => PlanarWire(x)
    case Spatial(x) => SpatialWire(x)
    case Spawned(_) => []
  }

  const SIZE_T := RawOf(8)
  const FLOAT := RawOf(4)
  const BOOL := RawOf(1)

  function Copies<T>(x: T, n: nat): (s: seq<T>)
    ensures |s| == n
  {
    seq(n, i => x)
  }

  /** What a reader expects after a tag. */
  function WireShapes(k: Kind): seq<Shape> {
    match k
    case CHILD => [StrOf]
    case EVOLVE => [StrOf]
    case HEALTH => Copies(SIZE_T, 4)
    case ID => Copies(SIZE_T, 1)
    case LEVEL => Copies(SIZE_T, 1) + ([StrOf] + Copies(SIZE_T, 2))
    case PARENT => Copies(SIZE_T, 1)
    case TAG => [StrOf]
    case TEMPLATE => [StrOf]
    case TIMER => Copies(SIZE_T, 1) + Copies(FLOAT, 1)
    case WEAPON => Copies(SIZE_T, 2) + (Copies(FLOAT, 2) + Copies(SIZE_T, 1))
    case TRANSFORM => Copies(FLOAT, 5)
    case MOVABLE => Copies(FLOAT, 4)
    case CONTROL => Copies(BOOL, 5)
    case COLLIDER => Copies(FLOAT, 2)
    case RIGIDBODY => Copies(FLOAT, 4) + Copies(BOOL, 1)
    case TRANSFORM_3D => Copies(FLOAT, 10)
    case MOVABLE_3D => Copies(FLOAT, 8)
    case CONTROL_3D => [RawOf(2)]
    case BOXCOLLIDER => Copies(FLOAT, 6)
    case SPHERECOLLIDER => Copies(FLOAT, 4)
    case RIGIDBODY_3D => Copies(FLOAT, 3) + Copies(BOOL, 1)
    case SPAWNED => []
  }

  lemma ShapesOf(ws: seq<u64>, fs: seq<f32>, bs: seq<bool>)
    ensures Shapes(Words(ws)) == Copies(SIZE_T, |ws|)
    ensures Shapes(Floats(fs)) == Copies(FLOAT, |fs|)
    ensures Shapes(Flags(bs)) == Copies(BOOL, |bs|)
  {
  }

  lemma ShapesAppend(a: seq<Field>, b: seq<Field>)
    ensures Shapes(a + b) == Shapes(a) + Shapes(b)
  {
  }

  lemma SingleShape(f: Field)
    ensures Shapes([f]) == [ShapeOf(f)]
    ensures Shapes([]) == [] == WireShapes(SPAWNED)
  {
  }

  lemma CommonShape(c: CommonComponent)
    ensures Shapes(CommonWire(c)) == WireShapes(CommonKind(c))
  {
    hide Shapes, Words, Floats, Copies;
    match c
    case Health(a, b, d, e) => ShapesOf([a, b, d, e], [], []);
    case Id(id) => ShapesOf([id], [], []);
    case Level(l, w, x, r) =>
      ShapesOf([l], [], []);
      ShapesOf([x, r], [], []);
      SingleShape(Str(w));
      ShapesAppend([Str(w)], Words([x, r]));
      ShapesAppend(Words([l]), [Str(w)] + Words([x, r]));
    case Parent(e) => ShapesOf([e], [], []);
    case Timer(last, max) =>
      ShapesOf([last], [max], []);
      ShapesAppend(Words([last]), Floats([max]));
    case Weapon(min, max, charge, rate, level) =>
      ShapesOf([min, max], [charge, rate], []);
      ShapesOf([level], [], []);
      ShapesAppend(Floats([charge, rate]), Words([level]));
      ShapesAppend(Words([min, max]), Floats([charge, rate]) + Words([level]));
    case Child(s) => SingleShape(Str(s));
    case Evolve(s) => SingleShape(Str(s));
    case Tag(s) => SingleShape(Str(s));
    case Template(s, _) => SingleShape(Str(s));
  }

  lemma PlanarShape(c: PlanarComponent)
    ensures Shapes(PlanarWire(c)) == WireShapes(PlanarKind(c))
  {
    hide Shapes, Words, Floats, Flags, Copies;
    match c
    case Transform(p, r, s) => ShapesOf([], [p.x, p.y, r, s.x, s.y], []);
    case Movable(v, a) => ShapesOf([], [v.x, v.y, a.x, a.y], []);
    case Control(u, d, l, r, s) => ShapesOf([], [], [u, d, l, r, s]);
    case Collider(s) => ShapesOf([], [s.x, s.y], []);
    case RigidBody(m, r, f, g, _, k) =>
      ShapesOf([], [m, r, f, g], [k]);
      ShapesAppend(Floats([m, r, f, g]), Flags([k]));
  }

  lemma SpatialShape(c: SpatialComponent)
    ensures Shapes(SpatialWire(c)) == WireShapes(SpatialKind(c))
  {
    hide Shapes, Words, Floats, Flags, Copies, Word, Permissions;
    match c
    case Transform(p, r, s) => ShapesOf([], [p.x, p.y, p.z, r.x, r.y, r.z, r.w, s.x, s.y, s.z], []);
    case Movable(v, a, min, max) => ShapesOf([], [v.x, v.y, v.z, a.x, a.y, a.z, min, max], []);
    case Control(_, _, _, _, _, _, _, _, _, _, _) => SingleShape(Bits(Permissions(c)));
    case BoxCollider(o, s) => ShapesOf([], [s.x, s.y, s.z, o.x, o.y, o.z], []);
    case SphereCollider(o, r) => ShapesOf([], [o.x, o.y, o.z, r], []);
    case RigidBody(m, d, a, g, _) =>
      ShapesOf([], [m, d, a], [g]);
      ShapesAppend(Floats([m, d, a]), Flags([g]));
  }

  lemma WireHasShape(c: Component)
    ensures Shapes(Wire(c)) == WireShapes(KindOf(c))
  {
    hide Shapes, WireShapes, CommonWire, PlanarWire, SpatialWire, CommonKind, PlanarKind, SpatialKind;
    match c
    case Common(x) => CommonShape(x);
    case Planar(x) => PlanarShape(x);
    case Spatial(x) => SpatialShape(x);
    case Spawned(_) => SingleShape(Str([]));
  }

  // ---------------------------------------------------------------- encoding an entity

  type Entity = map<Kind, Component>

  function Tagged(k: Kind, c: Component): seq<Field> {
    [Raw([WireId(k)])] + Wire(c)
  }

  /** The fields written for the kinds in `order` that the entity has. */
  function StreamFields(order: seq<Kind>, e: Entity): seq<Field> {
    if order == [] then []
    else (if order[0] in e then Tagged(order[0], e[order[0]]) else []) + StreamFields(order[1..], e)
  }

  /** addComponentsToPacketByEntity: common, then 2D, then 3D components. */
  const ORDER := COMMON_ORDER + ORDER_2D + ORDER_3D

  function EntityStream(e: Entity): seq<byte> {
    EncodedAll(StreamFields(ORDER, e))
  }

  // ---------------------------------------------------------------- decoding it

  /** Reads a tag, dispatches on it, reads its fields, and goes on until the payload is used up. */
  function DecodedStream(p: Frame): Option<seq<(Kind, seq<Field>)>>
    decreases |p.payload|
  {
    if p.payload == [] then Some([]) else
    var tag := Take(p, 1);
    if !tag.Got? then None else
    match KindOfWire(tag.value[0])
    case None => None
    case Some(k) =>
      var r := ReadAll(tag.rest, WireShapes(k));
      if r.None? then None else Prepend((k, r.value.1), DecodedStream(r.value.0))
  }

  /** What the stream says, kind by kind. */
  function Entries(order: seq<Kind>, e: Entity): seq<(Kind, seq<Field>)> {
    if order == [] then []
    else (if order[0] in e then [(order[0], Wire(e[order[0]]))] else []) + Entries(order[1..], e)
  }

  /** Each slot holds its own type, and strings have a size that fits an int. */
  ghost predicate WellTyped(e: Entity) {
    forall k :: k in e ==> KindOf(e[k]) == k && forall f :: f in Wire(e[k]) ==> ValidField(f)
  }

  lemma WireIdIsReadBack(k: Kind)
    requires k != SPAWNED
    ensures KindOfWire(WireId(k)) == Some(k)
  {
  }

  /** One tagged component is read off the front of any stream. */
  lemma DecodeFirst(p: Frame, k: Kind, c: Component, rest: seq<byte>) returns (p': Frame)
    requires Consistent(p) && KindOf(c) == k && k != SPAWNED
    requires forall f :: f in Wire(c) ==> ValidField(f)
    requires p.payload == EncodedAll(Tagged(k, c)) + rest
    ensures p'.payload == rest && Consistent(p') && |rest| < |p.payload|
    ensures DecodedStream(p) == Prepend((k, Wire(c)), DecodedStream(p'))
  {
    HeadOfSum([Raw([WireId(k)])], Wire(c));
    Empty(Wire(c));
    Associative([WireId(k)], EncodedAll(Wire(c)), rest);
    var tag := Take(p, 1);
    TakeKeepsConsistent(p, 1);
    assert tag.value == [WireId(k)] && tag.rest.payload == EncodedAll(Wire(c)) + rest;
    WireIdIsReadBack(k);
    WireHasShape(c);
    ReadAllReads(tag.rest, Wire(c), rest);
    p' := ReadAll(tag.rest, WireShapes(k)).value.0;
    DispatchOn(p, k);
  }

  function Prepend<T>(x: T, rest: Option<seq<T>>): Option<seq<T>> {
    match rest
    case None => None
    case Some(s) => Some([x] + s)
  }

  lemma DispatchOn(p: Frame, k: Kind)
    requires p.payload != [] && KindOfWire(p.payload[0]) == Some(k)
    ensures var r := ReadAll(Take(p, 1).rest, WireShapes(k));
      DecodedStream(p) == if r.None? then None else Prepend((k, r.value.1), DecodedStream(r.value.0))
  {
  }

  /** The decoder recovers exactly what was written. */
  lemma {:induction false} DecodeStream(p: Frame, order: seq<Kind>, e: Entity)
    requires Consistent(p) && WellTyped(e) && SPAWNED !in order
    requires p.payload == EncodedAll(StreamFields(order, e))
    ensures DecodedStream(p) == Some(Entries(order, e))
    decreases |order|
  {
    if order != [] {
      var k := order[0];
      assert k in order;
      if k in e {
        EncodedAllAppend(Tagged(k, e[k]), StreamFields(order[1..], e));
        var p' := DecodeFirst(p, k, e[k], EncodedAll(StreamFields(order[1..], e)));
        DecodeStream(p', order[1..], e);
      } else {
        Empty(StreamFields(order[1..], e));
        Empty(Entries(order[1..], e));
        DecodeStream(p, order[1..], e);
      }
    }
  }

  lemma {:induction false} EntriesDetermine(order: seq<Kind>, a: Entity, b: Entity, k: Kind)
    requires Entries(order, a) == Entries(order, b) && k in order
    requires Distinct(order)
    ensures k in a <==> k in b
    ensures k in a ==> Wire(a[k]) == Wire(b[k])
  {
    hide Entries, Wire;
    DistinctTail(order);
    HeadEntry(order, a);
    HeadEntry(order, b);
    if k != order[0] {
      EntriesDetermine(order[1..], a, b, k);
    }
  }

  lemma HeadEntry(order: seq<Kind>, e: Entity)
    requires order != [] && order[0] !in order[1..]
    ensures var es := Entries(order, e);
      if order[0] in e
      then es != [] && es[0] == (order[0], Wire(e[order[0]])) && es[1..] == Entries(order[1..], e)
      else es == Entries(order[1..], e) && (es != [] ==> es[0].0 != order[0])
  {
    EntriesAreOf(order[1..], e);
    var es := Entries(order[1..], e);
    assert es != [] ==> es[0].0 in order[1..];
  }

  lemma {:induction false} EntriesAreOf(order: seq<Kind>, e: Entity)
    ensures forall i :: 0 <= i < |Entries(order, e)| ==> Entries(order, e)[i].0 in order
  {
    if order != [] {
      EntriesAreOf(order[1..], e);
    }
  }

  // ---------------------------------------------------------------- the fields determine the component

  /** A component without the members that are not written. */
  function Seen(c: Component): Component {
    match c
    case Common(Template(name, _)) => Common(Template(name, []))
    case Planar(RigidBody(m, r, f, g, _, k)) => Planar(PlanarComponent.RigidBody(m, r, f, g, false, k))
    case Spatial(RigidBody(m, d, a, g, _)) => Spatial(SpatialComponent.RigidBody(m, d, a, g, false))
    case Spawned(_) => Spawned(false)
    case _ => c
  }

  lemma Halves(a: nat, b: nat, x: nat, y: nat)
    requires a < 2 && b < 2 && a + 2 * x == b + 2 * y
    ensures a == b && x == y
  {
  }

  lemma {:induction false} WordsDiffer(a: seq<bool>, b: seq<bool>)
    requires |a| == |b| && Word(a) == Word(b)
    ensures a == b
  {
    if a != [] {
      Halves(if a[0] then 1 else 0, if b[0] then 1 else 0, Word(a[1..]), Word(b[1..]));
      WordsDiffer(a[1..], b[1..]);
      HeadAndTail(a);
      HeadAndTail(b);
    }
  }

  lemma {:induction false} WordBelow(a: seq<bool>)
    ensures |a| == 11 ==> Word(a) < 0x1_0000
    ensures Word(a) < Pow2(|a|)
  {
    assert Pow2(5) == 32 && Pow2(11) == 2048;
    if a != [] {
      WordBelow(a[1..]);
    }
  }

  function Pow2(n: nat): nat {
    if n == 0 then 1 else 2 * Pow2(n - 1)
  }

  lemma BitsInjective(a: seq<bool>, b: seq<bool>)
    requires |a| == |b| == 11
    ensures [Bits(a)] == [Bits(b)] <==> a == b
  {
    if [Bits(a)] == [Bits(b)] {
      assert [Bits(a)][0] == [Bits(b)][0];
      WordBelow(a);
      WordBelow(b);
      ReadBack16(Word(a));
      ReadBack16(Word(b));
      WordsDiffer(a, b);
    }
  }

  lemma WordsInjective(xs: seq<u64>, ys: seq<u64>)
    requires |xs| == |ys|
    ensures Words(xs) == Words(ys) <==> xs == ys
  {
    if Words(xs) == Words(ys) {
      forall i | 0 <= i < |xs|
        ensures xs[i] == ys[i]
      {
        assert Words(xs)[i] == Words(ys)[i];
        ReadBack64(xs[i]);
        ReadBack64(ys[i]);
      }
    }
  }

  lemma FloatsInjective(xs: seq<f32>, ys: seq<f32>)
    requires |xs| == |ys|
    ensures Floats(xs) == Floats(ys) <==> xs == ys
  {
    if Floats(xs) == Floats(ys) {
      forall i | 0 <= i < |xs|
        ensures xs[i] == ys[i]
      {
        assert Floats(xs)[i] == Floats(ys)[i];
        ReadBack32(xs[i]);
        ReadBack32(ys[i]);
      }
    }
  }

  lemma FlagsInjective(xs: seq<bool>, ys: seq<bool>)
    requires |xs| == |ys|
    ensures Flags(xs) == Flags(ys) <==> xs == ys
  {
    if Flags(xs) == Flags(ys) {
      forall i | 0 <= i < |xs|
        ensures xs[i] == ys[i]
      {
        assert Flags(xs)[i] == Flags(ys)[i];
        assert Flag(xs[i]).bytes[0] == Flag(ys[i]).bytes[0];
      }
    }
  }

  lemma CommonDetermines(c: CommonComponent, d: CommonComponent)
    requires CommonKind(c) == CommonKind(d)
    ensures CommonWire(c) == CommonWire(d) <==> Seen(Common(c)) == Seen(Common(d))
  {
    hide Words, Floats;
    match c
    case Health(e, f, g, h) =>
      WordsInjective([e, f, g, h], [d.currentHealth, d.maxHealth, d.shield, d.maxShield]);
    case Id(id) => WordsInjective([id], [d.id]);
    case Level(l, w, x, r) => LevelDetermines(l, w, x, r, d);
    case Parent(e) => WordsInjective([e], [d.entity]);
    case Timer(last, max) =>
      WordsInjective([last], [d.lastTime]);
      FloatsInjective([max], [d.maxTime]);
      EqualSums(Words([last]), Floats([max]), Words([d.lastTime]), Floats([d.maxTime]));
    case Weapon(min, max, charge, rate, level) => WeaponDetermines(min, max, charge, rate, level, d);
    case _ =>
  }

  lemma LevelDetermines(l: u64, w: text, x: u64, r: u64, d: CommonComponent)
    requires d.Level?
    ensures CommonWire(Level(l, w, x, r)) == CommonWire(d) <==> Level(l, w, x, r) == d
  {
    hide Words;
    WordsInjective([l], [d.level]);
    WordsInjective([x, r], [d.currentExp, d.requiredExp]);
    EqualSums([Str(w)], Words([x, r]), [Str(d.currentWeapon)], Words([d.currentExp, d.requiredExp]));
    EqualSums(Words([l]), [Str(w)] + Words([x, r]),
               Words([d.level]), [Str(d.currentWeapon)] + Words([d.currentExp, d.requiredExp]));
  }

  lemma WeaponDetermines(min: u64, max: u64, charge: f32, rate: f32, level: u64, d: CommonComponent)
    requires d.Weapon?
    ensures CommonWire(Weapon(min, max, charge, rate, level)) == CommonWire(d) <==>
      Weapon(min, max, charge, rate, level) == d
  {
    hide Words, Floats;
    WordsInjective([min, max], [d.minDamage, d.maxDamage]);
    FloatsInjective([charge, rate], [d.chargeMaxTime, d.fireRate]);
    WordsInjective([level], [d.weaponLevel]);
    EqualSums(Floats([charge, rate]), Words([level]), Floats([d.chargeMaxTime, d.fireRate]), Words([d.weaponLevel]));
    EqualSums(Words([min, max]), Floats([charge, rate]) + Words([level]),
               Words([d.minDamage, d.maxDamage]), Floats([d.chargeMaxTime, d.fireRate]) + Words([d.weaponLevel]));
  }

  lemma PlanarDetermines(c: PlanarComponent, d: PlanarComponent)
    requires PlanarKind(c) == PlanarKind(d)
    ensures PlanarWire(c) == PlanarWire(d) <==> Seen(Planar(c)) == Seen(Planar(d))
  {
    hide Floats, Flags;
    match c
    case Transform(p, r, s) =>
      FloatsInjective([p.x, p.y, r, s.x, s.y], [d.position.x, d.position.y, d.rotation, d.scale.x, d.scale.y]);
    case Movable(v, a) =>
      FloatsInjective([v.x, v.y, a.x, a.y], [d.velocity.x, d.velocity.y, d.acceleration.x, d.acceleration.y]);
    case Control(u, dn, l, r, s) => FlagsInjective([u, dn, l, r, s], [d.up, d.down, d.left, d.right, d.shoot]);
    case Collider(s) => FloatsInjective([s.x, s.y], [d.size.x, d.size.y]);
    case RigidBody(m, r, f, g, _, k) =>
      FloatsInjective([m, r, f, g], [d.mass, d.restitution, d.friction, d.gravityScale]);
      FlagsInjective([k], [d.isKinematic]);
      EqualSums(Floats([m, r, f, g]), Flags([k]),
                 Floats([d.mass, d.restitution, d.friction, d.gravityScale]), Flags([d.isKinematic]));
  }

  lemma TransformDetermines(c: SpatialComponent, d: SpatialComponent)
    requires c.Transform? && d.Transform?
    ensures SpatialWire(c) == SpatialWire(d) <==> c == d
  {
    hide Floats;
    var p, r, s := c.position, c.rotation, c.scale;
    var xs := [p.x, p.y, p.z, r.x, r.y, r.z, r.w, s.x, s.y, s.z];
    var ys := [d.position.x, d.position.y, d.position.z, d.rotation.x, d.rotation.y, d.rotation.z, d.rotation.w,
               d.scale.x, d.scale.y, d.scale.z];
    FloatsInjective(xs, ys);
    if xs == ys {
      assert forall i :: 0 <= i < 10 ==> xs[i] == ys[i];
    }
  }

  lemma MovableDetermines(c: SpatialComponent, d: SpatialComponent)
    requires c.Movable? && d.Movable?
    ensures SpatialWire(c) == SpatialWire(d) <==> c == d
  {
    hide Floats;
    var v, a := c.velocity, c.acceleration;
    var xs := [v.x, v.y, v.z, a.x, a.y, a.z, c.minSpeed, c.maxSpeed];
    var ys := [d.velocity.x, d.velocity.y, d.velocity.z, d.acceleration.x, d.acceleration.y, d.acceleration.z,
               d.minSpeed, d.maxSpeed];
    FloatsInjective(xs, ys);
    if xs == ys {
      assert forall i :: 0 <= i < 8 ==> xs[i] == ys[i];
    }
  }

  function Granting(bits: seq<bool>): SpatialComponent
    requires |bits| == 11
  {
    SpatialComponent.Control(bits[0], bits[1], bits[2], bits[3], bits[4], bits[5],
                             bits[6], bits[7], bits[8], bits[9], bits[10])
  }

  lemma GrantingPermissions(c: SpatialComponent)
    requires c.Control?
    ensures Granting(Permissions(c)) == c
  {
  }

  lemma ControlDetermines(c: SpatialComponent, d: SpatialComponent)
    requires c.Control? && d.Control?
    ensures SpatialWire(c) == SpatialWire(d) <==> c == d
  {
    hide Bits, Permissions, Granting;
    BitsInjective(Permissions(c), Permissions(d));
    GrantingPermissions(c);
    GrantingPermissions(d);
  }

  lemma BoxDetermines(c: SpatialComponent, d: SpatialComponent)
    requires c.BoxCollider? && d.BoxCollider?
    ensures SpatialWire(c) == SpatialWire(d) <==> c == d
  {
    hide Floats;
    var xs := [c.size.x, c.size.y, c.size.z, c.center.x, c.center.y, c.center.z];
    var ys := [d.size.x, d.size.y, d.size.z, d.center.x, d.center.y, d.center.z];
    FloatsInjective(xs, ys);
    if xs == ys {
      assert forall i :: 0 <= i < 6 ==> xs[i] == ys[i];
    }
  }

  lemma SpatialDetermines(c: SpatialComponent, d: SpatialComponent)
    requires SpatialKind(c) == SpatialKind(d)
    ensures SpatialWire(c) == SpatialWire(d) <==> Seen(Spatial(c)) == Seen(Spatial(d))
  {
    hide Floats, Flags, Bits;
    match c
    case Transform(_, _, _) => TransformDetermines(c, d);
    case Movable(_, _, _, _) => MovableDetermines(c, d);
    case Control(_, _, _, _, _, _, _, _, _, _, _) => ControlDetermines(c, d);
    case BoxCollider(_, _) => BoxDetermines(c, d);
    case SphereCollider(o, r) =>
      FloatsInjective([o.x, o.y, o.z, r], [d.center.x, d.center.y, d.center.z, d.radius]);
    case RigidBody(m, dr, a, g, _) =>
      FloatsInjective([m, dr, a], [d.mass, d.drag, d.angularDrag]);
      FlagsInjective([g], [d.useGravity]);
      EqualSums(Floats([m, dr, a]), Flags([g]), Floats([d.mass, d.drag, d.angularDrag]), Flags([d.useGravity]));
  }

  lemma NamespaceOf(c: Component)
    ensures c.Common? <==> Rank(KindOf(c)) < 10
    ensures c.Planar? <==> 10 <= Rank(KindOf(c)) < 15
    ensures c.Spatial? <==> 15 <= Rank(KindOf(c)) < 21
  {
  }

  /** Two components of a kind are written alike exactly when they agree on everything written. */
  lemma WireDetermines(c: Component, d: Component)
    requires KindOf(c) == KindOf(d)
    ensures Wire(c) == Wire(d) <==> Seen(c) == Seen(d)
  {
    hide CommonWire, PlanarWire, SpatialWire, CommonKind, PlanarKind, SpatialKind, Seen, Rank;
    NamespaceOf(c);
    NamespaceOf(d);
    match c
    case Common(x) => CommonDetermines(x, d.common);
    case Planar(x) => PlanarDetermines(x, d.planar);
    case Spatial(x) => SpatialDetermines(x, d.spatial);
    case Spawned(b) => SpawnedSeen(b, d.hasSpawned);
  }

  lemma SpawnedSeen(a: bool, b: bool)
    ensures Seen(Spawned(a)) == Seen(Spawned(b))
  {
  }

  /** Where the source writes a kind. */
  function Rank(k: Kind): nat {
    match k
    case CHILD => 0
    case EVOLVE => 1
    case HEALTH => 2
    case ID => 3
    case LEVEL => 4
    case PARENT => 5
    case TAG => 6
    case TEMPLATE => 7
    case TIMER => 8
    case WEAPON => 9
    case TRANSFORM => 10
    case MOVABLE => 11
    case CONTROL => 12
    case COLLIDER => 13
    case RIGIDBODY => 14
    case TRANSFORM_3D => 15
    case MOVABLE_3D => 16
    case CONTROL_3D => 17
    case BOXCOLLIDER => 18
    case SPHERECOLLIDER => 19
    case RIGIDBODY_3D => 20
    case SPAWNED => 21
  }

  lemma RankOfOrder()
    ensures |ORDER| == 21 && forall i :: 0 <= i < 21 ==> Rank(ORDER[i]) == i
  {
    assert forall i :: 0 <= i < 10 ==> Rank(COMMON_ORDER[i]) == i;
    assert forall j :: 0 <= j < 5 ==> Rank(ORDER_2D[j]) == 10 + j;
    assert forall j :: 0 <= j < 6 ==> Rank(ORDER_3D[j]) == 15 + j;
  }

  /** The order of the source lists every serialised kind once. */
  lemma OrderIsComplete(k: Kind)
    ensures k in ORDER <==> k != SPAWNED
    ensures Distinct(ORDER)
  {
    hide *;
    RankOfOrder();
    RankMeans(k);
    assert k != SPAWNED ==> Rank(ORDER[Rank(k)]) == Rank(k);
    DistinctByRank(ORDER);
  }

  lemma RankMeans(k: Kind)
    ensures forall j :: Rank(j) == Rank(k) ==> j == k
    ensures Rank(k) <= 21 && (Rank(k) == 21 <==> k == SPAWNED)
  {
  }

  lemma DistinctByRank(order: seq<Kind>)
    requires forall i :: 0 <= i < |order| ==> Rank(order[i]) == i
    ensures Distinct(order)
  {
    forall i, j | 0 <= i < j < |order|
      ensures order[i] != order[j]
    {
      assert Rank(order[i]) != Rank(order[j]);
    }
  }

  /** Same components, with the same written members. */
  ghost predicate SameSeen(a: Entity, b: Entity) {
    forall k :: k != SPAWNED ==> (k in a <==> k in b) && (k in a ==> Seen(a[k]) == Seen(b[k]))
  }

  lemma {:induction false} SeenGivesFields(order: seq<Kind>, a: Entity, b: Entity)
    requires WellTyped(a) && WellTyped(b) && SameSeen(a, b) && SPAWNED !in order
    ensures StreamFields(order, a) == StreamFields(order, b)
  {
    hide Wire, Seen, KindOf;
    if order != [] {
      var k := order[0];
      assert k in order;
      if k in a {
        WireDetermines(a[k], b[k]);
      }
      SeenGivesFields(order[1..], a, b);
    }
  }

  lemma BytesGiveSeen(a: Entity, b: Entity)
    requires WellTyped(a) && WellTyped(b) && EntityStream(a) == EntityStream(b)
    ensures SameSeen(a, b)
  {
    hide Wire, Seen, KindOf, DecodedStream, StreamFields;
    var bytes := EntityStream(a);
    var p := Frame(Header(LOW, V_1, REQ_ENTITY_SPAWN, |bytes| % 0x1_0000, 0), bytes);
    OrderIsComplete(SPAWNED);
    DecodeStream(p, ORDER, a);
    DecodeStream(p, ORDER, b);
    forall k | k != SPAWNED
      ensures (k in a <==> k in b) && (k in a ==> Seen(a[k]) == Seen(b[k]))
    {
      OrderIsComplete(k);
      EntriesDetermine(ORDER, a, b, k);
      if k in a {
        WireDetermines(a[k], b[k]);
      }
    }
  }

  /** Two entities are written as the same bytes exactly when they agree on everything written. */
  lemma StreamIsUniquelyDecodable(a: Entity, b: Entity)
    requires WellTyped(a) && WellTyped(b)
    ensures EntityStream(a) == EntityStream(b) <==> SameSeen(a, b)
  {
    hide WellTyped, SameSeen, StreamFields;
    if EntityStream(a) == EntityStream(b) {
      BytesGiveSeen(a, b);
    }
    if SameSeen(a, b) {
      OrderIsComplete(SPAWNED);
      SeenGivesFields(ORDER, a, b);
    }
  }
}
