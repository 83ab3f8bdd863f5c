/** Flakkari/Protocol/Engine/PacketFactory.hpp: appending an entity's components to a packet, read off the registry.
    Each function extends the packet it is given. */
module PacketFactories {
  import opened Wrappers
  import opened Sequences
  import opened Packets
  import opened PayloadStreams
  import opened Components
  import opened ComponentStreams
  import opened RegistryObjects
  import opened GameModel
  import R = Registries

  lemma {:induction false} StreamFieldsSum(a: seq<Kind>, b: seq<Kind>, e: Entity)
    ensures StreamFields(a + b, e) == StreamFields(a, e) + StreamFields(b, e)
    decreases |a|
  {
    hide Tagged;
    if a == [] {
      Empty(b);
      Empty(StreamFields(b, e));
    } else {
      HeadOfSum(a, b);
      StreamFieldsSum(a[1..], b, e);
      Associative(if a[0] in e then Tagged(a[0], e[a[0]]) else [], StreamFields(a[1..], e), StreamFields(b, e));
    }
  }

  lemma OneField(k: Kind, e: Entity)
    ensures StreamFields([k], e) == if k in e then Tagged(k, e[k]) else []
  {
    hide Tagged;
    assert [k][1..] == [];
    Empty(Tagged(k, if k in e then e[k] else Spawned(false)));
  }

  /** One `<<` or injectString per field. */
  method AppendAll(packet: Packet, fields: seq<Field>)
    modifies packet
    ensures packet.Value() == WriteAll(old(packet.Value()), fields)
  {
    hide Put, PutString;
    for i := 0 to |fields|
      invariant WriteAll(packet.Value(), fields[i..]) == WriteAll(old(packet.Value()), fields)
    {
      match fields[i] {
        case Raw(bytes) => packet.Append(bytes);
        case Str(chars) => packet.InjectString(chars);
      }
    }
  }

  /** One component, if the entity has it. The lookup may grow an array, which nobody sees. */
  method AddIfPresent(packet: Packet, registry: Registry<Kind, Component>, entity: nat, k: Kind)
    requires registry.Valid() && packet !in registry.Repr
    modifies packet, registry.Repr
    ensures registry.Valid() && fresh(registry.Repr - old(registry.Repr)) && old(registry.Repr) <= registry.Repr
    ensures R.View(registry.Model()) == old(R.View(registry.Model()))
    ensures packet.Value() ==
      WriteAll(old(packet.Value()), StreamFields([k], EntityOf(R.View(registry.Model()), entity)))
  {
    hide R.View, R.Touched, Tagged, WriteAll;
    ghost var store := registry.Model();
    R.GetRefines(store, k, entity);
    OneField(k, EntityOf(R.View(store), entity));
    WriteNothing(packet.Value());
    var c := registry.GetAt(k, entity);
    if c.Some? {
      AppendAll(packet, Tagged(k, c.value));
    }
  }

  lemma WriteNothing(p: Frame)
    ensures WriteAll(p, []) == p
  {
  }

  /** The components of these kinds, kind after kind. */
  method AddKinds(packet: Packet, registry: Registry<Kind, Component>, entity: nat, kinds: seq<Kind>)
    requires registry.Valid() && packet !in registry.Repr
    modifies packet, registry.Repr
    ensures registry.Valid() && fresh(registry.Repr - old(registry.Repr)) && old(registry.Repr) <= registry.Repr
    ensures R.View(registry.Model()) == old(R.View(registry.Model()))
    ensures packet.Value() ==
      WriteAll(old(packet.Value()), StreamFields(kinds, EntityOf(R.View(registry.Model()), entity)))
  {
    hide R.View, StreamFields, WriteAll, EntityOf;
    ghost var p := packet.Value();
    ghost var e := EntityOf(R.View(registry.Model()), entity);
    NoFields(e);
    WriteNothing(p);
    for i := 0 to |kinds|
      invariant registry.Valid() && fresh(registry.Repr - old(registry.Repr)) && old(registry.Repr) <= registry.Repr
      invariant packet !in registry.Repr
      invariant R.View(registry.Model()) == old(R.View(registry.Model()))
      invariant packet.Value() == WriteAll(p, StreamFields(kinds[..i], e))
    {
      AddIfPresent(packet, registry, entity, kinds[i]);
      WriteAllSum(p, StreamFields(kinds[..i], e), StreamFields([kinds[i]], e));
      StreamFieldsSum(kinds[..i], [kinds[i]], e);
      assert kinds[..i + 1] == kinds[..i] + [kinds[i]];
    }
    assert kinds[..|kinds|] == kinds;
  }

  lemma NoFields(e: Entity)
    ensures StreamFields([], e) == []
  {
  }

  method AddCommonsToPacketByEntity(packet: Packet, registry: Registry<Kind, Component>, entity: nat)
    requires registry.Valid() && packet !in registry.Repr
    modifies packet, registry.Repr
    ensures registry.Valid() && fresh(registry.Repr - old(registry.Repr)) && old(registry.Repr) <= registry.Repr
    ensures R.View(registry.Model()) == old(R.View(registry.Model()))
    ensures packet.Value() ==
      WriteAll(old(packet.Value()), StreamFields(COMMON_ORDER, EntityOf(R.View(registry.Model()), entity)))
  {
    AddKinds(packet, registry, entity, COMMON_ORDER);
  }

  method Add2dToPacketByEntity(packet: Packet, registry: Registry<Kind, Component>, entity: nat)
    requires registry.Valid() && packet !in registry.Repr
    modifies packet, registry.Repr
    ensures registry.Valid() && fresh(registry.Repr - old(registry.Repr)) && old(registry.Repr) <= registry.Repr
    ensures R.View(registry.Model()) == old(R.View(registry.Model()))
    ensures packet.Value() ==
      WriteAll(old(packet.Value()), StreamFields(ORDER_2D, EntityOf(R.View(registry.Model()), entity)))
  {
    AddKinds(packet, registry, entity, ORDER_2D);
  }

  method Add3dToPacketByEntity(packet: Packet, registry: Registry<Kind, Component>, entity: nat)
    requires registry.Valid() && packet !in registry.Repr
    modifies packet, registry.Repr
    ensures registry.Valid() && fresh(registry.Repr - old(registry.Repr)) && old(registry.Repr) <= registry.Repr
    ensures R.View(registry.Model()) == old(R.View(registry.Model()))
    ensures packet.Value() ==
      WriteAll(old(packet.Value()), StreamFields(ORDER_3D, EntityOf(R.View(registry.Model()), entity)))
  {
    AddKinds(packet, registry, entity, ORDER_3D);
  }

  /** addComponentsToPacketByEntity: after it the packet ends in the entity's component stream. */
  method AddComponentsToPacketByEntity(packet: Packet, registry: Registry<Kind, Component>, entity: nat)
    requires registry.Valid() && packet !in registry.Repr
    modifies packet, registry.Repr
    ensures registry.Valid() && fresh(registry.Repr - old(registry.Repr)) && old(registry.Repr) <= registry.Repr
    ensures R.View(registry.Model()) == old(R.View(registry.Model()))
    ensures packet.Value() ==
      WriteAll(old(packet.Value()), StreamFields(ORDER, EntityOf(R.View(registry.Model()), entity)))
  {
    hide R.View, StreamFields, WriteAll, EntityOf;
    ghost var p := packet.Value();
    ghost var e := EntityOf(R.View(registry.Model()), entity);
    AddCommonsToPacketByEntity(packet, registry, entity);
    Add2dToPacketByEntity(packet, registry, entity);
    Add3dToPacketByEntity(packet, registry, entity);
    ThreeParts(p, e);
  }

  lemma ThreeParts(p: Frame, e: Entity)
    ensures WriteAll(WriteAll(WriteAll(p, StreamFields(COMMON_ORDER, e)), StreamFields(ORDER_2D, e)),
                     StreamFields(ORDER_3D, e))
      == WriteAll(p, StreamFields(ORDER, e))
  {
    hide StreamFields, WriteAll;
    StreamFieldsSum(COMMON_ORDER, ORDER_2D, e);
    StreamFieldsSum(COMMON_ORDER + ORDER_2D, ORDER_3D, e);
    WriteAllSum(p, StreamFields(COMMON_ORDER, e), StreamFields(ORDER_2D, e));
    WriteAllSum(p, StreamFields(COMMON_ORDER + ORDER_2D, e), StreamFields(ORDER_3D, e));
  }
}
