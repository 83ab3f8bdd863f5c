/** Flakkari/Server/Game/Game as the object it is, each method proved to do what GameModel says.

    One registry stands for `_scenes`: only the start scene is ever loaded. */
module Games {
  import opened Wrappers
  import opened Bytes
  import opened Sequences
  import opened Packets
  import opened PayloadStreams
  import opened Components
  import opened ComponentStreams
  import opened GameModel
  import opened SceneFacts
  import opened RegistryObjects
  import opened PacketFactories
  import opened Clients
  import opened UserEvents
  import R = Registries
  import Transport
  import ClientApi

  function Members(players: seq<Client>): set<Client> {
    set c | c in players
  }

  /** Identifiers in use are below the counter. */
  ghost predicate Bounded(t: Scene) {
    (forall c :: c in t.cells ==> c.1 < t.next) && forall e :: e in t.dead ==> e < t.next
  }

  lemma {:induction false} EquipBounded(t: Scene, e: nat, cs: seq<Component>)
    requires Bounded(t) && e < t.next
    ensures Bounded(Equip(t, e, cs))
    decreases |cs|
  {
    hide KindOf;
    if cs != [] {
      EquipBounded(R.Put(t, KindOf(cs[0]), e, cs[0]), e, cs[1..]);
    }
  }

  lemma {:induction false} LoadedIsBounded(entities: seq<seq<Component>>)
    ensures Bounded(Loaded(entities)) && Loaded(entities).next == |entities| && Loaded(entities).dead == []
    decreases |entities|
  {
    hide Equip;
    if entities != [] {
      var t := Loaded(entities[..|entities| - 1]);
      LoadedIsBounded(entities[..|entities| - 1]);
      EquipBounded(t.(next := t.next + 1), t.next, entities[|entities| - 1]);
      EquipCell(t.(next := t.next + 1), t.next, entities[|entities| - 1], TAG, 0);
    }
  }

  /** Factory::RegistryEntityByTemplate: one add_component per component of the template. */
  method RegistryEntityByTemplate(registry: Registry<Kind, Component>, e: nat, cs: seq<Component>)
    requires registry.Valid()
    modifies registry.Repr
    ensures registry.Valid() && fresh(registry.Repr - old(registry.Repr)) && old(registry.Repr) <= registry.Repr
    ensures R.View(registry.Model()) == Equip(old(R.View(registry.Model())), e, cs)
  {
    hide R.View, R.Put, R.Added, KindOf;
    for i := 0 to |cs|
      invariant registry.Valid() && fresh(registry.Repr - old(registry.Repr)) && old(registry.Repr) <= registry.Repr
      invariant Equip(R.View(registry.Model()), e, cs[i..]) == Equip(old(R.View(registry.Model())), e, cs)
    {
      R.AddIsPut(registry.Model(), KindOf(cs[i]), e, cs[i]);
      registry.AddComponent(KindOf(cs[i]), e, cs[i]);
      assert cs[i..][1..] == cs[i + 1..];
    }
  }

  method LoadScene(entities: seq<seq<Component>>) returns (registry: Registry<Kind, Component>)
    requires |entities| <= R.SIZE_MAX
    ensures registry.Valid() && fresh(registry) && fresh(registry.Repr)
    ensures R.View(registry.Model()) == Loaded(entities)
  {
    hide R.View, Equip, R.Spawned;
    registry := new Registry();
    EmptyView();
    for i := 0 to |entities|
      invariant registry.Valid() && fresh(registry) && fresh(registry.Repr)
      invariant R.View(registry.Model()) == Loaded(entities[..i])
    {
      LoadedIsBounded(entities[..i]);
      R.SpawnRefines(registry.Model());
      var e := registry.SpawnEntity();
      RegistryEntityByTemplate(registry, e.value, entities[i]);
      assert entities[..i + 1][..i] == entities[..i];
    }
    assert entities[..|entities|] == entities;
  }

  lemma EmptyView()
    ensures R.View(R.Store<Kind, Component>.Store(map[], {}, [], 0)) == Loaded([])
  {
    var t := R.View(R.Store<Kind, Component>.Store(map[], {}, [], 0));
    assert t.cells == map[];
  }

  class Game {
    const config: Config
    const scene: Registry<Kind, Component>
    var players: seq<Client>
    ghost var live: set<nat>

    ghost predicate Valid()
      reads this, scene, scene.Repr, players
    {
      && scene.Valid() && this !in scene.Repr && Bounded(Table())
      && Distinct(players) && forall c :: c in players ==> c !in scene.Repr && c.entity < Table().next
    }

    ghost function Table(): Scene
      requires scene.Valid()
      reads this, scene, scene.Repr
    {
      R.View(scene.Model())
    }

    ghost function Records(): map<Client, Peer>
      reads this, players
    {
      map c | c in players :: c.Record()
    }

    ghost function State(): World<Client>
      requires scene.Valid()
      reads this, scene, scene.Repr, players
    {
      World(Table(), live, players, Records())
    }

    ghost function Connected(now: int): set<Client>
      reads this, players
    {
      set c | c in players && c.IsConnected(now)
    }

    /** The start scene is loaded; an entity is given by its template's components. */
    constructor (config: Config, entities: seq<seq<Component>>)
      requires |entities| <= R.SIZE_MAX
      ensures Valid() && fresh(scene) && fresh(scene.Repr) && this.config == config
      ensures State() == World(Loaded(entities), FirstIds(|entities|), [], map[])
    {
      hide R.View, Loaded, Bounded, Registry.Valid, Registry.Model, FirstIds;
      var registry := LoadScene(entities);
      this.config, players, scene := config, [], registry;
      live := FirstIds(|entities|);
      new;
      LoadedIsBounded(entities);
    }

    /** sendOnSameScene, and with a client to leave out sendOnSameSceneExcept. */
    method SendOnSameScene(sceneName: text, packet: Packet, except: Option<Client>, now: int)
      requires Valid() && packet !in scene.Repr
      modifies packet`header, Members(players)`apiVersion, Members(players)`sendQueue
      ensures Valid()
      ensures State() == Broadcast(old(State()), old(Connected(now)), sceneName, old(packet.Value()), except)
      ensures packet.Value() == WithApi(old(packet.Value()), packet.header.api)
    {
      hide R.View, Broadcast, Bounded, Distinct, WithApi, HeardBy, Registry.Valid, Registry.Model;
      ghost var w, on, f := State(), Connected(now), packet.Value();
      SendTo(players, sceneName, packet, except, now, on, w.peers);
      assert scene.Valid() && Table() == old(Table());
      BroadcastIs(w, on, sceneName, f, except, Records());
    }

    /** Everything the player does not know yet: one packet for each visible entity but its own. */
    method SendAllEntitiesToPlayer(player: Client, stamp: u64)
      requires Valid() && player in players
      modifies player`apiVersion, player`sendQueue, scene.Repr
      ensures Valid() && fresh(scene.Repr - old(scene.Repr)) && old(scene.Repr) <= scene.Repr
      ensures State() == old(State()).(peers := old(Records())[player := old(player.Record()).(queue :=
        old(player.sendQueue) + VisibleFrames(old(Table()), old(Table()).next, player.entity, old(player.apiVersion),
                                              stamp))])
    {
      hide R.View, Bounded, Distinct, VisibleFrames, Registry.Valid, Registry.Model;
      ghost var size := SendVisible(scene, player, stamp);
      VisibleBelowNext(Table(), size, player.entity, player.apiVersion, stamp);
    }

    /** The player leaves the list and its entity dies. */
    method Unlist(player: Client)
      requires Valid() && player in players
      modifies this`players, this`live, scene.Repr
      ensures Valid() && fresh(scene.Repr - old(scene.Repr)) && old(scene.Repr) <= scene.Repr
      ensures State() == World(R.Retire(old(Table()), player.entity), old(live) - {player.entity},
                               Without(old(players), player), old(Records()) - {player})
      ensures Members(players) <= Members(old(players)) && forall c :: c in players ==> c in old(players)
    {
      hide R.View, Bounded, Distinct, Registry.Valid, Registry.Model, Without, R.Retire;
      ghost var t := Table();
      RetireBounded(t, player.entity);
      WithoutOne(players, player);
      Kill(scene, player.entity);
      players := Without(players, player);
      live := live - {player.entity};
      assert Records() == old(Records()) - {player};
    }

    /** removePlayer */
    method RemovePlayer(player: Client, now: int, stamp: u64) returns (ok: bool)
      requires Valid()
      modifies this`players, this`live, Members(players)`apiVersion, Members(players)`sendQueue, scene.Repr
      ensures Valid() && fresh(scene.Repr - old(scene.Repr)) && old(scene.Repr) <= scene.Repr
      ensures match GameModel.RemovePlayer(old(State()), player, old(Connected(now)), stamp)
        case None => !ok && State() == old(State())
        case Some(w') => ok && State() == w'
    {
      hide R.View, Bounded, Distinct, Registry.Valid, Registry.Model, Broadcast, Without, R.Retire, DestroyFrame,
           Deliver;
      ok := player in players;
      if ok {
        Expel(player, now, stamp);
      }
    }

    /** Off the list, entity killed, the others told. */
    method Expel(player: Client, now: int, stamp: u64)
      requires Valid() && player in players
      modifies this`players, this`live, Members(players)`apiVersion, Members(players)`sendQueue, scene.Repr
      ensures Valid() && fresh(scene.Repr - old(scene.Repr)) && old(scene.Repr) <= scene.Repr
      ensures Some(State()) == GameModel.RemovePlayer(old(State()), player, old(Connected(now)), stamp)
    {
      hide R.View, Bounded, Distinct, Registry.Valid, Registry.Model, Broadcast, Without, R.Retire, DestroyFrame, Put,
        GameModel.RemovePlayer, Client.Record, Seconds;
      var sceneName, entity := player.sceneName, player.entity;
      var packet := new Packet(LOW, V_1, REQ_ENTITY_DESTROY, stamp);
      packet.Append(ToLE(8, entity));
      DestroyBuilt(entity, stamp);
      ghost var w, on, f := State(), Connected(now), packet.Value();
      player.RecordFields();
      RemoveIs(w, player, on, stamp);
      Unlist(player);
      assert forall c :: c in players ==> (c in Connected(now) <==> c in on);
      BroadcastSame(State(), Connected(now), on, sceneName, f, None);
      SendOnSameScene(sceneName, packet, None, now);
    }

    /** The clients of the game and this one, as far as they are connected. */
    ghost function ConnectedWith(client: Client, now: int): set<Client>
      reads this, players, client
    {
      set c | c in players + [client] && c.IsConnected(now)
    }

    /** addPlayer; thrown: the registry has no identifier left. */
    method AddPlayer(client: Client, now: int, stamp: u64) returns (ok: bool, thrown: bool)
      requires Valid() && client !in scene.Repr
      modifies this`players, this`live, Members(players)`apiVersion, Members(players)`sendQueue, scene.Repr
      modifies client`sceneName, client`entity, client`joined, client`apiVersion, client`sendQueue
      ensures Valid() && fresh(scene.Repr - old(scene.Repr)) && old(scene.Repr) <= scene.Repr
      ensures match GameModel.AddPlayer(config, old(State()), client, old(client.Record()),
                                        old(ConnectedWith(client, now)), stamp)
        case Refused => !ok && !thrown && State() == old(State())
        case Thrown => !ok && thrown && State() == old(State())
        case Admitted(w') => ok && !thrown && State() == w'
    {
      hide R.View, Bounded, Distinct, Registry.Valid, Registry.Model, WithPlayer, Client.Record, Seconds, R.Allocate;
      if client in players {
        return false, false;
      }
      var connected := client.IsConnected(now);
      if |players| >= config.maxPlayers || !connected {
        return false, false;
      }
      ok, thrown := Admit(client, now, stamp);
    }

    method Admit(client: Client, now: int, stamp: u64) returns (ok: bool, thrown: bool)
      requires Valid() && client !in scene.Repr && client !in players
      modifies this`players, this`live, Members(players)`apiVersion, Members(players)`sendQueue, scene.Repr
      modifies client`sceneName, client`entity, client`joined, client`apiVersion, client`sendQueue
      ensures Valid() && fresh(scene.Repr - old(scene.Repr)) && old(scene.Repr) <= scene.Repr
      ensures ok == R.Allocate(old(Table())).Some? && thrown == !ok
      ensures !ok ==> State() == old(State())
      ensures ok ==> var (base, e) := R.Allocate(old(Table())).value;
        State() == WithPlayer(config, old(State()), client, old(client.Record()), old(ConnectedWith(client, now)),
                              stamp, base, e)
    {
      hide R.View, Bounded, Distinct, Registry.Valid, Registry.Model, Client.Record, Seconds, R.Allocate, Greeted,
           Equip, Broadcast,
        VisibleFrames, SpawnFrame, WithPlayer, Put, PutString;
      ghost var w, peer, on := State(), client.Record(), ConnectedWith(client, now);
      client.RecordFields();
      var r := Enrol(client, stamp);
      if r.None? {
        return false, true;
      }
      assert Connected(now) == on;
      Introduce(client, now, stamp);
      WithPlayerIs(config, w, client, peer, on, stamp, R.Allocate(w.table).value.0, r.value);
      return true, false;
    }

    /** The client gets its scene, a spawned entity with the player template's components, a place on the list, and the
        CONNECT packet. */
    method Enrol(client: Client, stamp: u64) returns (r: Option<nat>)
      requires Valid() && client !in scene.Repr && client !in players
      modifies this`players, this`live, scene.Repr
      modifies client`sceneName, client`entity, client`joined, client`apiVersion, client`sendQueue
      ensures Valid() && fresh(scene.Repr - old(scene.Repr)) && old(scene.Repr) <= scene.Repr
      ensures r.Some? == R.Allocate(old(Table())).Some?
      ensures r.None? ==> State() == old(State()) && players == old(players)
      ensures r.Some? ==> r.value == R.Allocate(old(Table())).value.1 && players == old(players) + [client]
      ensures r.Some? ==> State() == Enrolled(config, old(State()), client, old(client.Record()), stamp,
                                              R.Allocate(old(Table())).value.0, r.value)
    {
      hide R.View, Distinct, Bounded, Registry.Valid, Registry.Model, R.Allocate, Equip, Greeted, Client.Record;
      ghost var peer, records := client.Record(), Records();
      client.SetSceneName(config.scene);
      r := Birth(scene, config.player.components);
      if r.None? {
        return;
      }
      Greet(client, config, r.value, stamp, peer);
      assert Records() == records;
      PushBack(client, r.value);
    }

    method PushBack(client: Client, ghost e: nat)
      requires Valid() && client !in players && client !in scene.Repr && client.entity < Table().next
      modifies this`players, this`live
      ensures Valid() && players == old(players) + [client]
      ensures State() == World(old(Table()), old(live) + {e}, old(players) + [client],
                               old(Records())[client := client.Record()])
    {
      hide R.View, Distinct, Bounded, Registry.Valid, Registry.Model, Client.Record;
      DistinctMore(players, client);
      players := players + [client];
      live := live + {e};
      assert Records() == old(Records())[client := client.Record()];
    }

    /** The others are told of the newcomer, and the newcomer of everything visible. */
    method Introduce(client: Client, now: int, stamp: u64)
      requires Valid() && client in players
      modifies Members(players)`apiVersion, Members(players)`sendQueue, scene.Repr
      ensures Valid() && fresh(scene.Repr - old(scene.Repr)) && old(scene.Repr) <= scene.Repr
      ensures State() == Introduced(config, old(State()), client, old(Connected(now)), stamp)
    {
      hide R.View, Bounded, Distinct, Registry.Valid, Registry.Model, Client.Record, Broadcast, VisibleFrames,
           Connected;
      client.RecordFields();
      Announce(client, now, stamp);
      client.RecordFields();
      SendAllEntitiesToPlayer(client, stamp);
    }

    /** A SPAWN packet without components to everyone but the newcomer. */
    method Announce(client: Client, now: int, stamp: u64)
      requires Valid() && client in players
      modifies Members(players)`apiVersion, Members(players)`sendQueue
      ensures Valid()
      ensures State() == Broadcast(old(State()), old(Connected(now)), config.scene,
        SpawnFrame(old(client.apiVersion), client.entity, config.player.name, map[], stamp), Some(client))
      ensures client.Record() == old(client.Record())
    {
      hide R.View, Bounded, Distinct, Registry.Valid, Registry.Model, Client.Record, Broadcast, SpawnFrame, Put,
           PutString, Connected;
      var packet := new Packet(LOW, client.apiVersion, REQ_ENTITY_SPAWN, stamp);
      packet.Append(ToLE(8, client.entity));
      packet.InjectString(config.player.name);
      SpawnBare(client.apiVersion, client.entity, config.player.name, stamp);
      NotTold(State(), Connected(now), config.scene, packet.Value(), client);
      SendOnSameScene(config.scene, packet, Some(client), now);
    }

    // ---------------------------------------------------------------- moving

    /** The two writes through the references into the component arrays. */
    method WritePose(player: Client, pose: Pose)
      requires Valid() && player in players
      modifies scene.Repr
      ensures Valid() && fresh(scene.Repr - old(scene.Repr)) && old(scene.Repr) <= scene.Repr
      ensures State() == old(State()).(table := Posed(old(Table()), player.entity, pose))
    {
      hide R.View, Bounded, Distinct, Registry.Valid, Registry.Model, Client.Record, R.Added, Posed;
      ghost var t, records := Table(), Records();
      PosedBounded(t, player.entity, pose);
      R.AddIsPut(scene.Model(), MOVABLE_3D, player.entity, Spatial(pose.movable));
      scene.AddComponent(MOVABLE_3D, player.entity, Spatial(pose.movable));
      R.AddIsPut(scene.Model(), TRANSFORM_3D, player.entity, Spatial(pose.transform));
      scene.AddComponent(TRANSFORM_3D, player.entity, Spatial(pose.transform));
      assert Records() == records;
    }

    /** One update: the components are written back and sendUpdatePosition tells the scene. */
    method MoveTo(player: Client, pose: Pose, now: int, stamp: u64)
      requires Valid() && player in players && IsPose(pose)
      modifies Members(players)`apiVersion, Members(players)`sendQueue, scene.Repr
      ensures Valid() && fresh(scene.Repr - old(scene.Repr)) && old(scene.Repr) <= scene.Repr
      ensures State() == Move(old(State()), player, pose, old(Connected(now)), stamp)
    {
      hide R.View, Bounded, Distinct, Registry.Valid, Registry.Model, Client.Record, Broadcast, MovedFrame, Posed,
           Seconds, Move;
      ghost var w, on := State(), Connected(now);
      player.RecordFields();
      MoveIs(w, player, pose, on, stamp);
      WritePose(player, pose);
      var packet := MovedPacket(player.entity, pose, stamp);
      assert Connected(now) == on;
      SendOnSameScene(player.sceneName, packet, None, now);
    }

    method DoEvents(ph: Physics, player: Client, control: SpatialComponent, pose: Pose, events: seq<Event>, now: int,
                    stamp: u64)
        returns (last: Pose)
      requires Valid() && player in players && control.Control? && IsPose(pose)
      modifies Members(players)`apiVersion, Members(players)`sendQueue, scene.Repr
      ensures Valid() && fresh(scene.Repr - old(scene.Repr)) && old(scene.Repr) <= scene.Repr
      ensures State() == Moves(old(State()), player, MovePoses(ph, control, pose, events), old(Connected(now)), stamp)
      ensures IsPose(last) && last == LastPose(pose, MovePoses(ph, control, pose, events))
    {
      hide R.View, Bounded, Distinct, Registry.Valid, Registry.Model, Client.Record, Move, Seconds, MovePoses,
           MayMove, IsMove,
        PoseKept, IsPose;
      ghost var w, on := State(), Connected(now);
      ghost var done: seq<Pose> := [];
      NoPoses(ph, control, pose);
      last := pose;
      for i := 0 to |events|
        invariant Valid() && fresh(scene.Repr - old(scene.Repr)) && old(scene.Repr) <= scene.Repr
        invariant IsPose(last) && Connected(now) == on
        invariant (forall q :: q in done ==> IsPose(q)) && last == LastPose(pose, done)
        invariant MovePoses(ph, control, pose, events) == done + MovePoses(ph, control, last, events[i..])
        invariant State() == Moves(w, player, done, on, stamp)
      {
        var event := events[i];
        MovePosesStep(ph, control, last, events, i);
        if IsMove(event) {
          var permitted := MayMove(control, event);
          if permitted {
            last := PoseKept(last, ph.move(last, event));
          }
          MoveTo(player, last, now, stamp);
          MovesOneMore(w, player, done, last, on, stamp);
          Associative(done, [last], MovePoses(ph, control, last, events[i + 1..]));
          done := done + [last];
        }
      }
      NoPoses(ph, control, last);
      assert events[|events|..] == [];
      Empty(done);
    }

    method DoAxes(ph: Physics, player: Client, control: SpatialComponent, pose: Pose, axes: seq<EventAxis>, now: int,
                  stamp: u64)
      requires Valid() && player in players && control.Control? && IsPose(pose)
      modifies Members(players)`apiVersion, Members(players)`sendQueue, scene.Repr
      ensures Valid() && fresh(scene.Repr - old(scene.Repr)) && old(scene.Repr) <= scene.Repr
      ensures State() == Moves(old(State()), player, LookPoses(ph, control, pose, axes), old(Connected(now)), stamp)
    {
      hide R.View, Bounded, Distinct, Registry.Valid, Registry.Model, Client.Record, Move, Seconds, LookPoses, MayLook,
        PoseKept, IsPose;
      ghost var w, on := State(), Connected(now);
      ghost var done: seq<Pose> := [];
      NoPoses(ph, control, pose);
      var last := pose;
      for i := 0 to |axes|
        invariant Valid() && fresh(scene.Repr - old(scene.Repr)) && old(scene.Repr) <= scene.Repr
        invariant IsPose(last) && Connected(now) == on
        invariant forall q :: q in done ==> IsPose(q)
        invariant LookPoses(ph, control, pose, axes) == done + LookPoses(ph, control, last, axes[i..])
        invariant State() == Moves(w, player, done, on, stamp)
      {
        var axis := axes[i];
        LookPosesStep(ph, control, last, axes, i);
        if MayLook(control, axis) {
          last := PoseKept(last, ph.look(last, axis));
          MoveTo(player, last, now, stamp);
          MovesOneMore(w, player, done, last, on, stamp);
          Associative(done, [last], LookPoses(ph, control, last, axes[i + 1..]));
          done := done + [last];
        }
      }
      NoPoses(ph, control, last);
      assert axes[|axes|..] == [];
      Empty(done);
    }

    /** The events, then the axis events. */
    method DoBoth(ph: Physics, player: Client, control: SpatialComponent, pose: Pose, events: seq<Event>,
                  axes: seq<EventAxis>,
                  now: int, stamp: u64)
      requires Valid() && player in players && control.Control? && IsPose(pose)
      modifies Members(players)`apiVersion, Members(players)`sendQueue, scene.Repr
      ensures Valid() && fresh(scene.Repr - old(scene.Repr)) && old(scene.Repr) <= scene.Repr
      ensures State() == Moves(old(State()), player, EventPoses(ph, control, pose, events, axes), old(Connected(now)),
                               stamp)
    {
      hide R.View, Bounded, Distinct, Registry.Valid, Registry.Model, Client.Record, Moves, MovePoses, LookPoses,
           LastPose,
        Seconds, IsPose;
      ghost var w, on := State(), Connected(now);
      var last := DoEvents(ph, player, control, pose, events, now, stamp);
      assert Connected(now) == on;
      DoAxes(ph, player, control, last, axes, now, stamp);
      MovesSum(w, player, MovePoses(ph, control, pose, events), LookPoses(ph, control, last, axes), on, stamp);
    }

    /** handleEvents */
    method HandleEvents(ph: Physics, player: Client, payload: seq<byte>, now: int, stamp: u64)
      requires Valid() && player in players
      modifies Members(players)`apiVersion, Members(players)`sendQueue, scene.Repr
      ensures Valid() && fresh(scene.Repr - old(scene.Repr)) && old(scene.Repr) <= scene.Repr
      ensures State() == GameModel.HandleEvents(ph, old(State()), player, payload, old(Connected(now)), stamp)
    {
      hide R.View, Bounded, Distinct, Registry.Valid, Registry.Model, Client.Record, Moves, EventPoses, Walked,
        Seconds, Controllable, IsPose, GameModel.HandleEvents;
      ghost var w, on := State(), Connected(now);
      player.RecordFields();
      EventsAre(ph, w, player, payload, on, stamp);
      var r := FindControllable(player.entity);
      if r.Some? {
        var events := ReadEvents(payload);
        if events.Some? {
          assert Connected(now) == on;
          DoBoth(ph, player, r.value.0, r.value.1, events.value.0, events.value.1, now, stamp);
        }
      }
    }

    /** The entity's control, movable and transform, if it has all three. */
    method FindControllable(e: nat) returns (r: Option<(SpatialComponent, Pose)>)
      requires Valid()
      modifies scene.Repr
      ensures Valid() && fresh(scene.Repr - old(scene.Repr)) && old(scene.Repr) <= scene.Repr
      ensures State() == old(State()) && r == Controllable(Table(), e)
    {
      hide R.View, Bounded, Distinct, Registry.Valid, Registry.Model, Client.Record, R.Touched;
      ghost var t, records := Table(), Records();
      R.GetRefines(scene.Model(), CONTROL_3D, e);
      var control := scene.GetAt(CONTROL_3D, e);
      R.GetRefines(scene.Model(), MOVABLE_3D, e);
      var movable := scene.GetAt(MOVABLE_3D, e);
      R.GetRefines(scene.Model(), TRANSFORM_3D, e);
      var transform := scene.GetAt(TRANSFORM_3D, e);
      assert Table() == t && Records() == records;
      if control.Some? && movable.Some? && transform.Some?
         && control.value.Spatial? && movable.value.Spatial? && transform.value.Spatial?
         && control.value.spatial.Control? && movable.value.spatial.Movable? && transform.value.spatial.Transform? {
        return Some((control.value.spatial, Pose(transform.value.spatial, movable.value.spatial)));
      }
      return None;
    }

    // ---------------------------------------------------------------- a frame of the game

    method PopFrom(player: Client) returns (packet: Frame)
      requires Valid() && player in players && player.receiveQueue != []
      modifies player`receiveQueue
      ensures Valid() && packet == old(player.receiveQueue)[0]
      ensures State() == old(State()).(peers := old(Records())[player :=
        old(player.Record()).(inbox := old(player.receiveQueue)[1..])])
    {
      hide R.View, Bounded, Distinct, Registry.Valid, Registry.Model, Client.Record;
      packet := player.PopReceived();
      assert Records() == old(Records())[player := player.Record()];
    }

    /** The reply goes to the player's own queue. */
    method ReplyTo(player: Client, request: Frame, stamp: u64)
      requires Valid() && player in players
      modifies player`apiVersion, player`sendQueue
      ensures Valid()
      ensures State() == old(State()).(peers := old(Records())[player :=
        Deliver(old(player.Record()), HeartbeatReply(request, stamp))])
    {
      hide R.View, Bounded, Distinct, Registry.Valid, Registry.Model, Client.Record, Deliver;
      var packet := new Packet(LOW, request.header.api, REP_HEARTBEAT, stamp);
      player.AddPacketToSendQueue(packet.Value());
      assert Records() == old(Records())[player := player.Record()];
    }

    method ConsumeOne(ph: Physics, player: Client, now: int, stamp: u64)
      requires Valid() && player in players && player.receiveQueue != []
      modifies player`receiveQueue, Members(players)`apiVersion, Members(players)`sendQueue, scene.Repr
      ensures Valid() && fresh(scene.Repr - old(scene.Repr)) && old(scene.Repr) <= scene.Repr
      ensures old(player.Record()).inbox != []
      ensures State() == Consume(ph, old(State()), player, old(Connected(now)), stamp)
    {
      hide R.View, Bounded, Distinct, Registry.Valid, Registry.Model, Client.Record, GameModel.HandleEvents, Deliver,
           HeartbeatReply,
        Seconds;
      ghost var on := Connected(now);
      player.RecordFields();
      var packet := PopFrom(player);
      assert Connected(now) == on;
      if packet.header.command == REQ_USER_UPDATES {
        HandleEvents(ph, player, packet.payload, now, stamp);
      } else if packet.header.command == REQ_HEARTBEAT {
        ReplyTo(player, packet, stamp);
      }
    }

    /** The inner loop of updateIncomingPackets. */
    method ConsumeSome(ph: Physics, player: Client, now: int, stamp: u64)
      requires Valid() && player in players
      modifies player`receiveQueue, Members(players)`apiVersion, Members(players)`sendQueue, scene.Repr
      ensures Valid() && fresh(scene.Repr - old(scene.Repr)) && old(scene.Repr) <= scene.Repr
      ensures State() == ConsumeUpTo(ph, old(State()), player, MAX_MESSAGES, old(Connected(now)), stamp)
    {
      hide R.View, Bounded, Distinct, Registry.Valid, Registry.Model, Client.Record, Consume, Seconds;
      ghost var w, on := State(), Connected(now);
      player.RecordFields();
      var messageCount: nat := MAX_MESSAGES;
      while player.receiveQueue != [] && messageCount > 0
        invariant Valid() && fresh(scene.Repr - old(scene.Repr)) && old(scene.Repr) <= scene.Repr
        invariant Connected(now) == on && player.Record().inbox == player.receiveQueue
        invariant ConsumeUpTo(ph, State(), player, messageCount, on, stamp)
          == ConsumeUpTo(ph, w, player, MAX_MESSAGES, on, stamp)
        decreases messageCount
      {
        ConsumeOne(ph, player, now, stamp);
        player.RecordFields();
        messageCount := messageCount - 1;
      }
    }

    /** updateIncomingPackets */
    method UpdateIncomingPackets(ph: Physics, now: int, stamp: u64)
      requires Valid()
      modifies Members(players)`receiveQueue, Members(players)`apiVersion, Members(players)`sendQueue, scene.Repr
      ensures Valid() && fresh(scene.Repr - old(scene.Repr)) && old(scene.Repr) <= scene.Repr
      ensures State() == Incoming(ph, old(State()), players, old(Connected(now)), stamp)
    {
      hide R.View, Bounded, Distinct, Registry.Valid, Registry.Model, Client.Record, ConsumeUpTo, Seconds;
      ghost var w, on := State(), Connected(now);
      for i := 0 to |players|
        invariant Valid() && fresh(scene.Repr - old(scene.Repr)) && old(scene.Repr) <= scene.Repr
        invariant Connected(now) == on
        invariant Incoming(ph, State(), players[i..], on, stamp) == Incoming(ph, w, players, on, stamp)
      {
        var player := players[i];
        assert players[i..][0] == player && players[i..][1..] == players[i + 1..];
        var connected := player.IsConnected(now);
        if connected {
          ConsumeSome(ph, player, now, stamp);
        }
      }
      assert players[|players|..] == [];
    }

    /** updateOutcomingPackets; the datagrams go to the socket, each to its player's address. */
    method UpdateOutcomingPackets(now: int) returns (sends: seq<(Address, seq<byte>)>)
      requires Valid()
      modifies Members(players)`sendQueue, Members(players)`sent, Members(players)`datagrams
      ensures Valid()
      ensures State() == Outgoing(old(State()), old(Connected(now)))
      ensures sends == Sends(players, old(Connected(now)), old(Records()))
    {
      hide R.View, Bounded, Distinct, Registry.Valid, Registry.Model, Client.Record, Flushed, Sends;
      ghost var w, on := State(), Connected(now);
      sends := FlushAll(players, now, on, w.peers);
      OutgoingIs(w, on, Records());
    }

    // ---------------------------------------------------------------- the spawn_enemy system

    /** spawn_enemy and what loadSystems does with its answer. `due` is the outcome of the timer test, `clock` the
        time put into the timer, and `position` the random position. */
    method SpawnEnemies(due: bool, clock: u64, position: Vec3, now: int, stamp: u64) returns (thrown: bool)
      requires Valid()
      modifies this`live, Members(players)`apiVersion, Members(players)`sendQueue, scene.Repr
      ensures Valid() && fresh(scene.Repr - old(scene.Repr)) && old(scene.Repr) <= scene.Repr
      ensures match SpawnEnemy(config, old(State()), old(Ready(scene.Model())), due, clock, position,
                               old(Connected(now)), stamp)
        case None => thrown
        case Some(w') => !thrown && State() == w'
    {
      hide R.View, Bounded, Distinct, Registry.Valid, Registry.Model, Client.Record, SpawnEnemy, Hatching, Seconds,
        FirstSpawner, Broadcast, Rewound, IsSpawner;
      ghost var w, on := State(), Connected(now);
      SpawnIs(config, w, Ready(scene.Model()), due, clock, position, on, stamp);
      var ready := IsReady(scene);
      if !ready {
        return false;
      }
      var spawner := FindSpawner();
      if spawner.None? || !due {
        return false;
      }
      var blueprint := Rewind(spawner.value, clock);
      var count := CountTagged(ENEMY);
      assert Connected(now) == on;
      if count >= MAX_ENEMIES {
        return false;
      }
      thrown := Hatch(blueprint, position, now, stamp);
    }

    method FindSpawner() returns (r: Option<nat>)
      requires Valid()
      modifies scene.Repr
      ensures Valid() && fresh(scene.Repr - old(scene.Repr)) && old(scene.Repr) <= scene.Repr
      ensures State() == old(State()) && r == FirstSpawner(Table(), Table().next)
    {
      hide R.View, Bounded, Distinct, Registry.Valid, Registry.Model, Client.Record, FirstSpawner;
      ghost var records := Records();
      r := SearchSpawner(scene);
      assert Records() == records;
    }

    /** The timer is set back; what it will spawn is read off the spawner. */
    method Rewind(spawner: nat, clock: u64) returns (blueprint: CommonComponent)
      requires Valid() && IsSpawner(Table(), spawner)
      modifies scene.Repr
      ensures Valid() && fresh(scene.Repr - old(scene.Repr)) && old(scene.Repr) <= scene.Repr
      ensures State() == old(State()).(table := Rewound(old(Table()), spawner, clock))
      ensures IsSpawner(Table(), spawner) && blueprint == BlueprintAt(Table(), spawner)
    {
      hide R.View, Bounded, Distinct, Registry.Valid, Registry.Model, Client.Record, Rewound, IsSpawner;
      ghost var records := Records();
      RewoundBounded(Table(), spawner, clock);
      blueprint := RewindTimer(scene, spawner, clock);
      assert Records() == records;
    }

    method CountTagged(tag: text) returns (count: nat)
      requires Valid()
      modifies scene.Repr
      ensures Valid() && fresh(scene.Repr - old(scene.Repr)) && old(scene.Repr) <= scene.Repr
      ensures State() == old(State()) && count == |Bearers(Table(), tag)|
    {
      hide R.View, Bounded, Distinct, Registry.Valid, Registry.Model, Client.Record, Bearers;
      ghost var records := Records();
      count := CountEntities(scene, tag);
      assert Records() == records;
    }

    /** The branch that spawns. */
    method Hatch(blueprint: CommonComponent, position: Vec3, now: int, stamp: u64) returns (thrown: bool)
      requires Valid() && blueprint.Template?
      modifies this`live, Members(players)`apiVersion, Members(players)`sendQueue, scene.Repr
      ensures Valid() && fresh(scene.Repr - old(scene.Repr)) && old(scene.Repr) <= scene.Repr
      ensures match Hatching(config, old(State()), blueprint, position, old(Connected(now)), stamp)
        case None => thrown
        case Some(w') => !thrown && State() == w'
    {
      hide R.View, Bounded, Distinct, Registry.Valid, Registry.Model, Client.Record, Broadcast, SpawnFrame, EntityOf,
           Seconds,
        R.Allocate, Equip, PlacedAt;
      ghost var w, on := State(), Connected(now);
      var e := BirthAt(blueprint.content, position);
      if e.None? {
        return true;
      }
      assert Connected(now) == on;
      var packet := SpawnPacketOf(e.value, blueprint.name, stamp);
      assert Connected(now) == on;
      SendOnSameScene(config.scene, packet, None, now);
      return false;
    }

    method BirthAt(content: seq<Component>, position: Vec3) returns (e: Option<nat>)
      requires Valid()
      modifies this`live, scene.Repr
      ensures Valid() && fresh(scene.Repr - old(scene.Repr)) && old(scene.Repr) <= scene.Repr
      ensures e.Some? == R.Allocate(old(Table())).Some?
      ensures e.Some? ==> e.value == R.Allocate(old(Table())).value.1
      ensures e.Some? ==> State() == old(State()).(
        table := PlacedAt(Equip(R.Allocate(old(Table())).value.0, e.value, content), e.value, position),
        live := old(live) + {e.value})
    {
      hide R.View, Bounded, Distinct, Registry.Valid, Registry.Model, Client.Record, R.Allocate, Equip, PlacedAt;
      ghost var records := Records();
      e := Birth(scene, content);
      if e.Some? {
        PlacedBounded(Table(), e.value, position);
        Place(scene, e.value, position);
        live := live + {e.value};
      }
      assert Records() == records;
    }

    method SpawnPacketOf(e: nat, name: text, stamp: u64) returns (packet: Packet)
      requires Valid()
      modifies scene.Repr
      ensures Valid() && fresh(scene.Repr - old(scene.Repr)) && old(scene.Repr) <= scene.Repr
      ensures State() == old(State()) && fresh(packet) && packet !in scene.Repr
      ensures packet.Value() == SpawnFrame(V_1, e, name, EntityOf(Table(), e), stamp)
    {
      hide R.View, Bounded, Distinct, Registry.Valid, Registry.Model, Client.Record, SpawnFrame, EntityOf;
      ghost var records := Records();
      packet := SpawnPacket(scene, V_1, e, name, stamp);
      assert Records() == records;
    }
  }

  // ---------------------------------------------------------------- the loops of spawn_enemy

  /** The three component types that must be registered. */
  predicate Ready(s: R.Store<Kind, Component>) {
    R.TypeRegistered(s, TRANSFORM_3D) && R.TypeRegistered(s, TAG) && R.TypeRegistered(s, SPAWNED)
  }

  method IsReady(registry: Registry<Kind, Component>) returns (b: bool)
    requires registry.Valid()
    ensures b == Ready(registry.Model())
  {
    hide R.TypeRegistered, Registry.Valid, Registry.Model;
    var transforms := registry.IsTypeRegistered(TRANSFORM_3D);
    var tags := registry.IsTypeRegistered(TAG);
    var spawned := registry.IsTypeRegistered(SPAWNED);
    b := transforms && tags && spawned;
  }

  /** The tests on one entity; each look grows an array unseen. */
  method IsSpawnerAt(registry: Registry<Kind, Component>, e: nat) returns (b: bool)
    requires registry.Valid()
    modifies registry.Repr
    ensures registry.Valid() && fresh(registry.Repr - old(registry.Repr)) && old(registry.Repr) <= registry.Repr
    ensures R.View(registry.Model()) == old(R.View(registry.Model())) && b == IsSpawner(R.View(registry.Model()), e)
  {
    hide R.View, Registry.Valid, Registry.Model, R.Touched;
    R.GetRefines(registry.Model(), TRANSFORM_3D, e);
    var transform := registry.GetAt(TRANSFORM_3D, e);
    R.GetRefines(registry.Model(), TAG, e);
    var tag := registry.GetAt(TAG, e);
    R.GetRefines(registry.Model(), BOXCOLLIDER, e);
    var box := registry.GetAt(BOXCOLLIDER, e);
    R.GetRefines(registry.Model(), TIMER, e);
    var timer := registry.GetAt(TIMER, e);
    R.GetRefines(registry.Model(), TEMPLATE, e);
    var template := registry.GetAt(TEMPLATE, e);
    b := transform.Some? && tag == Some(Common(Tag(SKYBOX))) && box.Some?
      && timer.Some? && timer.value.Common? && timer.value.common.Timer?
      && template.Some? && template.value.Common? && template.value.common.Template?;
  }

  lemma {:induction false} NoSpawner(t: Scene, n: nat)
    ensures FirstSpawner(t, n) == None <==> forall e: nat :: e < n ==> !IsSpawner(t, e)
    decreases n
  {
    hide IsSpawner;
    if n > 0 {
      NoSpawner(t, n - 1);
    }
  }

  lemma {:induction false} FoundSpawner(t: Scene, e: nat, n: nat)
    requires e < n && IsSpawner(t, e) && FirstSpawner(t, e) == None
    ensures FirstSpawner(t, n) == Some(e)
    decreases n
  {
    hide IsSpawner;
    if n > e + 1 {
      FoundSpawner(t, e, n - 1);
    }
  }

  /** A spawner has a transform and a tag, so its id is below both arrays' sizes and below the counter. */
  lemma SpawnersAreBelow(s: R.Store<Kind, Component>)
    requires Bounded(R.View(s))
    ensures forall e: nat :: IsSpawner(R.View(s), e) ==>
      e < |R.Column(s, TRANSFORM_3D)| && e < |R.Column(s, TAG)| && e < R.View(s).next
  {
    hide R.View;
    forall e: nat | IsSpawner(R.View(s), e)
      ensures e < |R.Column(s, TRANSFORM_3D)| && e < |R.Column(s, TAG)| && e < R.View(s).next
    {
      R.ViewCells(s, TRANSFORM_3D, e);
      R.ViewCells(s, TAG, e);
      assert (TAG, e) in R.View(s).cells;
    }
  }

  /** The loop of spawn_enemy up to the first spawner. */
  method SearchSpawner(registry: Registry<Kind, Component>) returns (r: Option<nat>)
    requires registry.Valid() && Bounded(R.View(registry.Model()))
    modifies registry.Repr
    ensures registry.Valid() && fresh(registry.Repr - old(registry.Repr)) && old(registry.Repr) <= registry.Repr
    ensures R.View(registry.Model()) == old(R.View(registry.Model()))
    ensures r == FirstSpawner(R.View(registry.Model()), R.View(registry.Model()).next)
  {
    hide R.View, Registry.Valid, Registry.Model, R.Registered, IsSpawner, FirstSpawner, Bounded;
    ghost var t := R.View(registry.Model());
    SpawnersAreBelow(registry.Model());
    R.RegisterIsInvisible(registry.Model(), TRANSFORM_3D);
    OtherColumn(registry.Model(), TRANSFORM_3D, TAG);
    var transforms := registry.GetComponents(TRANSFORM_3D);
    var n := |transforms.data|;
    R.RegisterIsInvisible(registry.Model(), TAG);
    var tags := registry.GetComponents(TAG);
    n := if n < |tags.data| then n else |tags.data|;
    NoSpawner(t, 0);
    for i := 0 to n
      invariant registry.Valid() && fresh(registry.Repr - old(registry.Repr)) && old(registry.Repr) <= registry.Repr
      invariant R.View(registry.Model()) == t && FirstSpawner(t, i) == None
    {
      var b := IsSpawnerAt(registry, i);
      if b {
        FoundSpawner(t, i, t.next);
        return Some(i);
      }
      NoSpawner(t, i);
      NoSpawner(t, i + 1);
    }
    NoSpawner(t, n);
    NoSpawner(t, t.next);
    return None;
  }

  lemma OtherColumn(s: R.Store<Kind, Component>, k: Kind, j: Kind)
    ensures R.Column(R.Registered(s, k), j) == R.Column(s, j)
  {
  }

  function BlueprintAt(t: Scene, spawner: nat): (c: CommonComponent)
    requires IsSpawner(t, spawner)
    ensures c.Template?
  {
    R.Lookup(t, TEMPLATE, spawner).value.common
  }

  lemma RewoundBounded(t: Scene, spawner: nat, clock: u64)
    requires Bounded(t) && IsSpawner(t, spawner)
    ensures var u := Rewound(t, spawner, clock);
      Bounded(u) && u.next == t.next && IsSpawner(u, spawner)
  {
    assert (TAG, spawner) in t.cells;
  }

  method RewindTimer(registry: Registry<Kind, Component>, spawner: nat, clock: u64) returns (blueprint: CommonComponent)
    requires registry.Valid() && IsSpawner(R.View(registry.Model()), spawner)
    modifies registry.Repr
    ensures registry.Valid() && fresh(registry.Repr - old(registry.Repr)) && old(registry.Repr) <= registry.Repr
    ensures R.View(registry.Model()) == Rewound(old(R.View(registry.Model())), spawner, clock)
    ensures IsSpawner(R.View(registry.Model()), spawner) && blueprint == BlueprintAt(R.View(registry.Model()), spawner)
  {
    hide R.View, Registry.Valid, Registry.Model, R.Touched, R.Added;
    R.GetRefines(registry.Model(), TEMPLATE, spawner);
    var template := registry.GetAt(TEMPLATE, spawner);
    R.GetRefines(registry.Model(), TIMER, spawner);
    var timer := registry.GetAt(TIMER, spawner);
    R.AddIsPut(registry.Model(), TIMER, spawner, Common(Timer(clock, timer.value.common.maxTime)));
    registry.AddComponent(TIMER, spawner, Common(Timer(clock, timer.value.common.maxTime)));
    blueprint := template.value.common;
  }

  lemma PlacedBounded(t: Scene, e: nat, position: Vec3)
    requires Bounded(t)
    ensures Bounded(PlacedAt(t, e, position)) && PlacedAt(t, e, position).next == t.next
  {
  }

  method Place(registry: Registry<Kind, Component>, e: nat, position: Vec3)
    requires registry.Valid()
    modifies registry.Repr
    ensures registry.Valid() && fresh(registry.Repr - old(registry.Repr)) && old(registry.Repr) <= registry.Repr
    ensures R.View(registry.Model()) == PlacedAt(old(R.View(registry.Model())), e, position)
  {
    hide R.View, Registry.Valid, Registry.Model, R.Touched, R.Added, R.Put;
    R.GetRefines(registry.Model(), TRANSFORM_3D, e);
    var transform := registry.GetAt(TRANSFORM_3D, e);
    if transform.Some? && transform.value.Spatial? && transform.value.spatial.Transform? {
      R.AddIsPut(registry.Model(), TRANSFORM_3D, e, Spatial(transform.value.spatial.(position := position)));
      registry.AddComponent(TRANSFORM_3D, e, Spatial(transform.value.spatial.(position := position)));
    }
  }

  function BearersBelow(t: Scene, tag: text, n: nat): set<nat> {
    set e | e in Bearers(t, tag) && e < n
  }

  lemma BearersNext(t: Scene, tag: text, n: nat)
    ensures BearersBelow(t, tag, n + 1) == BearersBelow(t, tag, n) + if HasTag(t, n, tag) then {n} else {}
    ensures n !in BearersBelow(t, tag, n)
  {
    hide HasTag;
    IsBearer(t, tag, n);
  }

  lemma IsBearer(t: Scene, tag: text, e: nat)
    ensures e in Bearers(t, tag) <==> HasTag(t, e, tag)
  {
    if HasTag(t, e, tag) {
      assert (TAG, e) in t.cells && (TAG, e).1 == e;
    }
  }

  lemma AllBearersBelow(s: R.Store<Kind, Component>, tag: text)
    ensures BearersBelow(R.View(s), tag, |R.Column(s, TAG)|) == Bearers(R.View(s), tag)
    ensures BearersBelow(R.View(s), tag, 0) == {}
  {
    hide R.View, Bearers;
    forall e | e in Bearers(R.View(s), tag)
      ensures e < |R.Column(s, TAG)|
    {
      IsBearer(R.View(s), tag, e);
      R.ViewCells(s, TAG, e);
    }
  }

  /** count_entities: how many entities carry the tag. */
  method CountEntities(registry: Registry<Kind, Component>, tag: text) returns (count: nat)
    requires registry.Valid()
    modifies registry.Repr
    ensures registry.Valid() && fresh(registry.Repr - old(registry.Repr)) && old(registry.Repr) <= registry.Repr
    ensures R.View(registry.Model()) == old(R.View(registry.Model()))
    ensures count == |Bearers(R.View(registry.Model()), tag)|
  {
    hide R.View, Registry.Valid, Registry.Model, R.Registered, R.Touched, Bearers, BearersBelow;
    ghost var t := R.View(registry.Model());
    AllBearersBelow(registry.Model(), tag);
    var registered := registry.IsTypeRegistered(TAG);
    if !registered {
      return 0;
    }
    R.RegisterIsInvisible(registry.Model(), TAG);
    var tags := registry.GetComponents(TAG);
    var n := |tags.data|;
    count := 0;
    for i := 0 to n
      invariant registry.Valid() && fresh(registry.Repr - old(registry.Repr)) && old(registry.Repr) <= registry.Repr
      invariant R.View(registry.Model()) == t && count == |BearersBelow(t, tag, i)|
    {
      R.GetRefines(registry.Model(), TAG, i);
      var component := registry.GetAt(TAG, i);
      BearersNext(t, tag, i);
      if component == Some(Common(Tag(tag))) {
        count := count + 1;
      }
    }
  }

  ghost function Hatching(cfg: Config, w: World<Client>, blueprint: CommonComponent, position: Vec3,
                          on: set<Client>, stamp: u64): Option<World<Client>>
    requires blueprint.Template?
  {
    match R.Allocate(w.table)
    case None => None
    case Some(r) =>
      var table := PlacedAt(Equip(r.0, r.1, blueprint.content), r.1, position);
      Some(Broadcast(w.(table := table, live := w.live + {r.1}), on, cfg.scene,
                     SpawnFrame(V_1, r.1, blueprint.name, EntityOf(table, r.1), stamp), None))
  }

  lemma SpawnIs(cfg: Config, w: World<Client>, ready: bool, due: bool, clock: u64, position: Vec3, on: set<Client>,
                stamp: u64)
    ensures var spawner := FirstSpawner(w.table, w.table.next);
      var r := SpawnEnemy(cfg, w, ready, due, clock, position, on, stamp);
      if !ready || spawner.None? || !due then r == Some(w) else
      var t := Rewound(w.table, spawner.value, clock);
      && IsSpawner(t, spawner.value)
      && if |Bearers(t, ENEMY)| >= MAX_ENEMIES then r == Some(w.(table := t))
         else r == Hatching(cfg, w.(table := t), BlueprintAt(t, spawner.value), position, on, stamp)
  {
    hide Broadcast, Equip, PlacedAt, SpawnFrame, EntityOf, Bearers, R.Allocate;
  }

  lemma NoPoses(ph: Physics, control: SpatialComponent, p: Pose)
    requires control.Control? && IsPose(p)
    ensures MovePoses(ph, control, p, []) == [] && LookPoses(ph, control, p, []) == []
  {
  }

  lemma MovePosesStep(ph: Physics, control: SpatialComponent, p: Pose, es: seq<Event>, i: nat)
    requires control.Control? && IsPose(p) && i < |es|
    ensures var q := if MayMove(control, es[i]) then PoseKept(p, ph.move(p, es[i])) else p;
      && IsPose(q)
      && MovePoses(ph, control, p, es[i..]) ==
         if IsMove(es[i]) then [q] + MovePoses(ph, control, q, es[i + 1..]) else MovePoses(ph, control, p, es[i + 1..])
  {
    hide MayMove, IsMove;
    assert es[i..][0] == es[i] && es[i..][1..] == es[i + 1..];
  }

  lemma LookPosesStep(ph: Physics, control: SpatialComponent, p: Pose, xs: seq<EventAxis>, i: nat)
    requires control.Control? && IsPose(p) && i < |xs|
    ensures var q := PoseKept(p, ph.look(p, xs[i]));
      && IsPose(q)
      && LookPoses(ph, control, p, xs[i..]) ==
         if MayLook(control, xs[i]) then [q] + LookPoses(ph, control, q, xs[i + 1..])
         else LookPoses(ph, control, p, xs[i + 1..])
  {
    hide MayLook;
    assert xs[i..][0] == xs[i] && xs[i..][1..] == xs[i + 1..];
  }

  /** The datagrams of one frame, in the order of the players. */
  ghost function Sends(players: seq<Client>, on: set<Client>, peers: map<Client, Peer>): seq<(Address, seq<byte>)>
    requires forall c :: c in players ==> c in peers
  {
    if players == [] then [] else
    var c := players[|players| - 1];
    Sends(players[..|players| - 1], on, peers) +
    if c in on && peers[c].queue != [] then [(c.address, ClientApi.Joined(NextBatch(peers[c])))] else []
  }

  /** The loop over the connected players. */
  method FlushAll(players: seq<Client>, now: int, ghost on: set<Client>, ghost peers: map<Client, Peer>)
      returns (sends: seq<(Address, seq<byte>)>)
    requires Distinct(players)
    requires forall c :: c in players ==> c in peers && peers[c] == c.Record() && (c in on <==> c.IsConnected(now))
    modifies Members(players)`sendQueue, Members(players)`sent, Members(players)`datagrams
    ensures forall c :: c in players ==> c.Record() == if c in on then Flushed(peers[c]) else peers[c]
    ensures sends == Sends(players, on, peers)
  {
    hide Flushed, NextBatch, Client.Record, Seconds, ClientApi.Joined, Sends;
    sends := [];
    SendsNone(on, peers);
    assert players[..0] == [];
    for i := 0 to |players|
      invariant forall j :: i <= j < |players| ==> players[j].Record() == peers[players[j]]
      invariant forall j :: 0 <= j < i ==>
        players[j].Record() == if players[j] in on then Flushed(peers[players[j]]) else peers[players[j]]
      invariant sends == Sends(players[..i], on, peers)
    {
      var player := players[i];
      player.RecordFields();
      SendsStep(players, i, on, peers);
      var connected := player.IsConnected(now);
      if connected {
        var datagram := player.Flush();
        if |datagram| > 0 {
          sends := sends + [(player.address, datagram)];
        }
      }
    }
    assert players[..|players|] == players;
  }

  lemma SendsNone(on: set<Client>, peers: map<Client, Peer>)
    ensures Sends([], on, peers) == []
  {
  }

  lemma SendsStep(players: seq<Client>, i: nat, on: set<Client>, peers: map<Client, Peer>)
    requires i < |players| && forall c :: c in players ==> c in peers
    ensures var c := players[i];
      Sends(players[..i + 1], on, peers) ==
        if c in on && peers[c].queue != []
        then Sends(players[..i], on, peers) + [(c.address, ClientApi.Joined(NextBatch(peers[c])))]
        else Sends(players[..i], on, peers)
  {
    hide NextBatch, ClientApi.Joined;
    assert players[..i + 1][..i] == players[..i];
    Empty(Sends(players[..i], on, peers));
  }

  lemma OutgoingIs(w: World<Client>, on: set<Client>, after: map<Client, Peer>)
    requires after.Keys == w.peers.Keys && forall c :: c in w.peers ==> c in w.players
    requires forall c :: c in w.peers ==> after[c] == if c in on then Flushed(w.peers[c]) else w.peers[c]
    ensures Outgoing(w, on) == w.(peers := after)
  {
    hide Flushed;
    assert Outgoing(w, on).peers == after;
  }

  /** Every pose a USER_UPDATES packet leads to. */
  ghost function EventPoses(ph: Physics, control: SpatialComponent, pose: Pose, events: seq<Event>,
                            axes: seq<EventAxis>)
      : (ps: seq<Pose>)
    requires control.Control? && IsPose(pose)
    ensures forall p :: p in ps ==> IsPose(p)
  {
    var moves := MovePoses(ph, control, pose, events);
    LastIsPose(pose, moves);
    moves + LookPoses(ph, control, LastPose(pose, moves), axes)
  }

  lemma EventsAre(ph: Physics, w: World<Client>, c: Client, payload: seq<byte>, on: set<Client>, stamp: u64)
    requires c in w.peers
    ensures var r := Controllable(w.table, w.peers[c].entity);
      GameModel.HandleEvents(ph, w, c, payload, on, stamp) ==
        if r.None? || Walked(payload).None? then w else
        Moves(w, c, EventPoses(ph, r.value.0, r.value.1, Walked(payload).value.0, Walked(payload).value.1), on, stamp)
  {
    hide Controllable, Walked, Moves, MovePoses, LookPoses;
  }

  ghost function Posed(t: Scene, e: nat, pose: Pose): Scene {
    R.Put(R.Put(t, MOVABLE_3D, e, Spatial(pose.movable)), TRANSFORM_3D, e, Spatial(pose.transform))
  }

  lemma PosedBounded(t: Scene, e: nat, pose: Pose)
    requires Bounded(t) && e < t.next
    ensures Bounded(Posed(t, e, pose)) && Posed(t, e, pose).next == t.next
    ensures Posed(t, e, pose) == R.Put(R.Put(t, MOVABLE_3D, e, Spatial(pose.movable)), TRANSFORM_3D, e,
                                       Spatial(pose.transform))
  {
  }

  lemma MoveIs(w: World<Client>, c: Client, pose: Pose, on: set<Client>, stamp: u64)
    requires c in w.peers && IsPose(pose)
    ensures var e := w.peers[c].entity;
      Move(w, c, pose, on, stamp)
        == Broadcast(w.(table := Posed(w.table, e, pose)), on, w.peers[c].scene, MovedFrame(V_1, e, pose, stamp), None)
  {
    hide Broadcast, MovedFrame, R.Put;
  }

  /** The packet of sendUpdatePosition. */
  method MovedPacket(e: nat, pose: Pose, stamp: u64) returns (packet: Packet)
    requires IsPose(pose)
    ensures fresh(packet) && packet.Value() == MovedFrame(V_1, e, pose, stamp)
  {
    hide Put, Floats;
    var (o, r, s) := (pose.transform.position, pose.transform.rotation, pose.transform.scale);
    var (v, a) := (pose.movable.velocity, pose.movable.acceleration);
    packet := new Packet(LOW, V_1, REQ_ENTITY_MOVED, stamp);
    AppendAll(packet, [IdField(e)] +
      Floats([o.x, o.y, o.z, r.x, r.y, r.z, r.w, s.x, s.y, s.z, v.x, v.y, v.z, a.x, a.y, a.z]));
  }

  lemma {:induction false} MovesSum(w: World<Client>, c: Client, a: seq<Pose>, b: seq<Pose>, on: set<Client>,
                                    stamp: u64)
    requires c in w.peers && (forall p :: p in a ==> IsPose(p)) && forall p :: p in b ==> IsPose(p)
    ensures Moves(w, c, a + b, on, stamp) == Moves(Moves(w, c, a, on, stamp), c, b, on, stamp)
    decreases |a|
  {
    hide Move, IsPose;
    if a == [] {
      Empty(b);
    } else {
      HeadOfSum(a, b);
      assert a[0] in a;
      MovesSum(Move(w, c, a[0], on, stamp), c, a[1..], b, on, stamp);
    }
  }

  lemma MovesOneMore(w: World<Client>, c: Client, done: seq<Pose>, p: Pose, on: set<Client>, stamp: u64)
    requires c in w.peers && (forall q :: q in done ==> IsPose(q)) && IsPose(p)
    ensures Moves(w, c, done + [p], on, stamp) == Move(Moves(w, c, done, on, stamp), c, p, on, stamp)
  {
    hide Move, IsPose;
    MovesSum(w, c, done, [p], on, stamp);
    assert [p][1..] == [];
  }

  lemma DistinctMore(players: seq<Client>, client: Client)
    requires Distinct(players) && client !in players
    ensures Distinct(players + [client])
  {
  }

  ghost function Enrolled(cfg: Config, w: World<Client>, c: Client, peer: Peer, stamp: u64, base: Scene,
                          e: nat): World<Client> {
    World(Equip(base, e, cfg.player.components), w.live + {e}, w.players + [c],
          w.peers[c := Greeted(cfg, peer, e, stamp)])
  }

  ghost function Introduced(cfg: Config, w: World<Client>, c: Client, on: set<Client>, stamp: u64): World<Client>
    requires c in w.peers
  {
    var (e, api) := (w.peers[c].entity, w.peers[c].api);
    var w2 := Broadcast(w, on, cfg.scene, SpawnFrame(api, e, cfg.player.name, map[], stamp), Some(c));
    w2.(peers := w2.peers[c :=
      w.peers[c].(queue := w.peers[c].queue + VisibleFrames(w.table, w.table.next, e, api, stamp))])
  }

  lemma WithPlayerIs(cfg: Config, w: World<Client>, c: Client, peer: Peer, on: set<Client>, stamp: u64, base: Scene,
                     e: nat)
    ensures Introduced(cfg, Enrolled(cfg, w, c, peer, stamp, base, e), c, on, stamp)
      == WithPlayer(cfg, w, c, peer, on, stamp, base, e)
  {
    hide Broadcast, Equip, VisibleFrames, SpawnFrame, ConnectFrame;
    Transport.ConnectNews(peer.api, e, cfg.player.name, cfg.scene, stamp);
  }

  lemma NotTold(w: World<Client>, on: set<Client>, sceneName: text, f: Frame, c: Client)
    requires c in w.peers
    ensures Broadcast(w, on, sceneName, f, Some(c)).peers[c] == w.peers[c]
  {
  }

  /** setEntity and the CONNECT packet. */
  method Greet(client: Client, config: Config, e: nat, stamp: u64, ghost peer: Peer)
    requires client.Record() == peer.(scene := config.scene)
    modifies client`entity, client`joined, client`apiVersion, client`sendQueue
    ensures client.Record() == Greeted(config, peer, e, stamp)
    ensures client.entity == e && client.apiVersion == peer.api
  {
    hide Put, PutString, ConnectFrame;
    client.entity, client.joined := e, |client.sent + client.sendQueue|;
    var packet := new Packet(LOW, client.apiVersion, REP_CONNECT, stamp);
    packet.Append(ToLE(8, e));
    packet.InjectString(config.player.name);
    packet.InjectString(config.scene);
    ConnectBuilt(client.apiVersion, e, config.player.name, config.scene, stamp);
    Transport.ConnectNews(client.apiVersion, e, config.player.name, config.scene, stamp);
    client.AddPacketToSendQueue(packet.Value());
  }

  /** spawn_entity, then the template's components. */
  method Birth(registry: Registry<Kind, Component>, cs: seq<Component>) returns (e: Option<nat>)
    requires registry.Valid() && Bounded(R.View(registry.Model()))
    modifies registry.Repr
    ensures registry.Valid() && fresh(registry.Repr - old(registry.Repr)) && old(registry.Repr) <= registry.Repr
    ensures Bounded(R.View(registry.Model()))
    ensures e.Some? == R.Allocate(old(R.View(registry.Model()))).Some?
    ensures e.None? ==> R.View(registry.Model()) == old(R.View(registry.Model()))
    ensures e.Some? ==> var (base, id) := R.Allocate(old(R.View(registry.Model()))).value;
      e.value == id && R.View(registry.Model()) == Equip(base, id, cs) && id < R.View(registry.Model()).next
    ensures old(R.View(registry.Model())).next <= R.View(registry.Model()).next
  {
    hide R.View, Registry.Valid, Registry.Model, R.Spawned, Equip;
    ghost var t := R.View(registry.Model());
    R.SpawnRefines(registry.Model());
    e := registry.SpawnEntity();
    if e.Some? {
      AllocateBounded(t);
      EquipBounded(R.Allocate(t).value.0, e.value, cs);
      EquipCell(R.Allocate(t).value.0, e.value, cs, TAG, 0);
      RegistryEntityByTemplate(registry, e.value, cs);
    }
  }

  lemma AllocateBounded(t: Scene)
    requires Bounded(t) && R.Allocate(t).Some?
    ensures var (u, e) := R.Allocate(t).value; Bounded(u) && e < u.next && t.next <= u.next
  {
    if t.dead != [] {
      DeadBelow(t);
    }
  }

  lemma DeadBelow(t: Scene)
    requires Bounded(t) && t.dead != []
    ensures t.dead[0] < t.next && forall e :: e in t.dead[1..] ==> e < t.next
  {
    assert t.dead[0] in t.dead;
    forall e | e in t.dead[1..]
      ensures e < t.next
    {
      assert e in t.dead;
    }
  }

  lemma ConnectBuilt(api: nibble, e: nat, name: text, scene: text, stamp: u64)
    ensures PutString(PutString(Put(Blank(api, REP_CONNECT, stamp), ToLE(8, e)), name), scene)
      == ConnectFrame(api, e, name, scene, stamp)
  {
    hide Put, PutString;
    var blank := Blank(api, REP_CONNECT, stamp);
    assert [IdField(e), Str(name), Str(scene)] == [IdField(e)] + ([Str(name)] + [Str(scene)]);
    WriteAllSum(blank, [IdField(e)], [Str(name)] + [Str(scene)]);
    WriteOne(blank, IdField(e));
    WriteAllSum(Put(blank, ToLE(8, e)), [Str(name)], [Str(scene)]);
    WriteOne(Put(blank, ToLE(8, e)), Str(name));
    WriteOne(PutString(Put(blank, ToLE(8, e)), name), Str(scene));
  }

  /** A SPAWN packet without components. */
  lemma SpawnBare(api: nibble, e: nat, name: text, stamp: u64)
    ensures PutString(Put(Blank(api, REQ_ENTITY_SPAWN, stamp), ToLE(8, e)), name)
      == SpawnFrame(api, e, name, map[], stamp)
  {
    hide StreamFields, Put, PutString;
    SpawnBuilt(api, e, name, map[], stamp);
    NothingToStream(ORDER);
    WriteNothing(PutString(Put(Blank(api, REQ_ENTITY_SPAWN, stamp), ToLE(8, e)), name));
  }

  lemma {:induction false} NothingToStream(order: seq<Kind>)
    ensures StreamFields(order, map[]) == []
    decreases |order|
  {
    if order != [] {
      NothingToStream(order[1..]);
    }
  }

  /** The loop over the players, which must not list anyone twice. */
  method SendTo(players: seq<Client>, sceneName: text, packet: Packet, except: Option<Client>, now: int,
                ghost on: set<Client>, ghost peers: map<Client, Peer>)
    requires Distinct(players)
    requires forall c :: c in players ==> c in peers && peers[c] == c.Record() && (c in on <==> c.IsConnected(now))
    modifies packet`header, Members(players)`apiVersion, Members(players)`sendQueue
    ensures forall c :: c in players ==>
      c.Record() == HeardBy(peers[c], old(packet.Value()), c in on && peers[c].scene == sceneName && except != Some(c))
    ensures packet.Value() == WithApi(old(packet.Value()), packet.header.api)
  {
    hide Deliver, WithApi, HeardBy, Client.Record, Seconds;
    ghost var f := packet.Value();
    VersionTwice(f, f.header.api, f.header.api);
    for i := 0 to |players|
      invariant packet.Value() == WithApi(f, packet.header.api)
      invariant forall j :: i <= j < |players| ==> players[j].Record() == peers[players[j]]
      invariant forall j :: 0 <= j < i ==> players[j].Record() == HeardBy(peers[players[j]], f,
                  players[j] in on && peers[players[j]].scene == sceneName && except != Some(players[j]))
    {
      var player := players[i];
      player.RecordFields();
      HeardOrNot(peers[player], f);
      var connected := player.IsConnected(now);
      if connected && player.sceneName == sceneName && except != Some(player) {
        ghost var was := packet.Value();
        VersionTwice(f, packet.header.api, player.apiVersion);
        VersionTwice(was, packet.header.api, player.apiVersion);
        packet.header := packet.header.(api := player.apiVersion);
        player.AddPacketToSendQueue(packet.Value());
      }
    }
  }

  lemma HeardOrNot(p: Peer, f: Frame)
    ensures HeardBy(p, f, false) == p && HeardBy(p, f, true) == Deliver(p, WithApi(f, p.api))
  {
  }

  lemma RemoveIs(w: World<Client>, c: Client, on: set<Client>, stamp: u64)
    requires c in w.players && c in w.peers
    ensures var e := w.peers[c].entity;
      GameModel.RemovePlayer(w, c, on, stamp) ==
        Some(Broadcast(World(R.Retire(w.table, e), w.live - {e}, Without(w.players, c), w.peers - {c}),
                       on, w.peers[c].scene, DestroyFrame(V_1, e, stamp), None))
  {
    hide Broadcast, Without, R.Retire, DestroyFrame;
  }

  /** Only whether players are connected matters. */
  lemma BroadcastSame(w: World<Client>, on: set<Client>, also: set<Client>, sceneName: text, f: Frame,
                      except: Option<Client>)
    requires forall c :: c in w.players ==> (c in on <==> c in also)
    ensures Broadcast(w, on, sceneName, f, except) == Broadcast(w, also, sceneName, f, except)
  {
    hide Deliver, WithApi;
    assert Broadcast(w, on, sceneName, f, except).peers == Broadcast(w, also, sceneName, f, except).peers;
  }

  lemma BroadcastIs(w: World<Client>, on: set<Client>, sceneName: text, f: Frame, except: Option<Client>,
                    after: map<Client, Peer>)
    requires after.Keys == w.peers.Keys && forall c :: c in w.peers ==> c in w.players
    requires forall c :: c in w.peers ==>
      after[c] == HeardBy(w.peers[c], f, c in on && w.peers[c].scene == sceneName && except != Some(c))
    ensures Broadcast(w, on, sceneName, f, except) == w.(peers := after)
  {
    hide Deliver, WithApi;
    assert Broadcast(w, on, sceneName, f, except).peers == after;
  }

  function HeardBy(p: Peer, f: Frame, hears: bool): Peer {
    if hears then Deliver(p, WithApi(f, p.api)) else p
  }

  lemma VersionTwice(f: Frame, was: nibble, api: nibble)
    ensures WithApi(WithApi(f, was), api) == WithApi(f, api) == Frame(f.header.(api := api), f.payload)
  {
  }

  method Kill(registry: Registry<Kind, Component>, e: nat)
    requires registry.Valid()
    modifies registry.Repr
    ensures registry.Valid() && fresh(registry.Repr - old(registry.Repr)) && old(registry.Repr) <= registry.Repr
    ensures R.View(registry.Model()) == R.Retire(old(R.View(registry.Model())), e)
  {
    hide R.View, R.Retire, R.Killed, Registry.Valid, Registry.Model, R.Wired;
    registry.ValidIsWired();
    R.KillIsKill(registry.Model(), e);
    registry.KillEntity(e);
  }

  lemma RetireBounded(t: Scene, e: nat)
    requires Bounded(t) && e < t.next
    ensures Bounded(R.Retire(t, e)) && R.Retire(t, e).next == t.next
  {
  }

  lemma DestroyBuilt(e: nat, stamp: u64)
    ensures Put(Blank(V_1, REQ_ENTITY_DESTROY, stamp), ToLE(8, e)) == DestroyFrame(V_1, e, stamp)
  {
    WriteOne(Blank(V_1, REQ_ENTITY_DESTROY, stamp), IdField(e));
  }

  lemma SpawnBuilt(api: nibble, e: nat, name: text, entity: Entity, stamp: u64)
    ensures WriteAll(PutString(Put(Blank(api, REQ_ENTITY_SPAWN, stamp), ToLE(8, e)), name), StreamFields(ORDER, entity))
      == SpawnFrame(api, e, name, entity, stamp)
  {
    hide StreamFields, Put, PutString;
    var blank := Blank(api, REQ_ENTITY_SPAWN, stamp);
    assert [IdField(e), Str(name)] == [IdField(e)] + [Str(name)];
    WriteAllSum(blank, [IdField(e)], [Str(name)]);
    WriteOne(blank, IdField(e));
    WriteOne(Put(blank, ToLE(8, e)), Str(name));
    WriteAllSum(blank, [IdField(e), Str(name)], StreamFields(ORDER, entity));
  }

  /** A SPAWN packet with all the entity's components. */
  method SpawnPacket(registry: Registry<Kind, Component>, api: nibble, e: nat, name: text, stamp: u64)
      returns (packet: Packet)
    requires registry.Valid()
    modifies registry.Repr
    ensures registry.Valid() && fresh(registry.Repr - old(registry.Repr)) && old(registry.Repr) <= registry.Repr
    ensures R.View(registry.Model()) == old(R.View(registry.Model()))
    ensures fresh(packet) && packet !in registry.Repr
    ensures packet.Value() == SpawnFrame(api, e, name, EntityOf(R.View(registry.Model()), e), stamp)
  {
    hide R.View, EntityOf, StreamFields, SpawnFrame, WriteAll, Put, PutString, Registry.Valid, Registry.Model;
    packet := new Packet(LOW, api, REQ_ENTITY_SPAWN, stamp);
    packet.Append(ToLE(8, e));
    packet.InjectString(name);
    SpawnBuilt(api, e, name, EntityOf(R.View(registry.Model()), e), stamp);
    AddComponentsToPacketByEntity(packet, registry, e);
  }

  /** Beyond the transforms there is nothing to show. */
  lemma {:induction false} NothingVisible(t: Scene, n: nat, m: nat, self: nat, api: nibble, stamp: u64)
    requires n <= m && forall e: nat :: n <= e < m ==> !IsVisible(t, e)
    ensures VisibleFrames(t, n, self, api, stamp) == VisibleFrames(t, m, self, api, stamp)
    decreases m - n
  {
    hide IsVisible, SpawnFrame, EntityOf;
    if n < m {
      NothingVisible(t, n, m - 1, self, api, stamp);
    }
  }

  lemma VisibleBelowNext(t: Scene, n: nat, self: nat, api: nibble, stamp: u64)
    requires Bounded(t) && forall e: nat :: IsVisible(t, e) ==> e < n
    ensures VisibleFrames(t, n, self, api, stamp) == VisibleFrames(t, t.next, self, api, stamp)
  {
    hide VisibleFrames;
    forall e: nat | t.next <= e
      ensures !IsVisible(t, e)
    {
      assert (TRANSFORM_3D, e) !in t.cells;
    }
    if n <= t.next {
      NothingVisible(t, n, t.next, self, api, stamp);
    } else {
      NothingVisible(t, t.next, n, self, api, stamp);
    }
  }

  lemma VisibleHaveTransforms(s: R.Store<Kind, Component>)
    ensures forall e: nat :: IsVisible(R.View(s), e) ==> e < |R.Column(s, TRANSFORM_3D)|
  {
    hide R.View, HasTag;
    forall e: nat | IsVisible(R.View(s), e)
      ensures e < |R.Column(s, TRANSFORM_3D)|
    {
      R.ViewCells(s, TRANSFORM_3D, e);
    }
  }

  /** What sendAllEntitiesToPlayer does for the entity e. */
  method ShowOne(registry: Registry<Kind, Component>, player: Client, e: nat, stamp: u64)
    requires registry.Valid() && player !in registry.Repr
    modifies player`apiVersion, player`sendQueue, registry.Repr
    ensures registry.Valid() && fresh(registry.Repr - old(registry.Repr)) && old(registry.Repr) <= registry.Repr
    ensures R.View(registry.Model()) == old(R.View(registry.Model()))
    ensures player.Record() == Shown(old(player.Record()), old(R.View(registry.Model())), e, stamp)
  {
    hide R.View, EntityOf, SpawnFrame, Registry.Valid, Registry.Model, R.Touched, R.Registered;
    ghost var t := R.View(registry.Model());
    R.GetRefines(registry.Model(), TRANSFORM_3D, e);
    var transform := registry.GetAt(TRANSFORM_3D, e);
    R.GetRefines(registry.Model(), TAG, e);
    var tag := registry.GetAt(TAG, e);
    assert player.Record() == old(player.Record());
    assert IsVisible(t, e) <==> transform.Some? && tag.Some? && tag.value != Common(Tag(SKYBOX));
    assert tag.Some? ==> (TAG, e) in t.cells && t.cells[(TAG, e)] == tag.value;
    if transform.Some? && tag.Some? && tag.value != Common(Tag(SKYBOX)) && e != player.entity {
      var packet := SpawnPacket(registry, player.apiVersion, e, TagOf(tag.value), stamp);
      Transport.SpawnNews(player.apiVersion, e, TagOf(tag.value), EntityOf(t, e), stamp);
      player.AddPacketToSendQueue(packet.Value());
    } else {
      Empty(player.sendQueue);
    }
  }

  function Shown(p: Peer, t: Scene, e: nat, stamp: u64): Peer {
    p.(queue := p.queue + if IsVisible(t, e) && e != p.entity
       then [SpawnFrame(p.api, e, TagOf(t.cells[(TAG, e)]), EntityOf(t, e), stamp)] else [])
  }

  lemma ShownNext(p: Peer, t: Scene, e: nat, stamp: u64)
    ensures Shown(p.(queue := p.queue + VisibleFrames(t, e, p.entity, p.api, stamp)), t, e, stamp)
      == p.(queue := p.queue + VisibleFrames(t, e + 1, p.entity, p.api, stamp))
  {
    hide SpawnFrame, EntityOf;
    Associative(p.queue, VisibleFrames(t, e, p.entity, p.api, stamp), if IsVisible(t, e) && e != p.entity
       then [SpawnFrame(p.api, e, TagOf(t.cells[(TAG, e)]), EntityOf(t, e), stamp)] else []);
  }

  lemma ShownNothing(p: Peer, t: Scene, stamp: u64)
    ensures p == p.(queue := p.queue + VisibleFrames(t, 0, p.entity, p.api, stamp))
  {
    Empty(p.queue);
  }

  /** The loop of sendAllEntitiesToPlayer, over the array of transforms. */
  method SendVisible(registry: Registry<Kind, Component>, player: Client, stamp: u64) returns (ghost size: nat)
    requires registry.Valid() && player !in registry.Repr
    modifies player`apiVersion, player`sendQueue, registry.Repr
    ensures registry.Valid() && fresh(registry.Repr - old(registry.Repr)) && old(registry.Repr) <= registry.Repr
    ensures R.View(registry.Model()) == old(R.View(registry.Model()))
    ensures forall e: nat :: IsVisible(R.View(registry.Model()), e) ==> e < size
    ensures player.Record() == old(player.Record()).(queue := old(player.sendQueue) +
      VisibleFrames(R.View(registry.Model()), size, player.entity, old(player.apiVersion), stamp))
  {
    hide R.View, Shown, IsVisible, VisibleFrames, Registry.Valid, Registry.Model, R.Registered;
    ghost var t, p := R.View(registry.Model()), player.Record();
    R.RegisterIsInvisible(registry.Model(), TRANSFORM_3D);
    VisibleHaveTransforms(registry.Model());
    var transforms := registry.GetComponents(TRANSFORM_3D);
    var n := |transforms.data|;
    ShownNothing(p, t, stamp);
    for i := 0 to n
      invariant registry.Valid() && fresh(registry.Repr - old(registry.Repr)) && old(registry.Repr) <= registry.Repr
      invariant player !in registry.Repr && R.View(registry.Model()) == t
      invariant player.Record() == p.(queue := p.queue + VisibleFrames(t, i, p.entity, p.api, stamp))
    {
      ShowOne(registry, player, i, stamp);
      ShownNext(p, t, i, stamp);
    }
    size := n;
  }
}
