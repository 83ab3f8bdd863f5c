/** Flakkari/Server/Game/Game as a state and its transitions. C stands for the identity of a client object. */
module GameModel {
  import opened Wrappers
  import opened Bytes
  import opened Sequences
  import opened Packets
  import opened PayloadStreams
  import opened Components
  import opened ComponentStreams
  import R = Registries
  import opened UserEvents
  import ClientApi

  /** What the game keeps in a client object. `sent`, `datagrams` and `joined` record the past: the packets taken
      from the send queue, the datagrams they left in, and how many packets had been queued when it joined. */
  datatype Peer = Peer(entity: nat, scene: text, api: nibble, queue: seq<Frame>, inbox: seq<Frame>,
                       sent: seq<Frame>, datagrams: seq<seq<byte>>, joined: nat)

  /** Every packet ever queued to the client, in order. */
  function Log(p: Peer): seq<Frame> {
    p.sent + p.queue
  }

  type Scene = R.Table<Kind, Component>

  /** The start scene, its live entities, and the players in order of arrival. */
  datatype World<C(==)> = World(table: Scene, live: set<nat>, players: seq<C>, peers: map<C, Peer>)

  datatype Blueprint = Blueprint(name: text, components: seq<Component>)

  datatype Config = Config(scene: text, maxPlayers: nat, player: Blueprint)

  const SKYBOX: text := [83, 107, 121, 98, 111, 120]
  const ENEMY: text := [69, 110, 101, 109, 121]
  const MAX_ENEMIES := 10
  const MAX_MESSAGES := 20

  // ---------------------------------------------------------------- entities

  /** RegistryEntityByTemplate: one add_component per entry. */
  function Equip(t: Scene, e: nat, cs: seq<Component>): Scene
    decreases |cs|
  {
    if cs == [] then t else Equip(R.Put(t, KindOf(cs[0]), e, cs[0]), e, cs[1..])
  }

  /** loadScene: each entity of the scene gets the next id and the components of its template. */
  function Loaded(entities: seq<seq<Component>>): Scene {
    if entities == [] then R.Table(map[], [], 0) else
    var t := Loaded(entities[..|entities| - 1]);
    Equip(t.(next := t.next + 1), t.next, entities[|entities| - 1])
  }

  predicate HasTag(t: Scene, e: nat, tag: text) {
    R.Lookup(t, TAG, e) == Some(Common(Tag(tag)))
  }

  /** What sendAllEntitiesToPlayer sends: a 3D transform and a tag other than the skybox's. */
  predicate IsVisible(t: Scene, e: nat) {
    R.Lookup(t, TRANSFORM_3D, e).Some? && R.Lookup(t, TAG, e).Some? && !HasTag(t, e, SKYBOX)
  }

  function VisibleSet(t: Scene): set<nat> {
    set c | c in t.cells && IsVisible(t, c.1) :: c.1
  }

  function TagOf(c: Component): text {
    match c
    case Common(Tag(tag)) => tag
    case _ => []
  }

  /** The ids below n. */
  function FirstIds(n: nat): set<nat> {
    if n == 0 then {} else FirstIds(n - 1) + {n - 1}
  }

  function EntityOf(t: Scene, e: nat): Entity {
    map k: Kind | (k, e) in t.cells :: t.cells[(k, e)]
  }

  // ---------------------------------------------------------------- packets

  function Blank(api: nibble, command: byte, stamp: u64): Frame {
    Frame(Header(LOW, api, command, 0, stamp), [])
  }

  /** An entity is a size_t. */
  function IdField(e: nat): Field {
    Raw(ToLE(8, e))
  }

  /** REP_CONNECT: id, template, scene. */
  function ConnectFrame(api: nibble, e: nat, blueprint: text, scene: text, stamp: u64): Frame {
    WriteAll(Blank(api, REP_CONNECT, stamp), [IdField(e), Str(blueprint), Str(scene)])
  }

  /** REQ_ENTITY_SPAWN: id, name, and whatever components are listed. */
  function SpawnFrame(api: nibble, e: nat, name: text, entity: Entity, stamp: u64): Frame {
    WriteAll(Blank(api, REQ_ENTITY_SPAWN, stamp), [IdField(e), Str(name)] + StreamFields(ORDER, entity))
  }

  function DestroyFrame(api: nibble, e: nat, stamp: u64): Frame {
    WriteAll(Blank(api, REQ_ENTITY_DESTROY, stamp), [IdField(e)])
  }

  datatype Pose = Pose(transform: SpatialComponent, movable: SpatialComponent)

  /** Only a Transform and a Movable are ever stored under these kinds. */
  predicate IsPose(p: Pose) {
    p.transform.Transform? && p.movable.Movable?
  }

  /** REQ_ENTITY_MOVED: id, position, rotation, scale, velocity, acceleration. */
  function MovedFrame(api: nibble, e: nat, p: Pose, stamp: u64): Frame
    requires IsPose(p)
  {
    var (o, r, s) := (p.transform.position, p.transform.rotation, p.transform.scale);
    var (v, a) := (p.movable.velocity, p.movable.acceleration);
    WriteAll(Blank(api, REQ_ENTITY_MOVED, stamp),
             [IdField(e)] + Floats([o.x, o.y, o.z, r.x, r.y, r.z, r.w, s.x, s.y, s.z, v.x, v.y, v.z, a.x, a.y, a.z]))
  }

  function HeartbeatReply(request: Frame, stamp: u64): Frame {
    Blank(request.header.api, REP_HEARTBEAT, stamp)
  }

  // ---------------------------------------------------------------- queues

  function WithApi(f: Frame, api: nibble): Frame {
    f.(header := f.header.(api := api))
  }

  /** addPacketToSendQueue: the client takes over the packet's version. */
  function Deliver(p: Peer, f: Frame): Peer {
    p.(api := f.header.api, queue := p.queue + [f])
  }

  /** addPacketToReceiveQueue */
  function Accept(p: Peer, f: Frame): Peer {
    p.(api := f.header.api, inbox := p.inbox + [f])
  }

  /** The tests of sendOnSameScene and sendOnSameSceneExcept. */
  predicate Hears<C(==)>(w: World<C>, connected: set<C>, scene: text, except: Option<C>, c: C)
    requires c in w.peers
  {
    c in w.players && c in connected && w.peers[c].scene == scene && except != Some(c)
  }

  /** The record of a player after a broadcast. */
  function Told<C>(w: World<C>, connected: set<C>, scene: text, f: Frame, except: Option<C>, c: C): Peer
    requires c in w.peers
  {
    if Hears(w, connected, scene, except, c) then Deliver(w.peers[c], WithApi(f, w.peers[c].api)) else w.peers[c]
  }

  function Broadcast<C>(w: World<C>, connected: set<C>, scene: text, f: Frame, except: Option<C>): World<C> {
    w.(peers := map c | c in w.peers :: Told(w, connected, scene, f, except, c))
  }

  /** sendAllEntitiesToPlayer, for the entities below n: in order of id, without the player's own. */
  function VisibleFrames(t: Scene, n: nat, self: nat, api: nibble, stamp: u64): seq<Frame> {
    if n == 0 then [] else
    VisibleFrames(t, n - 1, self, api, stamp) +
    if IsVisible(t, n - 1) && n - 1 != self
    then [SpawnFrame(api, n - 1, TagOf(t.cells[(TAG, n - 1)]), EntityOf(t, n - 1), stamp)] else []
  }

  // ---------------------------------------------------------------- players

  /** Thrown: the registry has no identifier left. */
  datatype Admission<C(==)> = Refused | Thrown | Admitted(w: World<C>)

  /** The roster part of Game::addPlayer's decision. */
  predicate MayJoin<C(==)>(players: seq<C>, maxPlayers: nat, connected: set<C>, c: C) {
    c !in players && |players| < maxPlayers && c in connected
  }

  /** addPlayer, for a client that brings the record `peer`. */
  function AddPlayer<C(==)>(cfg: Config, w: World<C>, c: C, peer: Peer, connected: set<C>, stamp: u64): Admission<C> {
    if !MayJoin(w.players, cfg.maxPlayers, connected, c) then Refused else
    match R.Allocate(w.table)
    case None => Thrown
    case Some(r) => Admitted(WithPlayer(cfg, w, c, peer, connected, stamp, r.0, r.1))
  }

  /** The newcomer's record once CONNECT is queued: id, template and scene. */
  function Greeted(cfg: Config, peer: Peer, e: nat, stamp: u64): Peer {
    Deliver(peer.(scene := cfg.scene, entity := e, joined := |Log(peer)|),
            ConnectFrame(peer.api, e, cfg.player.name, cfg.scene, stamp))
  }

  function WithPlayer<C(==)>(cfg: Config, w: World<C>, c: C, peer: Peer, connected: set<C>, stamp: u64,
                             base: Scene, e: nat): World<C> {
    var table := Equip(base, e, cfg.player.components);
    var greeted := Greeted(cfg, peer, e, stamp);
    var w1 := World(table, w.live + {e}, w.players + [c], w.peers[c := greeted]);
    var w2 := Broadcast(w1, connected, cfg.scene, SpawnFrame(peer.api, e, cfg.player.name, map[], stamp), Some(c));
    w2.(peers := w2.peers[c :=
      greeted.(queue := greeted.queue + VisibleFrames(table, table.next, e, peer.api, stamp))])
  }

  function Without<C(==)>(players: seq<C>, c: C): seq<C> {
    if players == [] then [] else
    if players[0] == c then players[1..] else [players[0]] + Without(players[1..], c)
  }

  predicate LeavesOthers<C(==)>(players: seq<C>, c: C, left: seq<C>) {
    && Distinct(left) && (forall d :: d in left ==> d in players && d != c)
    && forall d :: d in players && d != c ==> d in left
  }

  /** Erasing the first occurrence removes the player, who is listed once, and nobody else. */
  lemma {:induction false} WithoutOne<C>(players: seq<C>, c: C)
    requires Distinct(players)
    ensures LeavesOthers(players, c, Without(players, c))
    decreases |players|
  {
    if players != [] {
      DistinctTail(players);
      WithoutOne(players[1..], c);
    }
  }

  /** The others keep their order. */
  lemma {:induction false} WithoutMiddle<C>(before: seq<C>, c: C, behind: seq<C>)
    requires c !in before
    ensures Without(before + [c] + behind, c) == before + behind
    decreases |before|
  {
    var all := before + [c] + behind;
    if before == [] {
      assert all == [c] + behind;
      HeadOfSum([c], behind);
      Empty(behind);
    } else {
      WithoutMiddle(before[1..], c, behind);
      assert all[1..] == before[1..] + [c] + behind;
      assert [before[0]] + (before[1..] + behind) == before + behind;
    }
  }

  /** removePlayer: off the list, entity killed, the others told. */
  function RemovePlayer<C(==)>(w: World<C>, c: C, connected: set<C>, stamp: u64): Option<World<C>>
    requires c in w.players ==> c in w.peers
  {
    if c !in w.players then None else
    var e, scene := w.peers[c].entity, w.peers[c].scene;
    var w1 := World(R.Retire(w.table, e), w.live - {e}, Without(w.players, c), w.peers - {c});
    Some(Broadcast(w1, connected, scene, DestroyFrame(V_1, e, stamp), None))
  }

  // ---------------------------------------------------------------- enemies

  /** The entity whose timer drives spawn_enemy: a skybox with a transform, a box, a timer and a template. */
  predicate IsSpawner(t: Scene, e: nat) {
    && R.Lookup(t, TRANSFORM_3D, e).Some? && HasTag(t, e, SKYBOX) && R.Lookup(t, BOXCOLLIDER, e).Some?
    && (R.Lookup(t, TIMER, e).Some? && R.Lookup(t, TIMER, e).value.Common? && R.Lookup(t, TIMER, e).value.common.Timer?)
    && (R.Lookup(t, TEMPLATE, e).Some? && R.Lookup(t, TEMPLATE, e).value.Common?
        && R.Lookup(t, TEMPLATE, e).value.common.Template?)
  }

  function FirstSpawner(t: Scene, n: nat): (r: Option<nat>)
    ensures r.Some? ==> r.value < n && IsSpawner(t, r.value)
  {
    if n == 0 then None else
    match FirstSpawner(t, n - 1)
    case Some(e) => Some(e)
    case None => if IsSpawner(t, n - 1) then Some(n - 1) else None
  }

  /** The entities with this tag. */
  function Bearers(t: Scene, tag: text): set<nat> {
    set c | c in t.cells && HasTag(t, c.1, tag) :: c.1
  }

  function Enemies(t: Scene): set<nat> {
    Bearers(t, ENEMY)
  }

  ghost predicate SameTags(t: Scene, u: Scene) {
    forall e: nat :: R.Lookup(u, TAG, e) == R.Lookup(t, TAG, e)
  }

  /** The new entity's transform is put at a random position, if its template gave it one. */
  function PlacedAt(t: Scene, e: nat, position: Vec3): Scene {
    var c: Option<Component> := R.Lookup(t, TRANSFORM_3D, e);
    if c.Some? && c.value.Spatial? && c.value.spatial.Transform?
    then R.Put(t, TRANSFORM_3D, e, Spatial(c.value.spatial.(position := position)))
    else t
  }

  function Rewound(t: Scene, spawner: nat, now: u64): Scene
    requires IsSpawner(t, spawner)
  {
    R.Put(t, TIMER, spawner, Common(Timer(now, R.Lookup(t, TIMER, spawner).value.common.maxTime)))
  }

  /** The spawn_enemy system. `ready` is its first guard (the component types are registered) and `due` its timer. */
  function SpawnEnemy<C(==)>(cfg: Config, w: World<C>, ready: bool, due: bool, now: u64, position: Vec3,
                             connected: set<C>, stamp: u64): Option<World<C>> {
    var spawner := FirstSpawner(w.table, w.table.next);
    if !ready || spawner.None? || !due then Some(w) else
    var t := Rewound(w.table, spawner.value, now);
    if |Enemies(t)| >= MAX_ENEMIES then Some(w.(table := t)) else
    match R.Allocate(t)
    case None => None
    case Some(r) =>
      var (base, e) := r;
      var blueprint := R.Lookup(t, TEMPLATE, spawner.value).value.common;
      var table := PlacedAt(Equip(base, e, blueprint.content), e, position);
      var w1 := w.(table := table, live := w.live + {e});
      Some(Broadcast(w1, connected, cfg.scene, SpawnFrame(V_1, e, blueprint.name, EntityOf(table, e), stamp), None))
  }

  // ---------------------------------------------------------------- events

  /** The float arithmetic of handleMoveEvent and of the two look events, left open. */
  datatype Physics = Physics(move: (Pose, Event) -> Pose, look: (Pose, EventAxis) -> Pose)

  const MOVE_LEFT: byte := 0
  const MOVE_RIGHT: byte := 1
  const MOVE_UP: byte := 2
  const MOVE_DOWN: byte := 3
  const MOVE_FRONT: byte := 4
  const MOVE_BACK: byte := 5
  const LOOK_RIGHT: byte := 7
  const LOOK_UP: byte := 8

  /** handleMoveEvent answers true for the six moves, permitted or not. */
  predicate IsMove(e: Event) {
    e.id <= MOVE_BACK
  }

  predicate MayMove(control: SpatialComponent, e: Event)
    requires control.Control?
  {
    (e.id == MOVE_FRONT && control.moveFront) || (e.id == MOVE_BACK && control.moveBack)
    || (e.id == MOVE_RIGHT && control.moveRight) || (e.id == MOVE_LEFT && control.moveLeft)
    || (e.id == MOVE_UP && control.moveUp) || (e.id == MOVE_DOWN && control.moveDown)
  }

  predicate MayLook(control: SpatialComponent, x: EventAxis)
    requires control.Control?
  {
    (x.id == LOOK_RIGHT && control.lookRight) || (x.id == LOOK_UP && control.lookUp)
  }

  /** A float update keeps transforms transforms and movables movables. */
  function PoseKept(was: Pose, now: Pose): (p: Pose)
    ensures IsPose(was) ==> IsPose(p)
  {
    if IsPose(now) then now else was
  }

  /** The poses after which handleEvents sends an update, in order. */
  function MovePoses(ph: Physics, control: SpatialComponent, p: Pose, es: seq<Event>): (ps: seq<Pose>)
    requires control.Control? && IsPose(p)
    ensures forall q :: q in ps ==> IsPose(q)
    decreases |es|
  {
    if es == [] then [] else
    if !IsMove(es[0]) then MovePoses(ph, control, p, es[1..]) else
    var q := if MayMove(control, es[0]) then PoseKept(p, ph.move(p, es[0])) else p;
    [q] + MovePoses(ph, control, q, es[1..])
  }

  function LookPoses(ph: Physics, control: SpatialComponent, p: Pose, xs: seq<EventAxis>): (ps: seq<Pose>)
    requires control.Control? && IsPose(p)
    ensures forall q :: q in ps ==> IsPose(q)
    decreases |xs|
  {
    if xs == [] then [] else
    if !MayLook(control, xs[0]) then LookPoses(ph, control, p, xs[1..]) else
    var q := PoseKept(p, ph.look(p, xs[0]));
    [q] + LookPoses(ph, control, q, xs[1..])
  }

  /** One update: the components change in place, and everyone in the scene is told. */
  function Move<C>(w: World<C>, c: C, p: Pose, connected: set<C>, stamp: u64): (w': World<C>)
    requires c in w.peers && IsPose(p)
    ensures w'.peers.Keys == w.peers.Keys
  {
    var e := w.peers[c].entity;
    var w1 := w.(table := R.Put(R.Put(w.table, MOVABLE_3D, e, Spatial(p.movable)), TRANSFORM_3D, e,
                                Spatial(p.transform)));
    Broadcast(w1, connected, w.peers[c].scene, MovedFrame(V_1, e, p, stamp), None)
  }

  function Moves<C>(w: World<C>, c: C, ps: seq<Pose>, connected: set<C>, stamp: u64): (w': World<C>)
    requires c in w.peers && forall p :: p in ps ==> IsPose(p)
    ensures w'.peers.Keys == w.peers.Keys && w'.players == w.players && SameTags(w.table, w'.table)
    decreases |ps|
  {
    if ps == [] then w else
    assert ps[0] in ps;
    Moves(Move(w, c, ps[0], connected, stamp), c, ps[1..], connected, stamp)
  }

  /** The entity's components, if it can be controlled and moved. */
  function Controllable(t: Scene, e: nat): (r: Option<(SpatialComponent, Pose)>)
    ensures r.Some? ==> r.value.0.Control? && IsPose(r.value.1)
  {
    var control: Option<Component> := R.Lookup(t, CONTROL_3D, e);
    var movable: Option<Component> := R.Lookup(t, MOVABLE_3D, e);
    var transform: Option<Component> := R.Lookup(t, TRANSFORM_3D, e);
    if control.Some? && movable.Some? && transform.Some?
       && control.value.Spatial? && movable.value.Spatial? && transform.value.Spatial?
       && control.value.spatial.Control? && movable.value.spatial.Movable? && transform.value.spatial.Transform?
    then Some((control.value.spatial, Pose(transform.value.spatial, movable.value.spatial)))
    else None
  }

  function LastPose(p: Pose, ps: seq<Pose>): Pose {
    if ps == [] then p else ps[|ps| - 1]
  }

  /** handleEvents; a payload the walk would overrun changes nothing here (the source does not check). */
  function HandleEvents<C>(ph: Physics, w: World<C>, c: C, payload: seq<byte>, connected: set<C>, stamp: u64)
      : (w': World<C>)
    requires c in w.peers
    ensures w'.peers.Keys == w.peers.Keys && w'.players == w.players && SameTags(w.table, w'.table)
  {
    match Controllable(w.table, w.peers[c].entity)
    case None => w
    case Some(r) =>
      match Walked(payload)
      case None => w
      case Some(events) =>
        var moves := MovePoses(ph, r.0, r.1, events.0);
        LastIsPose(r.1, moves);
        Moves(w, c, moves + LookPoses(ph, r.0, LastPose(r.1, moves), events.1), connected, stamp)
  }

  lemma LastIsPose(p: Pose, ps: seq<Pose>)
    requires IsPose(p) && forall q :: q in ps ==> IsPose(q)
    ensures IsPose(LastPose(p, ps))
  {
  }

  // ---------------------------------------------------------------- a frame of the game

  /** One packet off a player's receive queue. */
  function Consume<C>(ph: Physics, w: World<C>, c: C, connected: set<C>, stamp: u64): (w': World<C>)
    requires c in w.peers && w.peers[c].inbox != []
    ensures w'.peers.Keys == w.peers.Keys && w'.players == w.players && SameTags(w.table, w'.table)
  {
    var f := w.peers[c].inbox[0];
    var w1 := w.(peers := w.peers[c := w.peers[c].(inbox := w.peers[c].inbox[1..])]);
    if f.header.command == REQ_USER_UPDATES then HandleEvents(ph, w1, c, f.payload, connected, stamp)
    else if f.header.command == REQ_HEARTBEAT then
      w1.(peers := w1.peers[c := Deliver(w1.peers[c], HeartbeatReply(f, stamp))])
    else w1
  }

  function ConsumeUpTo<C>(ph: Physics, w: World<C>, c: C, n: nat, connected: set<C>, stamp: u64): (w': World<C>)
    requires c in w.peers
    ensures w'.peers.Keys == w.peers.Keys && w'.players == w.players && SameTags(w.table, w'.table)
    decreases n
  {
    if n == 0 || w.peers[c].inbox == [] then w
    else ConsumeUpTo(ph, Consume(ph, w, c, connected, stamp), c, n - 1, connected, stamp)
  }

  /** updateIncomingPackets for the players of `todo`. */
  function Incoming<C>(ph: Physics, w: World<C>, todo: seq<C>, connected: set<C>, stamp: u64): (w': World<C>)
    requires forall c :: c in todo ==> c in w.peers
    ensures w'.peers.Keys == w.peers.Keys && w'.players == w.players && SameTags(w.table, w'.table)
    decreases |todo|
  {
    if todo == [] then w else
    assert todo[0] in todo;
    var w1 := if todo[0] in connected then ConsumeUpTo(ph, w, todo[0], MAX_MESSAGES, connected, stamp) else w;
    Incoming(ph, w1, todo[1..], connected, stamp)
  }

  /** The packets of one frame: at most 20. */
  function NextBatch(p: Peer): seq<Frame> {
    p.queue[..if |p.queue| < MAX_MESSAGES then |p.queue| else MAX_MESSAGES]
  }

  /** They leave the queue joined in one datagram; an empty one is not sent. */
  function Flushed(p: Peer): Peer {
    if p.queue == [] then p
    else p.(queue := p.queue[|NextBatch(p)|..], sent := p.sent + NextBatch(p),
            datagrams := p.datagrams + [ClientApi.Joined(NextBatch(p))])
  }

  /** updateOutcomingPackets */
  function Outgoing<C(==)>(w: World<C>, connected: set<C>): World<C> {
    w.(peers := map c | c in w.peers ::
         if c in w.players && c in connected then Flushed(w.peers[c]) else w.peers[c])
  }
}
