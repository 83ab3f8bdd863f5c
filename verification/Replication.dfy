/** A player who stays connected can rebuild the visible scene from the packets queued to it. */
module Replication {
  import opened Wrappers
  import opened Bytes
  import opened Sequences
  import opened Packets
  import opened Components
  import opened GameModel
  import opened SceneFacts
  import opened Synchronizers
  import R = Registries

  // ---------------------------------------------------------------- runs of the game

  /** What happens to a game. Check is checkDisconnect, with which each frame begins; Simulate stands for the systems
      that only change component values in place. */
  datatype Step<C(==)> =
    | Join(c: C, peer: Peer)
    | Leave(c: C)
    | Enemy(ready: bool, due: bool, now: u64, position: Vec3)
    | Arrive(c: C, f: Frame)
    | Receive(ph: Physics)
    | Send
    | Simulate(table: Scene)
    | Check

  /** One step, with the clients connected and the time stamp written while it lasts. */
  datatype Turn<C(==)> = Turn(step: Step<C>, connected: set<C>, stamp: u64)

  /** Each player is listed once and has its record. */
  ghost predicate Rostered<C>(w: World<C>) {
    && Distinct(w.players)
    && (forall c :: c in w.players ==> c in w.peers) && forall c :: c in w.peers ==> c in w.players
  }

  /** Component values may change, but no component comes or goes and tags and templates stay. */
  ghost predicate SameShape(t: Scene, u: Scene) {
    && u.dead == t.dead && u.next == t.next && u.cells.Keys == t.cells.Keys
    && forall e: nat ::
         R.Lookup(u, TAG, e) == R.Lookup(t, TAG, e) && R.Lookup(u, TEMPLATE, e) == R.Lookup(t, TEMPLATE, e)
  }

  /** Nobody on the list has lost its connection. */
  predicate AllConnected<C(==)>(players: seq<C>, connected: set<C>) {
    forall c :: c in players ==> c in connected
  }

  function Arrived<C>(w: World<C>, c: C, f: Frame): World<C> {
    if c !in w.peers then w else w.(peers := w.peers[c := Accept(w.peers[c], f)])
  }

  lemma JoinRostered<C>(cfg: Config, w: World<C>, c: C, peer: Peer, connected: set<C>, stamp: u64)
    requires Rostered(w) && AddPlayer(cfg, w, c, peer, connected, stamp).Admitted?
    ensures Rostered(AddPlayer(cfg, w, c, peer, connected, stamp).w)
  {
    hide Equip, VisibleFrames, SpawnFrame, ConnectFrame, R.Allocate, Hears, WithApi;
  }

  lemma LeaveRostered<C>(w: World<C>, c: C, connected: set<C>, stamp: u64)
    requires Rostered(w) && c in w.players
    ensures Rostered(RemovePlayer(w, c, connected, stamp).value)
  {
    hide R.Retire, DestroyFrame, Hears, WithApi;
    WithoutOne(w.players, c);
  }

  lemma EnemyRostered<C>(cfg: Config, w: World<C>, ready: bool, due: bool, now: u64, position: Vec3,
                               connected: set<C>, stamp: u64)
    requires Rostered(w) && SpawnEnemy(cfg, w, ready, due, now, position, connected, stamp).Some?
    ensures Rostered(SpawnEnemy(cfg, w, ready, due, now, position, connected, stamp).value)
  {
    hide R.Allocate, SpawnFrame, Hears, WithApi, Equip, PlacedAt, Rewound, Enemies, EntityOf, IsSpawner;
  }

  /** addPlayer; None: the registry has no identifier left and throws. */
  ghost function Joining<C>(cfg: Config, w: World<C>, c: C, peer: Peer, connected: set<C>, stamp: u64)
      : (r: Option<World<C>>)
    requires Rostered(w)
    ensures r.Some? ==> Rostered(r.value)
  {
    match AddPlayer(cfg, w, c, peer, connected, stamp)
    case Refused => Some(w)
    case Thrown => None
    case Admitted(w') => JoinRostered(cfg, w, c, peer, connected, stamp); Some(w')
  }

  ghost function Leaving<C>(w: World<C>, c: C, connected: set<C>, stamp: u64): (w': World<C>)
    requires Rostered(w)
    ensures Rostered(w')
  {
    match RemovePlayer(w, c, connected, stamp)
    case None => w
    case Some(w') => LeaveRostered(w, c, connected, stamp); w'
  }

  ghost function Spawning<C>(cfg: Config, w: World<C>, ready: bool, due: bool, now: u64, position: Vec3,
                                   connected: set<C>, stamp: u64): (r: Option<World<C>>)
    requires Rostered(w)
    ensures r.Some? ==> Rostered(r.value)
  {
    match SpawnEnemy(cfg, w, ready, due, now, position, connected, stamp)
    case None => None
    case Some(w') => EnemyRostered(cfg, w, ready, due, now, position, connected, stamp); Some(w')
  }

  /** The game after one step. None: an exception, or a checkDisconnect that finds a lost player; what that does is no
      state of these runs (see GameRuns). */
  ghost function After<C>(cfg: Config, w: World<C>, turn: Turn<C>): (r: Option<World<C>>)
    requires Rostered(w)
    ensures r.Some? ==> Rostered(r.value)
  {
    match turn.step
    case Join(c, peer) => Joining(cfg, w, c, peer, turn.connected, turn.stamp)
    case Leave(c) => Some(Leaving(w, c, turn.connected, turn.stamp))
    case Enemy(ready, due, now, position) => Spawning(cfg, w, ready, due, now, position, turn.connected, turn.stamp)
    case Arrive(c, f) => Some(Arrived(w, c, f))
    case Receive(ph) => Some(Incoming(ph, w, w.players, turn.connected, turn.stamp))
    case Send => Some(Outgoing(w, turn.connected))
    case Simulate(table) => Some(if SameShape(w.table, table) then w.(table := table) else w)
    case Check => if AllConnected(w.players, turn.connected) then Some(w) else None
  }

  ghost function Run<C>(cfg: Config, w: World<C>, turns: seq<Turn<C>>): (r: Option<World<C>>)
    requires Rostered(w)
    ensures r.Some? ==> Rostered(r.value)
    decreases |turns|
  {
    if turns == [] then Some(w) else
    match After(cfg, w, turns[0])
    case None => None
    case Some(w') => Run(cfg, w', turns[1..])
  }

  // ---------------------------------------------------------------- the invariant

  /** A tag that fits the wire, and a template whose entities show up. */
  ghost predicate Fine(t: Scene, e: nat) {
    var tag: Option<Component> := R.Lookup(t, TAG, e);
    var template: Option<Component> := R.Lookup(t, TEMPLATE, e);
    && (tag.Some? ==> |TagOf(tag.value)| <= INT_MAX)
    && (tag == Some(Common(Tag(SKYBOX))) && template.Some? ==> ShowsBlueprint(template.value))
  }

  ghost predicate ShowsBlueprint(c: Component) {
    match c
    case Common(Template(name, content)) => |name| <= INT_MAX && ShowsUp(content)
    case _ => true
  }

  ghost predicate Sound(t: Scene, live: set<nat>) {
    R.Allocated(t, live) && t.next <= R.SIZE_MAX && forall e: nat :: Fine(t, e)
  }

  /** The player's record: in the start scene, with a live entity that everyone sees. */
  predicate Seated<C>(cfg: Config, w: World<C>, c: C)
    requires c in w.peers
  {
    var p := w.peers[c];
    p.scene == cfg.scene && p.entity in w.live && IsVisible(w.table, p.entity)
  }

  ghost predicate AllSeated<C>(cfg: Config, w: World<C>) {
    && (forall c :: c in w.peers ==> Seated(cfg, w, c))
    && forall c, d :: c in w.peers && d in w.peers && c != d ==> w.peers[c].entity != w.peers[d].entity
  }

  ghost predicate Good<C>(cfg: Config, w: World<C>) {
    Sound(w.table, w.live) && Rostered(w) && AllSeated(cfg, w)
  }

  /** The player template carries a transform and a tag, and its name fits the wire. */
  predicate Playable(cfg: Config) {
    ShowsUp(cfg.player.components) && |cfg.player.name| <= INT_MAX
  }

  /** What was queued since the player joined leads to exactly v, and only moves throw on the way. */
  predicate SyncedTo(p: Peer, v: set<nat>) {
    p.joined <= |Log(p)| && Rebuilds({}, Log(p)[p.joined..], v)
  }

  predicate Synced<C>(w: World<C>, c: C) {
    c in w.peers && SyncedTo(w.peers[c], VisibleSet(w.table))
  }

  // ---------------------------------------------------------------- queues

  /** p' is p with more packets queued; nothing else that matters here changed. */
  predicate Extends(p: Peer, p': Peer, fs: seq<Frame>) {
    Log(p') == Log(p) + fs && p'.joined == p.joined && p'.entity == p.entity && p'.scene == p.scene
  }

  lemma ExtendSync(p: Peer, p': Peer, fs: seq<Frame>, v: set<nat>, v': set<nat>)
    requires SyncedTo(p, v) && Extends(p, p', fs)
    ensures SyncedTo(p', v') <==> Rebuilds(v, fs, v')
  {
    hide Rebuilds;
    var was := Log(p)[p.joined..];
    assert Log(p')[p.joined..] == was + fs;
    RebuildsAppend({}, was, v, fs, v');
  }

  lemma DeliverExtends(p: Peer, f: Frame)
    ensures Extends(p, Deliver(p, f), [f])
  {
    Associative(p.sent, p.queue, [f]);
  }

  lemma BroadcastExtends<C>(w: World<C>, connected: set<C>, scene: text, f: Frame, except: Option<C>, c: C)
    requires c in w.peers
    ensures c in Broadcast(w, connected, scene, f, except).peers
    ensures Extends(w.peers[c], Broadcast(w, connected, scene, f, except).peers[c],
                    if Hears(w, connected, scene, except, c) then [WithApi(f, w.peers[c].api)] else [])
  {
    hide Hears, WithApi;
    DeliverExtends(w.peers[c], WithApi(f, w.peers[c].api));
    Empty(Log(w.peers[c]));
  }

  /** A broadcast brings a player in line with the new scene exactly if the player hears it. */
  lemma BroadcastSync<C>(w: World<C>, connected: set<C>, scene: text, f: Frame, except: Option<C>, c: C,
                         v: set<nat>, v': set<nat>)
    requires c in w.peers && SyncedTo(w.peers[c], v) && v != v' && Follows(v, f, v')
    ensures c in Broadcast(w, connected, scene, f, except).peers
    ensures SyncedTo(Broadcast(w, connected, scene, f, except).peers[c], v') <==> Hears(w, connected, scene, except, c)
  {
    hide Broadcast, SyncedTo, Extends, Follows, Rebuilds, Hears;
    BroadcastExtends(w, connected, scene, f, except, c);
    var api := w.peers[c].api;
    var heard := Hears(w, connected, scene, except, c);
    ExtendSync(w.peers[c], Broadcast(w, connected, scene, f, except).peers[c],
               if heard then [WithApi(f, api)] else [], v, v');
    VersionIsIgnored(v, f, api, v');
    RebuildsOne(v, WithApi(f, api), v');
    RebuildsNothing(v, v');
  }

  /** A packet that changes nothing for the client leaves it in line, heard or not. */
  lemma BroadcastQuiet<C>(w: World<C>, connected: set<C>, scene: text, f: Frame, except: Option<C>, c: C, v: set<nat>)
    requires c in w.peers && SyncedTo(w.peers[c], v) && Follows(v, f, v)
    ensures c in Broadcast(w, connected, scene, f, except).peers
    ensures SyncedTo(Broadcast(w, connected, scene, f, except).peers[c], v)
  {
    hide Broadcast, SyncedTo, Extends, Follows, Rebuilds, Hears;
    BroadcastExtends(w, connected, scene, f, except, c);
    var api := w.peers[c].api;
    var heard := Hears(w, connected, scene, except, c);
    ExtendSync(w.peers[c], Broadcast(w, connected, scene, f, except).peers[c],
               if heard then [WithApi(f, api)] else [], v, v);
    VersionIsIgnored(v, f, api, v);
    RebuildsOne(v, WithApi(f, api), v);
    RebuildsNothing(v, v);
  }

  // ---------------------------------------------------------------- scenes stay sound

  lemma SameFine(t: Scene, u: Scene, e: nat)
    requires R.Lookup(u, TAG, e) == R.Lookup(t, TAG, e) && R.Lookup(u, TEMPLATE, e) == R.Lookup(t, TEMPLATE, e)
    ensures Fine(u, e) <==> Fine(t, e)
  {
  }

  lemma {:induction false} EquipAllocated(t: Scene, live: set<nat>, e: nat, cs: seq<Component>)
    requires R.Allocated(t, live) && e in live
    ensures R.Allocated(Equip(t, e, cs), live)
    decreases |cs|
  {
    hide R.Allocated, R.Put, KindOf;
    if cs != [] {
      R.AddNeedsLive(t, live, KindOf(cs[0]), e, cs[0]);
      EquipAllocated(R.Put(t, KindOf(cs[0]), e, cs[0]), live, e, cs[1..]);
    }
  }

  lemma EquipFine(t: Scene, e: nat, cs: seq<Component>, x: nat)
    requires ShowsUp(cs) && Fine(t, x)
    ensures Fine(Equip(t, e, cs), x)
  {
    hide Equip, LastOf, ShowsBlueprint;
    EquipCell(t, e, cs, TAG, x);
    EquipCell(t, e, cs, TEMPLATE, x);
  }

  /** Spawning an entity from a template that shows up: sound again, with one more visible entity. */
  lemma EquipSound(t: Scene, live: set<nat>, cs: seq<Component>)
    requires Sound(t, live) && ShowsUp(cs) && R.Allocate(t).Some?
    ensures var (base, e) := R.Allocate(t).value;
      && Sound(Equip(base, e, cs), live + {e}) && e !in live && !IsVisible(t, e) && e <= R.SIZE_MAX
      && VisibleSet(Equip(base, e, cs)) == VisibleSet(t) + {e}
      && forall x: nat :: IsVisible(Equip(base, e, cs), x) <==> x == e || IsVisible(t, x)
  {
    hide Equip, ShowsUp, VisibleSet, Fine, R.Allocated, IsVisible;
    var (base, e) := R.Allocate(t).value;
    R.SpawnIsFresh(t, live);
    AllocatedIsBare(t, live);
    EquipAllocated(base, live + {e}, e, cs);
    EquipVisible(base, e, cs);
    SameCellsVisible(t, base);
    BareIsHidden(base, e);
    forall x: nat
      ensures Fine(Equip(base, e, cs), x)
      ensures IsVisible(Equip(base, e, cs), x) <==> x == e || IsVisible(t, x)
    {
      SameFine(t, base, x);
      EquipFine(base, e, cs, x);
      EquipShows(base, e, cs, x);
    }
    EquipCell(base, e, cs, TAG, e);
  }

  lemma BareIsHidden(t: Scene, e: nat)
    requires Bare(t, e)
    ensures !IsVisible(t, e)
  {
  }

  /** Changing a component in place, other than a tag or a template. */
  lemma PutSound(t: Scene, live: set<nat>, k: Kind, e: nat, c: Component)
    requires Sound(t, live) && k != TAG && k != TEMPLATE && R.Lookup(t, k, e).Some?
    ensures Sound(R.Put(t, k, e, c), live)
    ensures VisibleSet(R.Put(t, k, e, c)) == VisibleSet(t)
    ensures forall x: nat :: IsVisible(R.Put(t, k, e, c), x) <==> IsVisible(t, x)
  {
    hide VisibleSet, Fine, IsVisible;
    var u := R.Put(t, k, e, c);
    PutVisible(t, k, e, c);
    forall x: nat
      ensures Fine(u, x)
    {
      SameFine(t, u, x);
    }
  }

  lemma PlacedSound(t: Scene, live: set<nat>, e: nat, position: Vec3)
    requires Sound(t, live)
    ensures Sound(PlacedAt(t, e, position), live)
    ensures VisibleSet(PlacedAt(t, e, position)) == VisibleSet(t)
    ensures forall x: nat :: IsVisible(PlacedAt(t, e, position), x) <==> IsVisible(t, x)
  {
    hide VisibleSet, Sound, IsVisible, R.Put;
    var c: Option<Component> := R.Lookup(t, TRANSFORM_3D, e);
    if c.Some? && c.value.Spatial? && c.value.spatial.Transform? {
      PutSound(t, live, TRANSFORM_3D, e, Spatial(c.value.spatial.(position := position)));
    }
  }

  lemma RetireSound(t: Scene, live: set<nat>, e: nat)
    requires Sound(t, live) && e in live
    ensures Sound(R.Retire(t, e), live - {e}) && e <= R.SIZE_MAX
    ensures VisibleSet(R.Retire(t, e)) == VisibleSet(t) - {e}
    ensures forall x: nat :: IsVisible(R.Retire(t, e), x) <==> x != e && IsVisible(t, x)
  {
    hide VisibleSet, Fine, IsVisible;
    RetireVisible(t, e);
    R.KillNeedsLive(t, live, e);
    forall x: nat
      ensures Fine(R.Retire(t, e), x)
    {
      RetireFine(t, e, x);
    }
  }

  lemma RetireFine(t: Scene, e: nat, x: nat)
    requires Fine(t, x)
    ensures Fine(R.Retire(t, e), x)
  {
    assert forall k :: R.Lookup(R.Retire(t, e), k, x) == if x == e then None else R.Lookup(t, k, x);
  }

  lemma ShapeSound(t: Scene, u: Scene, live: set<nat>)
    requires Sound(t, live) && SameShape(t, u)
    ensures Sound(u, live) && VisibleSet(u) == VisibleSet(t)
    ensures forall x: nat :: IsVisible(u, x) <==> IsVisible(t, x)
  {
    hide VisibleSet, Fine;
    forall x: nat
      ensures Fine(u, x)
    {
      SameFine(t, u, x);
    }
    SameVisible(t, u);
  }

  // ---------------------------------------------------------------- seats

  /** The same players with the same entities. */
  ghost predicate SameSeats<C>(w: World<C>, w': World<C>) {
    && w'.players == w.players && w'.peers.Keys == w.peers.Keys
    && forall c :: c in w.peers ==> w'.peers[c].entity == w.peers[c].entity && w'.peers[c].scene == w.peers[c].scene
  }

  lemma KeepSeats<C>(cfg: Config, w: World<C>, w': World<C>)
    requires Rostered(w) && AllSeated(cfg, w) && SameSeats(w, w') && w.live <= w'.live
    requires forall x: nat :: IsVisible(w.table, x) ==> IsVisible(w'.table, x)
    ensures Rostered(w') && AllSeated(cfg, w')
  {
    hide IsVisible;
    assert forall c :: c in w'.peers ==> Seated(cfg, w, c);
  }

  lemma BroadcastSeats<C>(w: World<C>, connected: set<C>, scene: text, f: Frame, except: Option<C>)
    ensures var w' := Broadcast(w, connected, scene, f, except);
      SameSeats(w, w') && w'.table == w.table && w'.live == w.live
  {
    hide Hears, WithApi;
  }

  // ---------------------------------------------------------------- joining

  /** The visible entities below n, without the player's own. */
  function Below(t: Scene, n: nat, self: nat): set<nat> {
    set x | x in VisibleSet(t) && x < n && x != self
  }

  lemma BelowNext(t: Scene, n: nat, self: nat)
    ensures Below(t, 0, self) == {}
    ensures Below(t, n + 1, self) == Below(t, n, self) + if IsVisible(t, n) && n != self then {n} else {}
  {
    hide IsVisible, VisibleSet;
    InVisible(t, n);
  }

  lemma {:induction false} ReplayVisible(known: set<nat>, t: Scene, n: nat, self: nat, api: nibble, stamp: u64)
    requires n <= R.SIZE_MAX && forall e: nat :: Fine(t, e)
    ensures Rebuilds(known, VisibleFrames(t, n, self, api, stamp), known + Below(t, n, self))
    decreases n
  {
    hide Rebuilds, SpawnFrame, EntityOf, Apply, Follows;
    if n == 0 {
      BelowNext(t, 0, self);
      RebuildsNothing(known, known);
      assert known + {} == known;
    } else {
      var e := n - 1;
      ReplayVisible(known, t, e, self, api, stamp);
      BelowNext(t, e, self);
      var shown := if IsVisible(t, e) && e != self
        then [SpawnFrame(api, e, TagOf(t.cells[(TAG, e)]), EntityOf(t, e), stamp)] else [];
      var so := known + Below(t, e, self);
      RebuildsAppend(known, VisibleFrames(t, e, self, api, stamp), so, shown, known + Below(t, n, self));
      ReplayShown(so, t, e, self, api, stamp);
      assert known + Below(t, n, self) == so + if IsVisible(t, e) && e != self then {e} else {};
    }
  }

  lemma ReplayShown(known: set<nat>, t: Scene, e: nat, self: nat, api: nibble, stamp: u64)
    requires e <= R.SIZE_MAX && Fine(t, e)
    ensures var shows := IsVisible(t, e) && e != self;
      Rebuilds(known, if shows then [SpawnFrame(api, e, TagOf(t.cells[(TAG, e)]), EntityOf(t, e), stamp)] else [],
               known + if shows then {e} else {})
  {
    hide Rebuilds, SpawnFrame, EntityOf, Apply, Follows;
    if IsVisible(t, e) && e != self {
      var f := SpawnFrame(api, e, TagOf(t.cells[(TAG, e)]), EntityOf(t, e), stamp);
      RebuildsOne(known, f, known + {e});
      SpawnAdds(known, api, e, TagOf(t.cells[(TAG, e)]), EntityOf(t, e), stamp);
    } else {
      RebuildsNothing(known, known);
      assert known + {} == known;
    }
  }

  lemma RebuildsNothing(known: set<nat>, v: set<nat>)
    ensures Rebuilds(known, [], v) <==> known == v
  {
  }

  /** With every live id below the counter, the newcomer is shown everything but itself. */
  lemma AllBelow(t: Scene, live: set<nat>, self: nat)
    requires R.Allocated(t, live) && IsVisible(t, self)
    ensures {self} + Below(t, t.next, self) == VisibleSet(t)
  {
    hide R.Allocated, VisibleSet;
    InVisible(t, self);
    forall x | x in VisibleSet(t)
      ensures x < t.next
    {
      InVisible(t, x);
      LiveBelow(t, live, (TRANSFORM_3D, x));
    }
  }

  lemma LiveBelow(t: Scene, live: set<nat>, c: (Kind, nat))
    requires R.Allocated(t, live) && c in t.cells
    ensures c.1 < t.next && c.1 in live
  {
  }

  /** CONNECT adds the player's own entity and the spawns that follow add all the others. */
  lemma GreetingSync(p: Peer, t: Scene, live: set<nat>, e: nat, blueprint: text, scene: text, stamp: u64, p': Peer)
    requires Sound(t, live) && IsVisible(t, e) && e <= R.SIZE_MAX && |blueprint| <= INT_MAX
    requires p'.sent == p.sent && p'.joined == |Log(p)|
    requires p'.queue == p.queue + [ConnectFrame(p.api, e, blueprint, scene, stamp)]
      + VisibleFrames(t, t.next, e, p.api, stamp)
    ensures SyncedTo(p', VisibleSet(t))
  {
    hide Rebuilds, ConnectFrame, VisibleFrames, VisibleSet, IsVisible, R.Allocated, Fine, Apply, Follows;
    var hello, all := [ConnectFrame(p.api, e, blueprint, scene, stamp)], VisibleFrames(t, t.next, e, p.api, stamp);
    assert Log(p')[p'.joined..] == hello + all;
    RebuildsOne({}, hello[0], {e});
    ConnectAdds({}, p.api, e, blueprint, scene, stamp);
    assert {} + {e} == {e};
    RebuildsAppend({}, hello, {e}, all, VisibleSet(t));
    ReplayVisible({e}, t, t.next, e, p.api, stamp);
    AllBelow(t, live, e);
  }

  /** The scene after a join: one more visible entity, owned by nobody before. */
  lemma JoinScene<C>(cfg: Config, w: World<C>, c: C, peer: Peer, connected: set<C>, stamp: u64)
    requires Playable(cfg) && Good(cfg, w) && MayJoin(w.players, cfg.maxPlayers, connected, c)
    requires R.Allocate(w.table).Some?
    ensures var (base, e) := R.Allocate(w.table).value;
      var w' := WithPlayer(cfg, w, c, peer, connected, stamp, base, e);
      && w'.table == Equip(base, e, cfg.player.components) && w'.live == w.live + {e} && w'.players == w.players + [c]
      && w'.peers.Keys == w.peers.Keys + {c} && w'.peers[c].entity == e && w'.peers[c].scene == cfg.scene
      && forall d :: d in w.peers && d != c ==>
           w'.peers[d].entity == w.peers[d].entity && w'.peers[d].scene == w.peers[d].scene
  {
    hide Equip, VisibleFrames, SpawnFrame, ConnectFrame, Sound, IsVisible, AllSeated, ShowsUp, R.Allocate;
  }

  lemma JoinGood<C>(cfg: Config, w: World<C>, c: C, peer: Peer, connected: set<C>, stamp: u64)
    requires Playable(cfg) && Good(cfg, w) && MayJoin(w.players, cfg.maxPlayers, connected, c)
    requires R.Allocate(w.table).Some?
    ensures var (base, e) := R.Allocate(w.table).value;
      Good(cfg, WithPlayer(cfg, w, c, peer, connected, stamp, base, e))
  {
    hide Equip, WithPlayer, VisibleSet, IsVisible, ShowsUp, Sound;
    var (base, e) := R.Allocate(w.table).value;
    JoinScene(cfg, w, c, peer, connected, stamp);
    EquipSound(w.table, w.live, cfg.player.components);
    assert forall d :: d in w.peers ==> Seated(cfg, w, d);
  }

  lemma NewcomerSynced<C>(cfg: Config, w: World<C>, c: C, peer: Peer, connected: set<C>, stamp: u64)
    requires Playable(cfg) && Good(cfg, w) && MayJoin(w.players, cfg.maxPlayers, connected, c)
    requires R.Allocate(w.table).Some?
    ensures var (base, e) := R.Allocate(w.table).value;
      Synced(WithPlayer(cfg, w, c, peer, connected, stamp, base, e), c)
  {
    hide Equip, VisibleFrames, SpawnFrame, ConnectFrame, VisibleSet, IsVisible, ShowsUp, Sound, SyncedTo, AllSeated,
         Broadcast, R.Allocate;
    var (base, e) := R.Allocate(w.table).value;
    EquipSound(w.table, w.live, cfg.player.components);
    var t := Equip(base, e, cfg.player.components);
    var w' := WithPlayer(cfg, w, c, peer, connected, stamp, base, e);
    JoinScene(cfg, w, c, peer, connected, stamp);
    GreetingSync(peer, t, w.live + {e}, e, cfg.player.name, cfg.scene, stamp, w'.peers[c]);
  }

  /** Someone else joins: a player in line before stays in line exactly if it is connected. */
  lemma JoinSync<C>(cfg: Config, w: World<C>, c: C, peer: Peer, connected: set<C>, stamp: u64, d: C)
    requires Playable(cfg) && Good(cfg, w) && MayJoin(w.players, cfg.maxPlayers, connected, c)
    requires R.Allocate(w.table).Some? && d in w.players && Synced(w, d)
    ensures var (base, e) := R.Allocate(w.table).value;
      Synced(WithPlayer(cfg, w, c, peer, connected, stamp, base, e), d) <==> d in connected
  {
    hide Equip, VisibleFrames, SpawnFrame, ConnectFrame, VisibleSet, IsVisible, ShowsUp, Sound, SyncedTo, Broadcast,
         R.Allocate, Apply, Follows;
    var (base, e) := R.Allocate(w.table).value;
    EquipSound(w.table, w.live, cfg.player.components);
    var t := Equip(base, e, cfg.player.components);
    var w' := WithPlayer(cfg, w, c, peer, connected, stamp, base, e);
    var greeted := Greeted(cfg, peer, e, stamp);
    var w1 := World(t, w.live + {e}, w.players + [c], w.peers[c := greeted]);
    var f := SpawnFrame(peer.api, e, cfg.player.name, map[], stamp);
    var v := VisibleSet(w.table);
    InVisible(w.table, e);
    SpawnAdds(v, peer.api, e, cfg.player.name, map[], stamp);
    JoinScene(cfg, w, c, peer, connected, stamp);
    assert Seated(cfg, w, d);
    assert c != d;
    BroadcastSync(w1, connected, cfg.scene, f, Some(c), d, v, v + {e});
    assert w'.peers[d] == Broadcast(w1, connected, cfg.scene, f, Some(c)).peers[d];
  }
}
