/** Whole runs of the game: the replicated set stays exact through every step. */
module GameRuns {
  import opened Wrappers
  import opened Bytes
  import opened Sequences
  import opened Packets
  import opened Components
  import opened GameModel
  import opened SceneFacts
  import opened Synchronizers
  import opened Replication
  import opened UserEvents
  import R = Registries
  import PayloadStreams

  // ---------------------------------------------------------------- leaving

  lemma LeaveScene<C>(cfg: Config, w: World<C>, c: C, connected: set<C>, stamp: u64)
    requires Good(cfg, w) && c in w.players
    ensures RemovePlayer(w, c, connected, stamp).Some?
    ensures var w' := RemovePlayer(w, c, connected, stamp).value;
      var e := w.peers[c].entity;
      && w'.table == R.Retire(w.table, e) && w'.live == w.live - {e} && w'.players == Without(w.players, c)
      && w'.peers.Keys == w.peers.Keys - {c}
      && forall d :: d in w'.peers ==> w'.peers[d].entity == w.peers[d].entity && w'.peers[d].scene == w.peers[d].scene
  {
    hide DestroyFrame, Sound, AllSeated, R.Retire, Without, Hears, WithApi;
  }

  lemma LeaveGood<C>(cfg: Config, w: World<C>, c: C, connected: set<C>, stamp: u64)
    requires Good(cfg, w) && c in w.players
    ensures Good(cfg, RemovePlayer(w, c, connected, stamp).value)
  {
    hide DestroyFrame, Sound, R.Retire, Without, RemovePlayer, IsVisible, VisibleSet;
    assert Seated(cfg, w, c);
    LeaveScene(cfg, w, c, connected, stamp);
    RetireSound(w.table, w.live, w.peers[c].entity);
    WithoutOne(w.players, c);
    var w' := RemovePlayer(w, c, connected, stamp).value;
    forall d | d in w'.peers
      ensures Seated(cfg, w', d)
    {
      assert Seated(cfg, w, d);
    }
  }

  /** Someone else leaves: a player in line before stays in line exactly if it is connected. */
  lemma LeaveSync<C>(cfg: Config, w: World<C>, c: C, connected: set<C>, stamp: u64, d: C)
    requires Good(cfg, w) && c in w.players && d in w.players && d != c && Synced(w, d)
    ensures Synced(RemovePlayer(w, c, connected, stamp).value, d) <==> d in connected
  {
    hide DestroyFrame, Sound, R.Retire, Without, Broadcast, SyncedTo, VisibleSet, IsVisible, Apply, Follows,
         R.Allocated;
    var e := w.peers[c].entity;
    assert Seated(cfg, w, c) && Seated(cfg, w, d);
    LeaveScene(cfg, w, c, connected, stamp);
    RetireSound(w.table, w.live, e);
    WithoutOne(w.players, c);
    InVisible(w.table, e);
    var w1 := World(R.Retire(w.table, e), w.live - {e}, Without(w.players, c), w.peers - {c});
    var f := DestroyFrame(V_1, e, stamp);
    var v := VisibleSet(w.table);
    DestroyRemoves(v, V_1, e, stamp);
    BroadcastSync(w1, connected, cfg.scene, f, None, d, v, v - {e});
  }

  // ---------------------------------------------------------------- steps that show and hide nothing

  /** The same visible entities, and nobody falls out of line. */
  ghost predicate Quiet<C>(cfg: Config, w: World<C>, w': World<C>) {
    && Good(cfg, w') && SameSeats(w, w') && VisibleSet(w'.table) == VisibleSet(w.table)
    && forall d :: d in w.players && Synced(w, d) ==> Synced(w', d)
  }

  lemma QuietTwice<C>(cfg: Config, a: World<C>, b: World<C>, c: World<C>)
    requires Quiet(cfg, a, b) && Quiet(cfg, b, c)
    ensures Quiet(cfg, a, c)
  {
    hide Good, VisibleSet, Synced;
  }

  /** Enough for Quiet: sound tables that show the same, and queues that grew by packets the client ignores. */
  lemma QuietBy<C>(cfg: Config, w: World<C>, w': World<C>)
    requires Good(cfg, w) && SameSeats(w, w') && Sound(w'.table, w'.live) && w'.live == w.live
    requires VisibleSet(w'.table) == VisibleSet(w.table)
    requires forall x: nat :: IsVisible(w'.table, x) <==> IsVisible(w.table, x)
    requires forall d :: d in w.peers && SyncedTo(w.peers[d], VisibleSet(w.table))
                     ==> SyncedTo(w'.peers[d], VisibleSet(w.table))
    ensures Quiet(cfg, w, w')
  {
    hide Sound, VisibleSet, IsVisible, SyncedTo, Rostered, AllSeated;
    KeepSeats(cfg, w, w');
  }

  lemma QuietNothing<C>(cfg: Config, w: World<C>)
    requires Good(cfg, w)
    ensures Quiet(cfg, w, w)
  {
    hide Good, VisibleSet, Synced;
  }

  predicate Mobile(t: Scene, e: nat) {
    R.Lookup(t, TRANSFORM_3D, e).Some? && R.Lookup(t, MOVABLE_3D, e).Some?
  }

  lemma MoveScene(t: Scene, live: set<nat>, e: nat, p: Pose)
    requires Sound(t, live) && Mobile(t, e)
    ensures var u := R.Put(R.Put(t, MOVABLE_3D, e, Spatial(p.movable)), TRANSFORM_3D, e, Spatial(p.transform));
      && Sound(u, live) && Mobile(u, e) && VisibleSet(u) == VisibleSet(t)
      && forall x: nat :: IsVisible(u, x) <==> IsVisible(t, x)
  {
    hide Sound, VisibleSet, IsVisible;
    PutSound(t, live, MOVABLE_3D, e, Spatial(p.movable));
    PutSound(R.Put(t, MOVABLE_3D, e, Spatial(p.movable)), live, TRANSFORM_3D, e, Spatial(p.transform));
  }

  /** A move names an entity every client in line knows, so that on such a client only its length throws. */
  lemma MoveQuiet<C>(cfg: Config, w: World<C>, c: C, p: Pose, connected: set<C>, stamp: u64)
    requires Good(cfg, w) && c in w.peers && IsPose(p) && Mobile(w.table, w.peers[c].entity)
    ensures var w' := Move(w, c, p, connected, stamp);
      Quiet(cfg, w, w') && Mobile(w'.table, w.peers[c].entity)
  {
    hide Sound, VisibleSet, IsVisible, SyncedTo, MovedFrame, Broadcast, R.Put, Quiet, Apply, Follows, Rostered;
    var e := w.peers[c].entity;
    MoveScene(w.table, w.live, e, p);
    var u := R.Put(R.Put(w.table, MOVABLE_3D, e, Spatial(p.movable)), TRANSFORM_3D, e, Spatial(p.transform));
    var w1 := w.(table := u);
    var f := MovedFrame(V_1, e, p, stamp);
    var v := VisibleSet(w.table);
    assert Seated(cfg, w, c);
    InVisible(w.table, e);
    LiveId(w.table, w.live, e);
    MovedThrows(v, V_1, e, p, stamp);
    BroadcastSeats(w1, connected, w.peers[c].scene, f, None);
    forall d | d in w.peers && SyncedTo(w.peers[d], v)
      ensures SyncedTo(Move(w, c, p, connected, stamp).peers[d], v)
    {
      BroadcastQuiet(w1, connected, w.peers[c].scene, f, None, d, v);
    }
    QuietBy(cfg, w, Move(w, c, p, connected, stamp));
  }

  lemma LiveId(t: Scene, live: set<nat>, e: nat)
    requires Sound(t, live) && e in live
    ensures e <= R.SIZE_MAX
  {
  }

  lemma {:induction false} MovesQuiet<C>(cfg: Config, w: World<C>, c: C, ps: seq<Pose>, connected: set<C>, stamp: u64)
    requires Good(cfg, w) && c in w.peers && (forall p :: p in ps ==> IsPose(p)) && Mobile(w.table, w.peers[c].entity)
    ensures Quiet(cfg, w, Moves(w, c, ps, connected, stamp))
    decreases |ps|
  {
    hide Good, Move, Mobile, IsPose, Quiet;
    if ps == [] {
      QuietNothing(cfg, w);
    } else {
      assert ps[0] in ps;
      var w1 := Move(w, c, ps[0], connected, stamp);
      MoveQuiet(cfg, w, c, ps[0], connected, stamp);
      QuietMeans(cfg, w, w1);
      MovesQuiet(cfg, w1, c, ps[1..], connected, stamp);
      QuietTwice(cfg, w, w1, Moves(w1, c, ps[1..], connected, stamp));
    }
  }

  lemma QuietMeans<C>(cfg: Config, w: World<C>, w': World<C>)
    requires Quiet(cfg, w, w')
    ensures Good(cfg, w') && SameSeats(w, w')
  {
  }

  lemma EventsQuiet<C>(ph: Physics, cfg: Config, w: World<C>, c: C, payload: seq<byte>, connected: set<C>, stamp: u64)
    requires Good(cfg, w) && c in w.peers
    ensures Quiet(cfg, w, HandleEvents(ph, w, c, payload, connected, stamp))
  {
    hide Good, Quiet, Moves, MovePoses, LookPoses, LastPose, Walked, IsPose;
    QuietNothing(cfg, w);
    var r := Controllable(w.table, w.peers[c].entity);
    if r.Some? && Walked(payload).Some? {
      var moves := MovePoses(ph, r.value.0, r.value.1, Walked(payload).value.0);
      LastIsPose(r.value.1, moves);
      MovesQuiet(cfg, w, c, moves + LookPoses(ph, r.value.0, LastPose(r.value.1, moves), Walked(payload).value.1),
                 connected, stamp);
    }
  }

  /** A change to one record that leaves its log in line. */
  lemma RecordQuiet<C>(cfg: Config, w: World<C>, c: C, p: Peer)
    requires Good(cfg, w) && c in w.peers && p.entity == w.peers[c].entity && p.scene == w.peers[c].scene
    requires forall v :: SyncedTo(w.peers[c], v) ==> SyncedTo(p, v)
    ensures Quiet(cfg, w, w.(peers := w.peers[c := p]))
  {
    hide Sound, VisibleSet, IsVisible, SyncedTo, Rostered, AllSeated, Quiet;
    QuietBy(cfg, w, w.(peers := w.peers[c := p]));
  }

  lemma InboxQuiet<C>(cfg: Config, w: World<C>, c: C, api: nibble, inbox: seq<Frame>)
    requires Good(cfg, w) && c in w.peers
    ensures Quiet(cfg, w, w.(peers := w.peers[c := w.peers[c].(api := api, inbox := inbox)]))
  {
    hide Good, Quiet, Rebuilds;
    RecordQuiet(cfg, w, c, w.peers[c].(api := api, inbox := inbox));
  }

  lemma HeartbeatQuiet<C>(cfg: Config, w: World<C>, c: C, f: Frame, stamp: u64)
    requires Good(cfg, w) && c in w.peers
    ensures Quiet(cfg, w, w.(peers := w.peers[c := Deliver(w.peers[c], HeartbeatReply(f, stamp))]))
  {
    hide Good, Quiet, SyncedTo, Follows, Rebuilds, HeartbeatReply;
    var p, reply := w.peers[c], HeartbeatReply(f, stamp);
    DeliverExtends(p, reply);
    forall v | SyncedTo(p, v)
      ensures SyncedTo(Deliver(p, reply), v)
    {
      RebuildsOne(v, reply, v);
      HeartbeatIsIgnored(v, f, stamp);
      ExtendSync(p, Deliver(p, reply), [reply], v, v);
    }
    RecordQuiet(cfg, w, c, Deliver(p, reply));
  }

  lemma ConsumeQuiet<C>(ph: Physics, cfg: Config, w: World<C>, c: C, connected: set<C>, stamp: u64)
    requires Good(cfg, w) && c in w.peers && w.peers[c].inbox != []
    ensures Quiet(cfg, w, Consume(ph, w, c, connected, stamp))
  {
    hide Good, Quiet, HandleEvents, HeartbeatReply, Deliver;
    var f := w.peers[c].inbox[0];
    var w1 := w.(peers := w.peers[c := w.peers[c].(inbox := w.peers[c].inbox[1..])]);
    InboxQuiet(cfg, w, c, w.peers[c].api, w.peers[c].inbox[1..]);
    QuietMeans(cfg, w, w1);
    var w2 := Consume(ph, w, c, connected, stamp);
    if f.header.command == REQ_USER_UPDATES {
      EventsQuiet(ph, cfg, w1, c, f.payload, connected, stamp);
      QuietTwice(cfg, w, w1, w2);
    } else if f.header.command == REQ_HEARTBEAT {
      HeartbeatQuiet(cfg, w1, c, f, stamp);
      QuietTwice(cfg, w, w1, w2);
    }
  }

  lemma {:induction false} ConsumeUpToQuiet<C>(ph: Physics, cfg: Config, w: World<C>, c: C, n: nat,
                                                     connected: set<C>, stamp: u64)
    requires Good(cfg, w) && c in w.peers
    ensures Quiet(cfg, w, ConsumeUpTo(ph, w, c, n, connected, stamp))
    decreases n
  {
    hide Good, Quiet, Consume;
    if n == 0 || w.peers[c].inbox == [] {
      QuietNothing(cfg, w);
    } else {
      var w1 := Consume(ph, w, c, connected, stamp);
      ConsumeQuiet(ph, cfg, w, c, connected, stamp);
      QuietMeans(cfg, w, w1);
      ConsumeUpToQuiet(ph, cfg, w1, c, n - 1, connected, stamp);
      QuietTwice(cfg, w, w1, ConsumeUpTo(ph, w1, c, n - 1, connected, stamp));
    }
  }

  lemma {:induction false} IncomingQuiet<C>(ph: Physics, cfg: Config, w: World<C>, todo: seq<C>,
                                                  connected: set<C>, stamp: u64)
    requires Good(cfg, w) && forall c :: c in todo ==> c in w.peers
    ensures Quiet(cfg, w, Incoming(ph, w, todo, connected, stamp))
    decreases |todo|
  {
    hide Good, Quiet, ConsumeUpTo;
    QuietNothing(cfg, w);
    if todo != [] {
      assert todo[0] in todo;
      var w1 := if todo[0] in connected then ConsumeUpTo(ph, w, todo[0], MAX_MESSAGES, connected, stamp) else w;
      if todo[0] in connected {
        ConsumeUpToQuiet(ph, cfg, w, todo[0], MAX_MESSAGES, connected, stamp);
      }
      QuietMeans(cfg, w, w1);
      IncomingQuiet(ph, cfg, w1, todo[1..], connected, stamp);
      QuietTwice(cfg, w, w1, Incoming(ph, w1, todo[1..], connected, stamp));
    }
  }

  /** Sending moves packets from the queue to the past and keeps the log. */
  lemma FlushedLog(p: Peer)
    ensures Log(Flushed(p)) == Log(p)
  {
    var n := if |p.queue| < MAX_MESSAGES then |p.queue| else MAX_MESSAGES;
    assert p.queue[..n] + p.queue[n..] == p.queue;
    Associative(p.sent, p.queue[..n], p.queue[n..]);
  }

  lemma OutgoingQuiet<C>(cfg: Config, w: World<C>, connected: set<C>)
    requires Good(cfg, w)
    ensures Quiet(cfg, w, Outgoing(w, connected))
  {
    hide Sound, VisibleSet, IsVisible, Rostered, AllSeated, Quiet, Rebuilds, Log;
    forall c | c in w.peers
      ensures Log(Flushed(w.peers[c])) == Log(w.peers[c])
    {
      FlushedLog(w.peers[c]);
    }
    QuietBy(cfg, w, Outgoing(w, connected));
  }

  lemma SimulateQuiet<C>(cfg: Config, w: World<C>, table: Scene)
    requires Good(cfg, w) && SameShape(w.table, table)
    ensures Quiet(cfg, w, w.(table := table))
  {
    hide Sound, VisibleSet, IsVisible, Rostered, AllSeated, Quiet, SyncedTo, SameShape;
    ShapeSound(w.table, table, w.live);
    QuietBy(cfg, w, w.(table := table));
  }

  // ---------------------------------------------------------------- enemies

  lemma RewoundSound(t: Scene, live: set<nat>, spawner: nat, now: u64)
    requires Sound(t, live) && IsSpawner(t, spawner)
    ensures var u := Rewound(t, spawner, now);
      && Sound(u, live) && u.dead == t.dead && u.next == t.next && VisibleSet(u) == VisibleSet(t)
      && R.Lookup(u, TEMPLATE, spawner) == R.Lookup(t, TEMPLATE, spawner)
      && forall x: nat :: IsVisible(u, x) <==> IsVisible(t, x)
  {
    hide Sound, VisibleSet, IsVisible;
    PutSound(t, live, TIMER, spawner, Common(Timer(now, R.Lookup(t, TIMER, spawner).value.common.maxTime)));
  }

  /** What a spawner spawns shows up. */
  lemma SpawnerShows(t: Scene, live: set<nat>, spawner: nat)
    requires Sound(t, live) && IsSpawner(t, spawner)
    ensures var c: Option<Component> := R.Lookup(t, TEMPLATE, spawner);
      && c.Some? && c.value.Common? && c.value.common.Template?
      && |c.value.common.name| <= INT_MAX && ShowsUp(c.value.common.content)
  {
    hide ShowsUp, R.Allocated;
    assert Fine(t, spawner);
  }

  /** The branch of spawn_enemy that spawns, from the scene t with its timer rewound. */
  lemma HatchGood<C>(cfg: Config, w: World<C>, t: Scene, name: text, content: seq<Component>, position: Vec3,
                           connected: set<C>, stamp: u64)
    requires Good(cfg, w) && Sound(t, w.live) && (forall x: nat :: IsVisible(w.table, x) <==> IsVisible(t, x))
    requires ShowsUp(content) && R.Allocate(t).Some?
    ensures var (base, e) := R.Allocate(t).value;
      var table := PlacedAt(Equip(base, e, content), e, position);
      var f := SpawnFrame(V_1, e, name, EntityOf(table, e), stamp);
      var w' := Broadcast(w.(table := table, live := w.live + {e}), connected, cfg.scene, f, None);
      && Good(cfg, w') && SameSeats(w, w')
      && VisibleSet(table) == VisibleSet(t) + {e} && e !in VisibleSet(t) && e <= R.SIZE_MAX
  {
    hide ShowsUp, Sound, Broadcast, Equip, PlacedAt, VisibleSet, IsVisible, SpawnFrame, EntityOf, Rostered, AllSeated,
         R.Allocate;
    var (base, e) := R.Allocate(t).value;
    EquipSound(t, w.live, content);
    PlacedSound(Equip(base, e, content), w.live + {e}, e, position);
    InVisible(t, e);
    var table := PlacedAt(Equip(base, e, content), e, position);
    var f := SpawnFrame(V_1, e, name, EntityOf(table, e), stamp);
    var w1 := w.(table := table, live := w.live + {e});
    BroadcastSeats(w1, connected, cfg.scene, f, None);
    KeepSeats(cfg, w, Broadcast(w1, connected, cfg.scene, f, None));
  }

  lemma HatchSync<C>(cfg: Config, w: World<C>, w1: World<C>, e: nat, name: text, entity: ComponentStreams.Entity,
                           connected: set<C>, stamp: u64, d: C)
    requires Good(cfg, w) && d in w.players && Synced(w, d) && w1.players == w.players && w1.peers == w.peers
    requires |name| <= INT_MAX && e <= R.SIZE_MAX && e !in VisibleSet(w.table)
    requires VisibleSet(w1.table) == VisibleSet(w.table) + {e}
    ensures Synced(Broadcast(w1, connected, cfg.scene, SpawnFrame(V_1, e, name, entity, stamp), None), d)
      <==> d in connected
  {
    hide SpawnFrame, Sound, SyncedTo, VisibleSet, IsVisible, Apply, Follows, Broadcast;
    var f := SpawnFrame(V_1, e, name, entity, stamp);
    var v := VisibleSet(w.table);
    SpawnAdds(v, V_1, e, name, entity, stamp);
    assert Seated(cfg, w, d);
    BroadcastSync(w1, connected, cfg.scene, f, None, d, v, v + {e});
    BroadcastSeats(w1, connected, cfg.scene, f, None);
  }

  /** spawn_enemy: a player in line stays in line exactly if it is connected or nothing was spawned. */
  lemma EnemyStep<C>(cfg: Config, w: World<C>, ready: bool, due: bool, now: u64, position: Vec3,
                           connected: set<C>, stamp: u64)
    requires Good(cfg, w) && SpawnEnemy(cfg, w, ready, due, now, position, connected, stamp).Some?
    ensures var w' := SpawnEnemy(cfg, w, ready, due, now, position, connected, stamp).value;
      && Good(cfg, w') && SameSeats(w, w')
      && forall d :: d in w.players && Synced(w, d) ==>
           (Synced(w', d) <==> d in connected || VisibleSet(w'.table) == VisibleSet(w.table))
  {
    hide Good, Broadcast, VisibleSet, Synced, SpawnFrame, EntityOf, Enemies, Equip, PlacedAt, IsSpawner, Rewound,
         ShowsUp, Sound, R.Allocate;
    var w' := SpawnEnemy(cfg, w, ready, due, now, position, connected, stamp).value;
    var spawner := FirstSpawner(w.table, w.table.next);
    QuietNothing(cfg, w);
    if ready && spawner.Some? && due {
      var t := Rewound(w.table, spawner.value, now);
      GoodMeans(cfg, w);
      RewoundSound(w.table, w.live, spawner.value, now);
      SpawnerShows(w.table, w.live, spawner.value);
      if |Enemies(t)| >= MAX_ENEMIES {
        RewoundQuiet(cfg, w, spawner.value, now);
      } else {
        var (base, e) := R.Allocate(t).value;
        var c := R.Lookup(w.table, TEMPLATE, spawner.value).value.common;
        HatchGood(cfg, w, t, c.name, c.content, position, connected, stamp);
        var table := PlacedAt(Equip(base, e, c.content), e, position);
        forall d | d in w.players && Synced(w, d)
          ensures Synced(w', d) <==> d in connected
        {
          HatchSync(cfg, w, w.(table := table, live := w.live + {e}), e, c.name, EntityOf(table, e), connected, stamp,
                    d);
        }
        BroadcastSeats(w.(table := table, live := w.live + {e}), connected, cfg.scene,
                       SpawnFrame(V_1, e, c.name, EntityOf(table, e), stamp), None);
      }
    }
  }

  lemma GoodMeans<C>(cfg: Config, w: World<C>)
    requires Good(cfg, w)
    ensures Sound(w.table, w.live) && Rostered(w)
  {
  }

  lemma RewoundQuiet<C>(cfg: Config, w: World<C>, spawner: nat, now: u64)
    requires Good(cfg, w) && IsSpawner(w.table, spawner)
    ensures Quiet(cfg, w, w.(table := Rewound(w.table, spawner, now)))
  {
    hide Sound, VisibleSet, IsVisible, Rostered, AllSeated, Quiet, SyncedTo, Rewound, IsSpawner;
    RewoundSound(w.table, w.live, spawner, now);
    QuietBy(cfg, w, w.(table := Rewound(w.table, spawner, now)));
  }

  // ---------------------------------------------------------------- one step

  lemma StepGood<C>(cfg: Config, w: World<C>, turn: Turn<C>)
    requires Playable(cfg) && Good(cfg, w) && After(cfg, w, turn).Some?
    ensures Good(cfg, After(cfg, w, turn).value)
  {
    hide Good, WithPlayer, RemovePlayer, SpawnEnemy, Incoming, Outgoing, R.Allocate, Playable, Quiet, SameShape,
         Rostered;
    match turn.step
    case Join(c, peer) =>
      if MayJoin(w.players, cfg.maxPlayers, turn.connected, c) {
        JoinGood(cfg, w, c, peer, turn.connected, turn.stamp);
      }
    case Leave(c) => LeavesGood(cfg, w, c, turn.connected, turn.stamp);
    case Enemy(ready, due, now, position) => EnemyStep(cfg, w, ready, due, now, position, turn.connected, turn.stamp);
    case _ => QuietStep(cfg, w, turn);
  }

  lemma LeavesGood<C>(cfg: Config, w: World<C>, c: C, connected: set<C>, stamp: u64)
    requires Good(cfg, w)
    ensures c in w.players ==> c in w.peers
    ensures RemovePlayer(w, c, connected, stamp).Some? <==> c in w.players
    ensures c in w.players ==> Good(cfg, RemovePlayer(w, c, connected, stamp).value)
  {
    hide Good, Broadcast, R.Retire, Without, DestroyFrame;
    GoodMeans(cfg, w);
    if c in w.players {
      LeaveGood(cfg, w, c, connected, stamp);
    }
  }

  /** Arrivals, consumed packets, sent packets, simulation and a check that finds nobody show and hide nothing. */
  lemma QuietStep<C>(cfg: Config, w: World<C>, turn: Turn<C>)
    requires Good(cfg, w) && !turn.step.Join? && !turn.step.Leave? && !turn.step.Enemy?
    ensures Rostered(w) && (After(cfg, w, turn).None? ==> turn.step.Check? && !AllConnected(w.players, turn.connected))
    ensures After(cfg, w, turn).Some? ==>
      Quiet(cfg, w, After(cfg, w, turn).value) && Good(cfg, After(cfg, w, turn).value)
  {
    hide Good, Quiet, Incoming, Outgoing, SameShape;
    QuietNothing(cfg, w);
    GoodMeans(cfg, w);
    match turn.step {
      case Arrive(c, f) => if c in w.peers { InboxQuiet(cfg, w, c, f.header.api, w.peers[c].inbox + [f]); }
      case Receive(ph) => IncomingQuiet(ph, cfg, w, w.players, turn.connected, turn.stamp);
      case Send => OutgoingQuiet(cfg, w, turn.connected);
      case Simulate(table) => if SameShape(w.table, table) { SimulateQuiet(cfg, w, table); }
      case Check =>
    }
    if After(cfg, w, turn).Some? {
      QuietMeans(cfg, w, After(cfg, w, turn).value);
    }
  }

  /** A player in line is still in line after a step it stays for, exactly if it was connected or nothing appeared
      or disappeared. */
  lemma StepSync<C>(cfg: Config, w: World<C>, turn: Turn<C>, d: C)
    requires Playable(cfg) && Good(cfg, w) && After(cfg, w, turn).Some?
    requires d in w.players && Synced(w, d) && turn.step != Leave(d)
    ensures var w' := After(cfg, w, turn).value;
      d in w'.players && (Synced(w', d) <==> d in turn.connected || VisibleSet(w'.table) == VisibleSet(w.table))
  {
    hide Good, WithPlayer, RemovePlayer, SpawnEnemy, Incoming, Outgoing, R.Allocate, Playable, Quiet, SameShape,
         Rostered, Synced, VisibleSet;
    GoodMeans(cfg, w);
    var w' := After(cfg, w, turn).value;
    match turn.step
    case Join(c, peer) =>
      if MayJoin(w.players, cfg.maxPlayers, turn.connected, c) {
        JoinSync(cfg, w, c, peer, turn.connected, turn.stamp, d);
        JoinShows(cfg, w, c, peer, turn.connected, turn.stamp);
      }
    case Leave(c) =>
      LeavesGood(cfg, w, c, turn.connected, turn.stamp);
      if c in w.players {
        LeaveSync(cfg, w, c, turn.connected, turn.stamp, d);
        LeaveHides(cfg, w, c, turn.connected, turn.stamp);
      }
    case Enemy(ready, due, now, position) => EnemyStep(cfg, w, ready, due, now, position, turn.connected, turn.stamp);
    case _ =>
      QuietStep(cfg, w, turn);
      QuietSync(cfg, w, w', d);
  }

  lemma QuietSync<C>(cfg: Config, w: World<C>, w': World<C>, d: C)
    requires Quiet(cfg, w, w') && d in w.players
    ensures d in w'.players && VisibleSet(w'.table) == VisibleSet(w.table) && (Synced(w, d) ==> Synced(w', d))
  {
    hide Good, VisibleSet, Synced;
  }

  lemma JoinShows<C>(cfg: Config, w: World<C>, c: C, peer: Peer, connected: set<C>, stamp: u64)
    requires Playable(cfg) && Good(cfg, w) && MayJoin(w.players, cfg.maxPlayers, connected, c)
    requires R.Allocate(w.table).Some?
    ensures var (base, e) := R.Allocate(w.table).value;
      var w' := WithPlayer(cfg, w, c, peer, connected, stamp, base, e);
      w'.players == w.players + [c] && VisibleSet(w'.table) != VisibleSet(w.table)
  {
    hide WithPlayer, Equip, VisibleSet, IsVisible, ShowsUp, Sound, R.Allocate;
    JoinScene(cfg, w, c, peer, connected, stamp);
    EquipSound(w.table, w.live, cfg.player.components);
    InVisible(w.table, R.Allocate(w.table).value.1);
  }

  lemma LeaveHides<C>(cfg: Config, w: World<C>, c: C, connected: set<C>, stamp: u64)
    requires Good(cfg, w) && c in w.players && RemovePlayer(w, c, connected, stamp).Some?
    ensures var w' := RemovePlayer(w, c, connected, stamp).value;
      (forall d :: d in w'.players <==> d in w.players && d != c) && VisibleSet(w'.table) != VisibleSet(w.table)
  {
    hide RemovePlayer, VisibleSet, IsVisible, Sound, R.Retire, Without;
    assert Seated(cfg, w, c);
    LeaveScene(cfg, w, c, connected, stamp);
    WithoutOne(w.players, c);
    RetireSound(w.table, w.live, w.peers[c].entity);
    InVisible(w.table, w.peers[c].entity);
  }

  // ---------------------------------------------------------------- runs

  /** The player is connected whenever something happens and does not leave. */
  predicate Stays<C(==)>(turns: seq<Turn<C>>, c: C) {
    forall i :: 0 <= i < |turns| ==> c in turns[i].connected && turns[i].step != Leave(c)
  }

  lemma {:induction false} RunKeeps<C>(cfg: Config, w: World<C>, turns: seq<Turn<C>>, c: C)
    requires Playable(cfg) && Good(cfg, w) && Run(cfg, w, turns).Some?
    ensures Good(cfg, Run(cfg, w, turns).value)
    ensures c in w.players && Synced(w, c) && Stays(turns, c) ==>
      c in Run(cfg, w, turns).value.players && Synced(Run(cfg, w, turns).value, c)
    decreases |turns|
  {
    hide Good, Synced, After, Playable;
    if turns != [] {
      GoodMeans(cfg, w);
      var w' := After(cfg, w, turns[0]).value;
      StepGood(cfg, w, turns[0]);
      if c in w.players && Synced(w, c) && Stays(turns, c) {
        StepSync(cfg, w, turns[0], c);
      }
      RunKeeps(cfg, w', turns[1..], c);
    }
  }

  /** Replication: whatever happened before a player was admitted and whatever happens while it stays, handling all
      packets queued to it since then, CONNECT and SPAWN adding and DESTROY removing, gives exactly the scene's visible
      entities. Exactly the MOVED packets throw on the way, each for its length alone, so that a client that stops at
      the first exception sees the scene exactly if nobody has moved. */
  lemma ReplayEqualsScene<C>(cfg: Config, w: World<C>, before: seq<Turn<C>>, w1: World<C>, join: Turn<C>,
                             w2: World<C>, after: seq<Turn<C>>, w3: World<C>, c: C)
    requires Playable(cfg) && Good(cfg, w) && Run(cfg, w, before) == Some(w1)
    requires join.step.Join? && join.step.c == c && After(cfg, w1, join) == Some(w2)
    requires c !in w1.players && c in w2.players
    requires Stays(after, c) && Run(cfg, w2, after) == Some(w3)
    ensures Synced(w3, c) && w3.peers[c].joined <= |Log(w3.peers[c])|
    ensures ReplaysTo(Log(w3.peers[c])[w3.peers[c].joined..], VisibleSet(w3.table))
  {
    hide Good, Run, WithPlayer, Playable, R.Allocate, Rebuilds, ReplaysTo, VisibleSet, Rostered;
    RunKeeps(cfg, w, before, c);
    NewcomerSynced(cfg, w1, c, join.step.peer, join.connected, join.stamp);
    StepGood(cfg, w1, join);
    RunKeeps(cfg, w2, after, c);
    RebuildsMeans(Log(w3.peers[c])[w3.peers[c].joined..], VisibleSet(w3.table));
  }

  /** A template of the start scene: a tag that fits the wire, and what a skybox spawns shows up. */
  ghost predicate FineTemplate(cs: seq<Component>) {
    var tag, template := LastOf(cs, TAG), LastOf(cs, TEMPLATE);
    && (tag.Some? ==> |TagOf(tag.value)| <= INT_MAX)
    && (tag == Some(Common(Tag(SKYBOX))) && template.Some? ==> ShowsBlueprint(template.value))
  }

  lemma TemplateFine(t: Scene, e: nat, cs: seq<Component>, x: nat)
    requires FineTemplate(cs) && Bare(t, e) && Fine(t, x)
    ensures Fine(Equip(t, e, cs), x)
  {
    hide Equip, LastOf, ShowsBlueprint;
    EquipCell(t, e, cs, TAG, x);
    EquipCell(t, e, cs, TEMPLATE, x);
  }

  lemma {:induction false} LoadedIsSound(entities: seq<seq<Component>>)
    requires |entities| <= R.SIZE_MAX && forall cs :: cs in entities ==> FineTemplate(cs)
    ensures Sound(Loaded(entities), FirstIds(|entities|))
    ensures Loaded(entities).dead == [] && Loaded(entities).next == |entities|
    decreases |entities|
  {
    hide Equip, Fine, FineTemplate, R.Allocated;
    if entities == [] {
      NobodyAllocated();
    } else {
      var init, cs := entities[..|entities| - 1], entities[|entities| - 1];
      LoadedIsSound(init);
      var t := Loaded(init);
      var live := FirstIds(|init|);
      R.SpawnIsFresh(t, live);
      AllocatedIsBare(t, live);
      var (base, e) := R.Allocate(t).value;
      EquipAllocated(base, live + {e}, e, cs);
      EquipCell(base, e, cs, TAG, e);
      assert cs in entities;
      forall x: nat
        ensures Fine(Loaded(entities), x)
      {
        SameFine(t, base, x);
        TemplateFine(base, e, cs, x);
      }
    }
  }

  lemma NobodyAllocated()
    ensures R.Allocated(Loaded([]), {}) && forall x: nat :: Fine(Loaded([]), x)
  {
  }

  /** A game starts good: its scene is loaded and nobody plays yet. */
  lemma StartIsGood<C>(cfg: Config, entities: seq<seq<Component>>)
    requires |entities| <= R.SIZE_MAX && forall cs :: cs in entities ==> FineTemplate(cs)
    ensures Good(cfg, World<C>.World(Loaded(entities), FirstIds(|entities|), [], map[]))
  {
    hide Sound, Loaded, FineTemplate;
    LoadedIsSound(entities);
  }

  // ---------------------------------------------------------------- checkDisconnect

  /** What checkDisconnect does for one player that is no longer connected: everyone is told, its entity is killed, and
      removePlayer kills it again. */
  function Dropped<C>(w: World<C>, c: C, connected: set<C>, stamp: u64): Option<World<C>>
    requires c in w.players && c in w.peers
  {
    var p := w.peers[c];
    var w1 := Broadcast(w, connected, p.scene, DisconnectFrame(p.entity, stamp), None);
    RemovePlayer(w1.(table := R.Retire(w1.table, p.entity)), c, connected, stamp)
  }

  function DisconnectFrame(e: nat, stamp: u64): Frame {
    PayloadStreams.WriteAll(Blank(V_1, REQ_DISCONNECT, stamp), [IdField(e)])
  }

  lemma DroppedTable<C>(w: World<C>, c: C, connected: set<C>, stamp: u64)
    requires c in w.players && c in w.peers
    ensures var r := Dropped(w, c, connected, stamp);
      r.Some? && r.value.table == R.Retire(R.Retire(w.table, w.peers[c].entity), w.peers[c].entity)
  {
    hide R.Retire, DisconnectFrame, DestroyFrame, Hears, WithApi, Without;
    BroadcastExtends(w, connected, w.peers[c].scene, DisconnectFrame(w.peers[c].entity, stamp), None, c);
  }

  /** The first player checkDisconnect finds without a connection. */
  function FirstLost<C(==)>(players: seq<C>, connected: set<C>): (r: Option<C>)
    ensures r.Some? ==> r.value in players && r.value !in connected
    ensures r.None? <==> AllConnected(players, connected)
  {
    if players == [] then None else
    if players[0] !in connected then Some(players[0]) else FirstLost(players[1..], connected)
  }

  /** checkDisconnect up to the first player it drops; it then goes on over the list it has just shortened. */
  function CheckDisconnect<C>(w: World<C>, connected: set<C>, stamp: u64): Option<World<C>>
    requires forall c :: c in w.players ==> c in w.peers
  {
    match FirstLost(w.players, connected)
    case None => Some(w)
    case Some(c) => Dropped(w, c, connected, stamp)
  }

  /** It does nothing exactly if every player is connected, and that is the step Check of the runs above. */
  lemma CheckDisconnectIsQuiet<C>(cfg: Config, w: World<C>, connected: set<C>, stamp: u64)
    requires Rostered(w)
    ensures CheckDisconnect(w, connected, stamp) == Some(w) <==> AllConnected(w.players, connected)
    ensures After(cfg, w, Turn(Check, connected, stamp)) ==
      if CheckDisconnect(w, connected, stamp) == Some(w) then Some(w) else None
  {
    hide Dropped, R.Retire, Distinct;
    if FirstLost(w.players, connected).Some? {
      DroppedPlayers(w, FirstLost(w.players, connected).value, connected, stamp);
    }
  }

  lemma DroppedPlayers<C>(w: World<C>, c: C, connected: set<C>, stamp: u64)
    requires Rostered(w) && c in w.players
    ensures var r := Dropped(w, c, connected, stamp);
      r.Some? && r.value.players == Without(w.players, c) != w.players
  {
    hide R.Retire, DisconnectFrame, DestroyFrame, Hears, WithApi, Without;
    WithoutOne(w.players, c);
  }

  /** A lost player ends the runs above: once it is dropped no set of live entities fits the allocator, and when the
      older dead ids are used up two spawns in a row get the same id. */
  lemma DroppingBreaksTheAllocator<C>(cfg: Config, w: World<C>, c: C, connected: set<C>, stamp: u64)
    requires Good(cfg, w) && c in w.players
    ensures var r := Dropped(w, c, connected, stamp);
      && r.Some? && (forall live :: !R.Allocated(r.value.table, live))
      && R.HandsOutTwice(r.value.table, |w.table.dead|, w.peers[c].entity)
  {
    hide Sound, AllSeated, Dropped, R.HandsOutTwice;
    var e := w.peers[c].entity;
    DroppedTable(w, c, connected, stamp);
    R.DoubleKillDuplicates(w.table, e);
    forall live
      ensures !R.Allocated(R.Retire(R.Retire(w.table, e), e), live)
    {
      TwiceDead(w.table, e, live);
    }
  }

  lemma TwiceDead(t: Scene, e: nat, live: set<nat>)
    ensures !R.Allocated(R.Retire(R.Retire(t, e), e), live)
  {
    var dead := R.Retire(R.Retire(t, e), e).dead;
    assert dead[|t.dead|] == dead[|t.dead| + 1];
  }
}
