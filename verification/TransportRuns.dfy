/** The transport and heartbeat facts over whole runs: what each step of the game does to the queues and the datagrams
    of each player. */
module TransportRuns {
  import opened Wrappers
  import opened Bytes
  import opened Sequences
  import opened Packets
  import opened Components
  import opened GameModel
  import opened GameRuns
  import opened Transport
  import opened EnemyCap
  import opened UserEvents
  import R = Registries
  import ClientApi

  // ---------------------------------------------------------------- consuming packets

  /** The same players, each with its queues kept. */
  ghost predicate AllKept<C>(w: World<C>, w': World<C>) {
    w'.peers.Keys == w.peers.Keys && forall c :: c in w.peers ==> Kept(w.peers[c], w'.peers[c])
  }

  ghost predicate AllGrew<C>(w: World<C>, w': World<C>) {
    w'.peers.Keys == w.peers.Keys && forall c :: c in w.peers ==> Grew(w.peers[c], w'.peers[c])
  }

  lemma KeptTwice<C>(a: World<C>, b: World<C>, c: World<C>)
    requires AllKept(a, b) && AllKept(b, c)
    ensures AllKept(a, c)
  {
    hide Carried, Tidy, Beats;
  }

  lemma AllGrewIsKept<C>(w: World<C>, w': World<C>)
    requires AllGrew(w, w')
    ensures AllKept(w, w')
  {
    hide Grew, Kept;
    forall c | c in w.peers
      ensures Kept(w.peers[c], w'.peers[c])
    {
      GrewIsKept(w.peers[c], w'.peers[c]);
    }
  }

  lemma BroadcastAllGrew<C>(w: World<C>, connected: set<C>, scene: text, f: Frame, except: Option<C>)
    requires News(f)
    ensures AllGrew(w, Broadcast(w, connected, scene, f, except))
  {
    hide Grew, News, Hears;
    forall c | c in w.peers
      ensures Grew(w.peers[c], Broadcast(w, connected, scene, f, except).peers[c])
    {
      BroadcastGrew(w, connected, scene, f, except, c);
    }
  }

  lemma {:induction false} MovesGrew<C>(w: World<C>, c: C, ps: seq<Pose>, connected: set<C>, stamp: u64)
    requires c in w.peers && forall p :: p in ps ==> IsPose(p)
    ensures AllGrew(w, Moves(w, c, ps, connected, stamp))
    decreases |ps|
  {
    hide Grew, News, Broadcast, MovedFrame, IsPose;
    if ps == [] {
      forall d | d in w.peers
        ensures Grew(w.peers[d], w.peers[d])
      {
        GrewNothing(w.peers[d]);
      }
    } else {
      assert ps[0] in ps;
      var w1 := Move(w, c, ps[0], connected, stamp);
      var e := w.peers[c].entity;
      MovedNews(V_1, e, ps[0], stamp);
      BroadcastAllGrew(w.(table := w1.table), connected, w.peers[c].scene, MovedFrame(V_1, e, ps[0], stamp), None);
      MoveTable(w, c, ps[0], connected, stamp);
      MovesGrew(w1, c, ps[1..], connected, stamp);
      forall d | d in w.peers
        ensures Grew(w.peers[d], Moves(w, c, ps, connected, stamp).peers[d])
      {
        GrewTwice(w.peers[d], w1.peers[d], Moves(w1, c, ps[1..], connected, stamp).peers[d]);
      }
    }
  }

  lemma MoveTable<C>(w: World<C>, c: C, p: Pose, connected: set<C>, stamp: u64)
    requires c in w.peers && IsPose(p)
    ensures var w1 := Move(w, c, p, connected, stamp);
      w1 == Broadcast(w.(table := w1.table), connected, w.peers[c].scene,
                      MovedFrame(V_1, w.peers[c].entity, p, stamp), None)
  {
    hide MovedFrame, R.Put, Hears, WithApi;
  }

  lemma EventsGrew<C>(ph: Physics, w: World<C>, c: C, payload: seq<byte>, connected: set<C>, stamp: u64)
    requires c in w.peers
    ensures AllGrew(w, HandleEvents(ph, w, c, payload, connected, stamp))
  {
    hide Grew, Moves, MovePoses, LookPoses, LastPose, Walked, IsPose;
    var r := Controllable(w.table, w.peers[c].entity);
    if r.Some? && Walked(payload).Some? {
      var moves := MovePoses(ph, r.value.0, r.value.1, Walked(payload).value.0);
      LastIsPose(r.value.1, moves);
      MovesGrew(w, c, moves + LookPoses(ph, r.value.0, LastPose(r.value.1, moves), Walked(payload).value.1),
                connected, stamp);
    } else {
      forall d | d in w.peers
        ensures Grew(w.peers[d], w.peers[d])
      {
        GrewNothing(w.peers[d]);
      }
    }
  }

  /** A packet that is no heartbeat leaves the receive queue. */
  lemma PopKept(p: Peer)
    requires p.inbox != [] && p.inbox[0].header.command != REQ_HEARTBEAT
    ensures Kept(p, p.(inbox := p.inbox[1..]))
  {
    hide Regular;
    Empty(Apis(p.inbox[1..], REQ_HEARTBEAT));
  }

  /** A heartbeat leaves the receive queue and its reply joins the send queue. */
  lemma HeartbeatKept(p: Peer, stamp: u64)
    requires p.inbox != [] && p.inbox[0].header.command == REQ_HEARTBEAT
    ensures Kept(p, Deliver(p.(inbox := p.inbox[1..]), HeartbeatReply(p.inbox[0], stamp)))
  {
    var f, reply := p.inbox[0], HeartbeatReply(p.inbox[0], stamp);
    var p' := Deliver(p.(inbox := p.inbox[1..]), reply);
    Associative(p.sent, p.queue, [reply]);
    ApisAppend(Log(p), [reply], REP_HEARTBEAT);
    OneReply(f, stamp);
    Associative(Apis(Log(p), REP_HEARTBEAT), [f.header.api], Apis(p.inbox[1..], REQ_HEARTBEAT));
    assert Beats(p') == Beats(p);
    assert f in p.inbox;
  }

  lemma OneReply(f: Frame, stamp: u64)
    ensures Apis([HeartbeatReply(f, stamp)], REP_HEARTBEAT) == [f.header.api] && Regular(HeartbeatReply(f, stamp))
  {
    assert [HeartbeatReply(f, stamp)][1..] == [];
  }

  lemma ConsumeKept<C>(ph: Physics, w: World<C>, c: C, connected: set<C>, stamp: u64)
    requires c in w.peers && w.peers[c].inbox != []
    ensures AllKept(w, Consume(ph, w, c, connected, stamp))
  {
    hide Kept, HandleEvents, Deliver, HeartbeatReply;
    var p := w.peers[c];
    var w1 := w.(peers := w.peers[c := p.(inbox := p.inbox[1..])]);
    forall d | d in w.peers && d != c
      ensures Kept(w.peers[d], w.peers[d])
    {
      GrewNothing(w.peers[d]);
    }
    if p.inbox[0].header.command == REQ_HEARTBEAT {
      HeartbeatKept(p, stamp);
    } else {
      PopKept(p);
      if p.inbox[0].header.command == REQ_USER_UPDATES {
        EventsGrew(ph, w1, c, p.inbox[0].payload, connected, stamp);
        AllGrewIsKept(w1, HandleEvents(ph, w1, c, p.inbox[0].payload, connected, stamp));
        KeptTwice(w, w1, HandleEvents(ph, w1, c, p.inbox[0].payload, connected, stamp));
      }
    }
  }

  lemma {:induction false} ConsumeUpToKept<C>(ph: Physics, w: World<C>, c: C, n: nat, connected: set<C>, stamp: u64)
    requires c in w.peers
    ensures AllKept(w, ConsumeUpTo(ph, w, c, n, connected, stamp))
    decreases n
  {
    hide AllKept, Consume;
    if n == 0 || w.peers[c].inbox == [] {
      NothingGrew(w);
    } else {
      var w1 := Consume(ph, w, c, connected, stamp);
      ConsumeKept(ph, w, c, connected, stamp);
      ConsumeUpToKept(ph, w1, c, n - 1, connected, stamp);
      KeptTwice(w, w1, ConsumeUpTo(ph, w1, c, n - 1, connected, stamp));
    }
  }

  lemma {:induction false} IncomingKept<C>(ph: Physics, w: World<C>, todo: seq<C>, connected: set<C>, stamp: u64)
    requires forall c :: c in todo ==> c in w.peers
    ensures AllKept(w, Incoming(ph, w, todo, connected, stamp))
    decreases |todo|
  {
    hide AllKept, ConsumeUpTo;
    NothingGrew(w);
    if todo != [] {
      assert todo[0] in todo;
      var w1 := if todo[0] in connected then ConsumeUpTo(ph, w, todo[0], MAX_MESSAGES, connected, stamp) else w;
      if todo[0] in connected {
        ConsumeUpToKept(ph, w, todo[0], MAX_MESSAGES, connected, stamp);
      }
      IncomingKept(ph, w1, todo[1..], connected, stamp);
      KeptTwice(w, w1, Incoming(ph, w1, todo[1..], connected, stamp));
    }
  }

  lemma FlushedKept(p: Peer)
    ensures Kept(p, Flushed(p))
  {
    hide ClientApi.Joined, Regular, Carried, Apis;
    FlushedLog(p);
    if Carried(p) {
      FlushedCarries(p);
    }
  }

  // ---------------------------------------------------------------- joining, leaving, spawning

  lemma JoinGrew<C>(cfg: Config, w: World<C>, c: C, peer: Peer, connected: set<C>, stamp: u64, base: Scene, e: nat)
    ensures var w' := WithPlayer(cfg, w, c, peer, connected, stamp, base, e);
      && w'.peers.Keys == w.peers.Keys + {c} && Kept(peer, w'.peers[c])
      && forall d :: d in w.peers && d != c ==> Grew(w.peers[d], w'.peers[d])
  {
    hide Kept, Grew, News, Equip, VisibleFrames, SpawnFrame, ConnectFrame, Broadcast, Deliver;
    var w' := WithPlayer(cfg, w, c, peer, connected, stamp, base, e);
    var table := Equip(base, e, cfg.player.components);
    var newcomer := peer.(scene := cfg.scene, entity := e, joined := |Log(peer)|);
    var hello := ConnectFrame(peer.api, e, cfg.player.name, cfg.scene, stamp);
    var greeted := Greeted(cfg, peer, e, stamp);
    var w1 := World(table, w.live + {e}, w.players + [c], w.peers[c := greeted]);
    var f := SpawnFrame(peer.api, e, cfg.player.name, map[], stamp);
    SpawnNews(peer.api, e, cfg.player.name, map[], stamp);
    BroadcastAllGrew(w1, connected, cfg.scene, f, Some(c));
    NewcomerKept(peer, newcomer, hello, VisibleFrames(table, table.next, e, peer.api, stamp), cfg, e, table, stamp);
  }

  lemma NewcomerKept(peer: Peer, newcomer: Peer, hello: Frame, all: seq<Frame>, cfg: Config, e: nat, table: Scene,
                     stamp: u64)
    requires newcomer == peer.(scene := newcomer.scene, entity := newcomer.entity, joined := newcomer.joined)
    requires hello == ConnectFrame(peer.api, e, cfg.player.name, cfg.scene, stamp)
    requires all == VisibleFrames(table, table.next, e, peer.api, stamp)
    ensures Kept(peer, Deliver(newcomer, hello).(queue := Deliver(newcomer, hello).queue + all))
  {
    hide News, VisibleFrames, ConnectFrame, Tidy, Carried;
    ConnectNews(peer.api, e, cfg.player.name, cfg.scene, stamp);
    VisibleNews(table, table.next, e, peer.api, stamp);
    var p' := Deliver(newcomer, hello).(queue := Deliver(newcomer, hello).queue + all);
    Associative(newcomer.queue, [hello], all);
    PartsOfSum(newcomer.queue, [hello] + all);
    GrewIsKept(newcomer, p');
    SeatIsKept(peer, newcomer);
  }

  lemma SeatIsKept(p: Peer, q: Peer)
    requires q == p.(scene := q.scene, entity := q.entity, joined := q.joined)
    ensures Kept(p, q)
  {
    hide Regular, Apis;
  }

  lemma LeaveGrew<C>(w: World<C>, c: C, connected: set<C>, stamp: u64)
    requires c in w.players ==> c in w.peers
    ensures RemovePlayer(w, c, connected, stamp).Some? <==> c in w.players
    ensures c in w.players ==> var w' := RemovePlayer(w, c, connected, stamp).value;
      w'.peers.Keys == w.peers.Keys - {c} && forall d :: d in w'.peers ==> Grew(w.peers[d], w'.peers[d])
  {
    hide Grew, News, DestroyFrame, Broadcast, R.Retire, Without;
    if c in w.players {
      var e := w.peers[c].entity;
      var w1 := World(R.Retire(w.table, e), w.live - {e}, Without(w.players, c), w.peers - {c});
      DestroyNews(V_1, e, stamp);
      BroadcastAllGrew(w1, connected, w.peers[c].scene, DestroyFrame(V_1, e, stamp), None);
    }
  }

  lemma EnemyGrew<C>(cfg: Config, w: World<C>, ready: bool, due: bool, now: u64, position: Vec3,
                           connected: set<C>, stamp: u64)
    requires SpawnEnemy(cfg, w, ready, due, now, position, connected, stamp).Some?
    ensures AllGrew(w, SpawnEnemy(cfg, w, ready, due, now, position, connected, stamp).value)
  {
    hide Grew, News, SpawnFrame, EntityOf, Broadcast, Equip, PlacedAt, IsSpawner, Rewound, R.Allocate, Enemies;
    NothingGrew(w);
    var spawner := FirstSpawner(w.table, w.table.next);
    if ready && spawner.Some? && due {
      var t := Rewound(w.table, spawner.value, now);
      if |Enemies(t)| < MAX_ENEMIES {
        BlueprintOf(w.table, spawner.value, now);
        var (base, e) := R.Allocate(t).value;
        var blueprint := R.Lookup(t, TEMPLATE, spawner.value).value.common;
        var table := PlacedAt(Equip(base, e, blueprint.content), e, position);
        SpawnNews(V_1, e, blueprint.name, EntityOf(table, e), stamp);
        BroadcastAllGrew(w.(table := table, live := w.live + {e}), connected, cfg.scene,
                         SpawnFrame(V_1, e, blueprint.name, EntityOf(table, e), stamp), None);
      }
    }
  }

  lemma NothingGrew<C>(w: World<C>)
    ensures AllGrew(w, w) && AllKept(w, w)
  {
    hide Grew, Kept;
    forall d | d in w.peers
      ensures Grew(w.peers[d], w.peers[d]) && Kept(w.peers[d], w.peers[d])
    {
      GrewNothing(w.peers[d]);
    }
  }

  // ---------------------------------------------------------------- receive queues

  predicate Drains(p: Peer, p': Peer, n: nat) {
    p'.inbox == if n <= |p.inbox| then p.inbox[n..] else []
  }

  lemma ConsumeInboxes<C>(ph: Physics, w: World<C>, c: C, connected: set<C>, stamp: u64)
    requires c in w.peers && w.peers[c].inbox != []
    ensures var w' := Consume(ph, w, c, connected, stamp);
      w'.peers[c].inbox == w.peers[c].inbox[1..]
      && forall d :: d in w.peers && d != c ==> w'.peers[d].inbox == w.peers[d].inbox
  {
    hide HandleEvents, HeartbeatReply, News;
    var p := w.peers[c];
    var w1 := w.(peers := w.peers[c := p.(inbox := p.inbox[1..])]);
    EventsGrew(ph, w1, c, p.inbox[0].payload, connected, stamp);
    GrewInboxes(w1, HandleEvents(ph, w1, c, p.inbox[0].payload, connected, stamp));
  }

  lemma GrewInboxes<C>(w: World<C>, w': World<C>)
    requires AllGrew(w, w')
    ensures forall d :: d in w.peers ==> w'.peers[d].inbox == w.peers[d].inbox
  {
    forall d | d in w.peers
      ensures w'.peers[d].inbox == w.peers[d].inbox
    {
      assert Grew(w.peers[d], w'.peers[d]);
    }
  }

  lemma {:induction false} ConsumeUpToInboxes<C>(ph: Physics, w: World<C>, c: C, n: nat, connected: set<C>, stamp: u64)
    requires c in w.peers
    ensures var w' := ConsumeUpTo(ph, w, c, n, connected, stamp);
      Drains(w.peers[c], w'.peers[c], n)
      && forall d :: d in w.peers && d != c ==> w'.peers[d].inbox == w.peers[d].inbox
    decreases n
  {
    hide Consume;
    if n > 0 && w.peers[c].inbox != [] {
      ConsumeInboxes(ph, w, c, connected, stamp);
      ConsumeUpToInboxes(ph, Consume(ph, w, c, connected, stamp), c, n - 1, connected, stamp);
    }
  }

  lemma {:induction false} IncomingInboxes<C>(ph: Physics, w: World<C>, todo: seq<C>, connected: set<C>, stamp: u64)
    requires Distinct(todo) && forall c :: c in todo ==> c in w.peers
    ensures var w' := Incoming(ph, w, todo, connected, stamp);
      forall d :: d in w.peers ==>
        Drains(w.peers[d], w'.peers[d], if d in todo && d in connected then MAX_MESSAGES else 0)
    decreases |todo|
  {
    hide ConsumeUpTo;
    if todo != [] {
      assert todo[0] in todo;
      DistinctTail(todo);
      var w1 := if todo[0] in connected then ConsumeUpTo(ph, w, todo[0], MAX_MESSAGES, connected, stamp) else w;
      ConsumeUpToInboxes(ph, w, todo[0], MAX_MESSAGES, connected, stamp);
      IncomingInboxes(ph, w1, todo[1..], connected, stamp);
    }
  }
}
