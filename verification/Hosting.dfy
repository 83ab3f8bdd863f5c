/** The whole server: every instance of every game is a world of its own, and its players can rebuild its scene. */
module Hosting {
  import opened Wrappers
  import opened Bytes
  import opened Sequences
  import opened Packets
  import opened Components
  import opened GameModel
  import opened Replication
  import opened GameRuns
  import opened Synchronizers
  import R = Registries
  import S = Sessions
  import M = Matchmaking
  import Runs = MatchmakingRuns
  import Sv = Servers

  /** What a configuration says about each instance: the game's parameters and its start scene. */
  datatype Setup = Setup(game: Config, entities: seq<seq<Component>>)

  ghost predicate Suits(setup: Setup, cfg: M.GameConfig) {
    && Playable(setup.game) && setup.game.maxPlayers == cfg.maxPlayers
    && |setup.entities| <= R.SIZE_MAX && forall cs :: cs in setup.entities ==> FineTemplate(cs)
  }

  ghost predicate Equipped(cat: M.Catalogue, setups: map<text, Setup>) {
    setups.Keys == cat.Keys && forall g :: g in cat ==> Suits(setups[g], cat[g])
  }

  /** A new instance. */
  function Start<C>(setup: Setup): World<C> {
    World(Loaded(setup.entities), FirstIds(|setup.entities|), [], map[])
  }

  // ---------------------------------------------------------------- one world

  /** Who plays after a step of a world. */
  function PlayersAfter<C(==)>(cfg: Config, players: seq<C>, turn: Turn<C>): seq<C> {
    match turn.step
    case Join(c, _) => if MayJoin(players, cfg.maxPlayers, turn.connected, c) then players + [c] else players
    case Leave(c) => if c in players then Without(players, c) else players
    case _ => players
  }

  lemma StepPlayers<C>(cfg: Config, w: World<C>, turn: Turn<C>)
    requires Playable(cfg) && Good(cfg, w) && After(cfg, w, turn).Some?
    ensures After(cfg, w, turn).value.players == PlayersAfter(cfg, w.players, turn)
  {
    hide Good, WithPlayer, RemovePlayer, SpawnEnemy, Incoming, Outgoing, R.Allocate, Playable, SameShape, Rostered,
         Quiet;
    match turn.step
    case Join(c, peer) =>
      if MayJoin(w.players, cfg.maxPlayers, turn.connected, c) {
        JoinScene(cfg, w, c, peer, turn.connected, turn.stamp);
      }
    case Leave(c) =>
      LeavesGood(cfg, w, c, turn.connected, turn.stamp);
      if c in w.players {
        LeaveScene(cfg, w, c, turn.connected, turn.stamp);
      }
    case Enemy(ready, due, now, position) =>
      EnemyStep(cfg, w, ready, due, now, position, turn.connected, turn.stamp);
    case _ =>
      QuietStep(cfg, w, turn);
      QuietMeans(cfg, w, After(cfg, w, turn).value);
  }

  /** After a step a client that plays is in line, if it just joined, or was in line and connected. */
  lemma StepInTouch<C>(cfg: Config, w: World<C>, turn: Turn<C>, d: C)
    requires Playable(cfg) && Good(cfg, w) && After(cfg, w, turn).Some?
    requires d in w.players ==> Synced(w, d) && d in turn.connected
    ensures d in After(cfg, w, turn).value.players ==> Synced(After(cfg, w, turn).value, d)
  {
    hide After, Good, Synced, Playable, Without;
    GoodMeans(cfg, w);
    StepPlayers(cfg, w, turn);
    if d in w.players {
      if turn.step == Leave(d) {
        WithoutOne(w.players, d);
      } else {
        StepSync(cfg, w, turn, d);
      }
    } else if turn.step.Join? && turn.step.c == d {
      if MayJoin(w.players, cfg.maxPlayers, turn.connected, d) {
        JoinsInTouch(cfg, w, turn);
      }
    } else if turn.step.Leave? && turn.step.c in w.players {
      WithoutOne(w.players, turn.step.c);
    }
  }

  lemma JoinsInTouch<C>(cfg: Config, w: World<C>, turn: Turn<C>)
    requires Playable(cfg) && Good(cfg, w) && turn.step.Join? && After(cfg, w, turn).Some?
    requires MayJoin(w.players, cfg.maxPlayers, turn.connected, turn.step.c)
    ensures Synced(After(cfg, w, turn).value, turn.step.c)
  {
    hide Good, Playable, WithPlayer, R.Allocate, Synced;
    NewcomerSynced(cfg, w, turn.step.c, turn.step.peer, turn.connected, turn.stamp);
  }

  // ---------------------------------------------------------------- the worlds of one game

  /** The worlds of the instances in their order. None: checkDisconnect has dropped a player there and killed an entity
      twice, and the world is not followed any more. */
  type Floor<C(==)> = seq<Option<World<C>>>

  ghost predicate AllGood<C>(cfg: Config, ws: Floor<C>) {
    forall i :: 0 <= i < |ws| && ws[i].Some? ==> Good(cfg, ws[i].value)
  }

  /** One world for each instance, with its players. */
  ghost predicate Hosts<C>(setup: Setup, r: M.Room<C>, ws: Floor<C>) {
    && |ws| == |r.instances| && AllGood(setup.game, ws)
    && forall i :: 0 <= i < |ws| && ws[i].Some? ==> ws[i].value.players == r.instances[i].players
  }

  predicate Seats<C(==)>(ws: Floor<C>, i: nat, d: C)
    requires i < |ws|
  {
    ws[i].Some? && d in ws[i].value.players
  }

  /** A step of the i-th world. None: an exception. */
  ghost function OnWorld<C>(cfg: Config, ws: Floor<C>, i: nat, turn: Turn<C>): (r: Option<Floor<C>>)
    requires Playable(cfg) && AllGood(cfg, ws) && i < |ws|
    ensures r.Some? ==> AllGood(cfg, r.value) && |r.value| == |ws|
  {
    if ws[i].None? then Some(ws) else
    GoodMeans(cfg, ws[i].value);
    match After(cfg, ws[i].value, turn)
    case None => None
    case Some(w) => StepGood(cfg, ws[i].value, turn); Some(ws[i := Some(w)])
  }

  /** What addClientToGame does to the worlds; `peer` is the record the client brings. */
  ghost function EnterWorlds<C>(cfg: M.GameConfig, setup: Setup, r: M.Room<C>, ws: Floor<C>, c: C,
                                peer: Peer, connected: set<C>, stamp: u64): Option<Floor<C>>
    requires Suits(setup, cfg) && Hosts(setup, r, ws)
  {
    if M.Full(cfg, r) then Some(ws) else
    var open := Opened(cfg, setup, r, ws);
    OnWorld(setup.game, open, |open| - 1, Turn(Join(c, peer), connected, stamp))
  }

  ghost function Opened<C>(cfg: M.GameConfig, setup: Setup, r: M.Room<C>, ws: Floor<C>): (open: Floor<C>)
    requires Suits(setup, cfg) && Hosts(setup, r, ws)
    ensures Hosts(setup, r.(instances := M.Opened(cfg, r.instances)), open)
  {
    StartIsGood<C>(setup.game, setup.entities);
    if M.NeedsInstance(cfg, r.instances) then ws + [Some(Start(setup))] else ws
  }

  /** What removeClientFromGame does to them; `peer` is the record of the front of the queue. */
  ghost function ExitWorlds<C>(cfg: M.GameConfig, setup: Setup, r: M.Room<C>, ws: Floor<C>, c: C,
                               peer: Peer, connected: set<C>, stamp: u64): Option<Floor<C>>
    requires Suits(setup, cfg) && Hosts(setup, r, ws)
  {
    if !M.Plays(r, c) then Some(ws) else
    var i := M.Home(r.instances, c);
    match OnWorld(setup.game, ws, i, Turn(Leave(c), connected, stamp))
    case None => None
    case Some(vacated) =>
      if M.Left(r, c) == [] then Some(vacated[..|vacated| - 1])
      else if |M.Left(r, c)| <= cfg.minPlayers || r.queue == [] then Some(vacated)
      else OnWorld(setup.game, vacated, i, Turn(Join(r.queue[0], peer), connected, stamp))
  }

  lemma OnWorldPlayers<C>(cfg: Config, ws: Floor<C>, i: nat, turn: Turn<C>)
    requires Playable(cfg) && AllGood(cfg, ws) && i < |ws| && OnWorld(cfg, ws, i, turn).Some?
    ensures var ws' := OnWorld(cfg, ws, i, turn).value;
      && (forall j :: 0 <= j < |ws| && j != i ==> ws'[j] == ws[j])
      && (ws'[i].Some? <==> ws[i].Some?)
      && (ws[i].Some? ==> ws'[i].value.players == PlayersAfter(cfg, ws[i].value.players, turn))
  {
    hide After, Good, Playable, Without, PlayersAfter;
    if ws[i].Some? {
      GoodMeans(cfg, ws[i].value);
      StepPlayers(cfg, ws[i].value, turn);
    }
  }

  lemma EnterHosts<C>(cfg: M.GameConfig, setup: Setup, r: M.Room<C>, ws: Floor<C>, c: C,
                      peer: Peer, connected: set<C>, stamp: u64)
    requires Suits(setup, cfg) && Hosts(setup, r, ws)
    requires EnterWorlds(cfg, setup, r, ws, c, peer, connected, stamp).Some?
    ensures Hosts(setup, M.Enter(cfg, r, c, connected).0,
                  EnterWorlds(cfg, setup, r, ws, c, peer, connected, stamp).value)
  {
    hide OnWorld, Playable, Good, Opened, M.Opened;
    if !M.Full(cfg, r) {
      var open := Opened(cfg, setup, r, ws);
      OnWorldPlayers(setup.game, open, |open| - 1, Turn(Join(c, peer), connected, stamp));
    }
  }

  lemma ExitHosts<C>(cfg: M.GameConfig, setup: Setup, r: M.Room<C>, ws: Floor<C>, c: C,
                     peer: Peer, connected: set<C>, stamp: u64)
    requires Suits(setup, cfg) && Hosts(setup, r, ws)
    requires ExitWorlds(cfg, setup, r, ws, c, peer, connected, stamp).Some?
    ensures Hosts(setup, M.Exit(cfg, r, c, connected), ExitWorlds(cfg, setup, r, ws, c, peer, connected, stamp).value)
  {
    hide OnWorld, Playable, Good, Without;
    if M.Plays(r, c) {
      var i := M.Home(r.instances, c);
      OnWorldPlayers(setup.game, ws, i, Turn(Leave(c), connected, stamp));
      var vacated := OnWorld(setup.game, ws, i, Turn(Leave(c), connected, stamp)).value;
      if M.Left(r, c) != [] && |M.Left(r, c)| > cfg.minPlayers && r.queue != [] {
        OnWorldPlayers(setup.game, vacated, i, Turn(Join(r.queue[0], peer), connected, stamp));
      }
    }
  }

  // ---------------------------------------------------------------- in line, wherever it plays

  /** In each of these worlds the client is in line if it plays there. */
  predicate InTouch<C(==)>(ws: Floor<C>, d: C) {
    forall i :: 0 <= i < |ws| && Seats(ws, i, d) ==> Synced(ws[i].value, d)
  }

  predicate PlaysIn<C(==)>(ws: Floor<C>, d: C) {
    exists i :: 0 <= i < |ws| && Seats(ws, i, d)
  }

  lemma OnWorldInTouch<C>(cfg: Config, ws: Floor<C>, i: nat, turn: Turn<C>, d: C)
    requires Playable(cfg) && AllGood(cfg, ws) && i < |ws| && OnWorld(cfg, ws, i, turn).Some?
    requires InTouch(ws, d) && (PlaysIn(ws, d) ==> d in turn.connected)
    ensures InTouch(OnWorld(cfg, ws, i, turn).value, d)
  {
    hide After, Good, Playable, Synced;
    if ws[i].Some? {
      GoodMeans(cfg, ws[i].value);
      assert Seats(ws, i, d) ==> Synced(ws[i].value, d) && d in turn.connected;
      StepInTouch(cfg, ws[i].value, turn, d);
      var ws' := OnWorld(cfg, ws, i, turn).value;
      forall j | 0 <= j < |ws'| && Seats(ws', j, d)
        ensures Synced(ws'[j].value, d)
      {
        assert j != i ==> Seats(ws, j, d);
      }
    }
  }

  /** Leaving brings nobody in. */
  lemma LeavePlaysIn<C>(cfg: Config, ws: Floor<C>, i: nat, turn: Turn<C>, d: C)
    requires Playable(cfg) && AllGood(cfg, ws) && i < |ws| && turn.step.Leave? && OnWorld(cfg, ws, i, turn).Some?
    requires PlaysIn(OnWorld(cfg, ws, i, turn).value, d)
    ensures PlaysIn(ws, d)
  {
    hide OnWorld, Good, Playable, Without;
    OnWorldPlayers(cfg, ws, i, turn);
    var ws' := OnWorld(cfg, ws, i, turn).value;
    var j :| 0 <= j < |ws'| && Seats(ws', j, d);
    if j == i {
      GoodMeans(cfg, ws[i].value);
      WithoutOne(ws[i].value.players, turn.step.c);
    }
    assert Seats(ws, j, d);
  }

  lemma EnterInTouch<C>(cfg: M.GameConfig, setup: Setup, r: M.Room<C>, ws: Floor<C>, c: C,
                        peer: Peer, connected: set<C>, stamp: u64, d: C)
    requires Suits(setup, cfg) && Hosts(setup, r, ws)
    requires EnterWorlds(cfg, setup, r, ws, c, peer, connected, stamp).Some?
    requires InTouch(ws, d) && (PlaysIn(ws, d) ==> d in connected)
    ensures InTouch(EnterWorlds(cfg, setup, r, ws, c, peer, connected, stamp).value, d)
  {
    hide OnWorld, Playable, Good, Synced;
    if !M.Full(cfg, r) {
      var open := Opened(cfg, setup, r, ws);
      assert forall i :: 0 <= i < |open| && Seats(open, i, d) ==> i < |ws| && Seats(ws, i, d);
      OnWorldInTouch(setup.game, open, |open| - 1, Turn(Join(c, peer), connected, stamp), d);
    }
  }

  lemma ExitInTouch<C>(cfg: M.GameConfig, setup: Setup, r: M.Room<C>, ws: Floor<C>, c: C,
                       peer: Peer, connected: set<C>, stamp: u64, d: C)
    requires Suits(setup, cfg) && Hosts(setup, r, ws)
    requires ExitWorlds(cfg, setup, r, ws, c, peer, connected, stamp).Some?
    requires InTouch(ws, d) && (PlaysIn(ws, d) ==> d in connected)
    ensures InTouch(ExitWorlds(cfg, setup, r, ws, c, peer, connected, stamp).value, d)
  {
    hide OnWorld, Playable, Good, Synced, PlaysIn, M.Left;
    if M.Plays(r, c) {
      var i, leave := M.Home(r.instances, c), Turn(Leave(c), connected, stamp);
      OnWorldInTouch(setup.game, ws, i, leave, d);
      var vacated := OnWorld(setup.game, ws, i, leave).value;
      if M.Left(r, c) != [] && |M.Left(r, c)| > cfg.minPlayers && r.queue != [] {
        if PlaysIn(vacated, d) {
          LeavePlaysIn(setup.game, ws, i, leave, d);
        }
        OnWorldInTouch(setup.game, vacated, i, Turn(Join(r.queue[0], peer), connected, stamp), d);
      }
    }
  }

  // ---------------------------------------------------------------- the server with its worlds

  /** The instances of each game. */
  type Worlds<C(==)> = map<text, Floor<C>>

  datatype House<C(==)> = House(server: Sv.Server<C>, worlds: Worlds<C>)

  function WorldsOf<C>(worlds: Worlds<C>, g: text): Floor<C> {
    if g in worlds then worlds[g] else []
  }

  /** A server event, with the record of the client it admits if it admits one; or a step of one instance, other than a
      change of players or an arrival: these are the server's. */
  datatype Happening<C> =
    | Handles(e: Sv.Event<C>, peer: Peer, stamp: u64)
    | Lives(g: text, i: nat, turn: Turn<C>)

  /** Every configured game has a world for each instance. */
  ghost predicate Furnished<C>(cat: M.Catalogue, setups: map<text, Setup>, m: M.Manager<C>, worlds: Worlds<C>)
    requires Equipped(cat, setups)
  {
    forall g :: g in cat ==> Hosts(setups[g], M.RoomOf(m, g), WorldsOf(worlds, g))
  }

  /** What a request to the game manager does to the worlds. */
  ghost function Served<C>(cat: M.Catalogue, setups: map<text, Setup>, m: M.Manager<C>, worlds: Worlds<C>,
                           t: Runs.Turn<C>, peer: Peer, stamp: u64): Option<Worlds<C>>
    requires Equipped(cat, setups) && Furnished(cat, setups, m, worlds)
  {
    match t.request
    case EnterGame(g, c) =>
      if !Runs.Reaches(cat, m, t, g) then Some(worlds) else
      (match EnterWorlds(cat[g], setups[g], M.RoomOf(m, g), WorldsOf(worlds, g), c, peer, t.connected, stamp)
       case None => None
       case Some(ws) => Some(worlds[g := ws]))
    case ExitGame(g, c) =>
      if !Runs.Reaches(cat, m, t, g) then Some(worlds) else
      (match ExitWorlds(cat[g], setups[g], M.RoomOf(m, g), WorldsOf(worlds, g), c, peer, t.connected, stamp)
       case None => None
       case Some(ws) => Some(worlds[g := ws]))
    case Lose(g, i, c) =>
      if M.Dropped(M.RoomOf(m, g), i, c, t.connected) == M.RoomOf(m, g) || i >= |WorldsOf(worlds, g)| then Some(worlds)
      else Some(worlds[g := WorldsOf(worlds, g)[i := None]])
    case _ => Some(worlds)
  }

  lemma LoseHosts<C>(setup: Setup, r: M.Room<C>, ws: Floor<C>, i: nat, c: C, connected: set<C>)
    requires Hosts(setup, r, ws) && i < |ws|
    ensures Hosts(setup, M.Dropped(r, i, c, connected), ws[i := None])
  {
    hide Good, Without;
  }

  lemma LoseInTouch<C>(ws: Floor<C>, i: nat, d: C)
    requires InTouch(ws, d) && i < |ws|
    ensures InTouch(ws[i := None], d)
  {
    hide Synced;
    assert forall j :: 0 <= j < |ws| && Seats(ws[i := None], j, d) ==> Seats(ws, j, d);
  }

  lemma ServedFurnished<C>(cat: M.Catalogue, setups: map<text, Setup>, m: M.Manager<C>, worlds: Worlds<C>,
                           t: Runs.Turn<C>, peer: Peer, stamp: u64)
    requires Equipped(cat, setups) && Furnished(cat, setups, m, worlds)
    requires Served(cat, setups, m, worlds, t, peer, stamp).Some?
    ensures Furnished(cat, setups, Runs.Step(cat, m, t), Served(cat, setups, m, worlds, t, peer, stamp).value)
  {
    hide EnterWorlds, ExitWorlds, M.Enter, M.Exit, M.WithPlayers, Without, Runs.Step, Suits, M.RoomOf, Hosts;
    var worlds' := Served(cat, setups, m, worlds, t, peer, stamp).value;
    forall g | g in cat
      ensures Hosts(setups[g], M.RoomOf(Runs.Step(cat, m, t), g), WorldsOf(worlds', g))
    {
      Runs.StepRoom(cat, m, t, g);
      if t.request.Lose? && t.request.g == g {
        HostsMeans(setups[g], M.RoomOf(m, g), WorldsOf(worlds, g));
        if t.request.i < |WorldsOf(worlds, g)| {
          LoseHosts(setups[g], M.RoomOf(m, g), WorldsOf(worlds, g), t.request.i, t.request.c, t.connected);
        }
      } else if Runs.Reaches(cat, m, t, g) {
        match t.request
        case EnterGame(_, c) =>
          EnterHosts(cat[g], setups[g], M.RoomOf(m, g), WorldsOf(worlds, g), c, peer, t.connected, stamp);
        case ExitGame(_, c) =>
          ExitHosts(cat[g], setups[g], M.RoomOf(m, g), WorldsOf(worlds, g), c, peer, t.connected, stamp);
        case _ =>
      }
    }
  }

  /** A packet received for a client arrives wherever it plays. */
  function WithArrival<C(==)>(ws: Floor<C>, c: C, f: Frame): (ws': Floor<C>)
    ensures |ws'| == |ws|
  {
    seq(|ws|, i requires 0 <= i < |ws| => if ws[i].Some? then Some(Arrived(ws[i].value, c, f)) else None)
  }

  function Fed<C(==)>(worlds: Worlds<C>, receipt: S.Receipt<C>): Worlds<C> {
    match receipt
    case Queued(c, f) => map g | g in worlds :: WithArrival(worlds[g], c, f)
    case _ => worlds
  }

  lemma ArrivedGood<C>(cfg: Config, w: World<C>, c: C, f: Frame)
    requires Good(cfg, w)
    ensures Good(cfg, Arrived(w, c, f)) && Arrived(w, c, f).players == w.players
  {
    hide Good, Quiet;
    var turn := Turn(Arrive(c, f), {}, 0);
    GoodMeans(cfg, w);
    QuietStep(cfg, w, turn);
    assert After(cfg, w, turn) == Some(Arrived(w, c, f));
  }

  lemma FedFurnished<C>(cat: M.Catalogue, setups: map<text, Setup>, m: M.Manager<C>, worlds: Worlds<C>,
                        receipt: S.Receipt<C>)
    requires Equipped(cat, setups) && Furnished(cat, setups, m, worlds)
    ensures Furnished(cat, setups, m, Fed(worlds, receipt))
  {
    hide Suits, M.RoomOf, Good, Arrived;
    if receipt.Queued? {
      forall g | g in cat
        ensures Hosts(setups[g], M.RoomOf(m, g), WorldsOf(Fed(worlds, receipt), g))
      {
        var ws := WorldsOf(worlds, g);
        assert Hosts(setups[g], M.RoomOf(m, g), ws);
        forall i | 0 <= i < |ws| && ws[i].Some?
          ensures Good(setups[g].game, Arrived(ws[i].value, receipt.c, receipt.f))
          ensures Arrived(ws[i].value, receipt.c, receipt.f).players == ws[i].value.players
        {
          ArrivedGood(setups[g].game, ws[i].value, receipt.c, receipt.f);
        }
      }
    }
  }

  ghost predicate InOrder<C>(cat: M.Catalogue, setups: map<text, Setup>, h: House<C>)
    requires Equipped(cat, setups)
  {
    && S.Sane(h.server.sessions) && Sv.Orderly(cat, h.server)
    && Furnished(cat, setups, h.server.manager, h.worlds)
  }

  /** The worlds after a server event. */
  ghost function WorldsAfter<C>(cat: M.Catalogue, setups: map<text, Setup>, h: House<C>, e: Sv.Event<C>,
                                peer: Peer, stamp: u64): Option<Worlds<C>>
    requires Equipped(cat, setups) && InOrder(cat, setups, h) && Sv.Admissible(h.server, e)
  {
    var turns := Sv.Requests(h.server, e);
    if turns == [] then Some(Fed(h.worlds, Sv.Receipt(h.server, e)))
    else Served(cat, setups, h.server.manager, h.worlds, turns[0], peer, stamp)
  }

  /** None: an exception, or nothing that can happen in this state. */
  ghost function Next<C>(cat: M.Catalogue, setups: map<text, Setup>, h: House<C>, x: Happening<C>): Option<House<C>>
    requires Equipped(cat, setups) && InOrder(cat, setups, h)
  {
    match x
    case Handles(e, peer, stamp) =>
      if !Sv.Admissible(h.server, e) then None else
      (match (Sv.Step(cat, h.server, e), WorldsAfter(cat, setups, h, e, peer, stamp))
       case (Some(server), Some(worlds)) => Some(House(server, worlds))
       case _ => None)
    case Lives(g, i, turn) =>
      if g !in cat || i >= |WorldsOf(h.worlds, g)| || turn.step.Join? || turn.step.Leave? || turn.step.Arrive?
      then None else
      (match OnWorld(setups[g].game, WorldsOf(h.worlds, g), i, turn)
       case None => None
       case Some(ws) => Some(h.(worlds := h.worlds[g := ws])))
  }

  lemma HandlesInOrder<C>(cat: M.Catalogue, setups: map<text, Setup>, h: House<C>, e: Sv.Event<C>, peer: Peer,
                          stamp: u64)
    requires Equipped(cat, setups) && InOrder(cat, setups, h) && Next(cat, setups, h, Handles(e, peer, stamp)).Some?
    ensures InOrder(cat, setups, Next(cat, setups, h, Handles(e, peer, stamp)).value)
  {
    hide S.Sane, Sv.Step, Sv.Requests, Sv.Receipt, Sv.Housed, Runs.Settled, Sv.OnlyNewcomers, Served, Furnished, Suits,
         Runs.Step, Fed;
    Sv.StepSane(cat, h.server, e);
    Sv.StepHoused(cat, h.server, e);
    Sv.StepSettled(cat, h.server, e);
    Sv.StepInStore(cat, h.server, e);
    Sv.StepIsMatchmakingRun(cat, h.server, e);
    var turns := Sv.Requests(h.server, e);
    Sv.OneTurn(cat, h.server.manager, if turns == [] then Runs.Turn(Runs.Load([]), {}) else turns[0]);
    if turns != [] {
      ServedFurnished(cat, setups, h.server.manager, h.worlds, turns[0], peer, stamp);
    } else {
      FedFurnished(cat, setups, h.server.manager, h.worlds, Sv.Receipt(h.server, e));
    }
  }

  lemma LivesInOrder<C>(cat: M.Catalogue, setups: map<text, Setup>, h: House<C>, g: text, i: nat, turn: Turn<C>)
    requires Equipped(cat, setups) && InOrder(cat, setups, h) && Next(cat, setups, h, Lives(g, i, turn)).Some?
    ensures InOrder(cat, setups, Next(cat, setups, h, Lives(g, i, turn)).value)
  {
    hide S.Sane, Sv.Orderly, Suits, OnWorld, M.RoomOf, Playable, Good;
    assert Suits(setups[g], cat[g]);
    SuitsMeans(setups[g], cat[g]);
    assert Hosts(setups[g], M.RoomOf(h.server.manager, g), WorldsOf(h.worlds, g));
    OnWorldPlayers(setups[g].game, WorldsOf(h.worlds, g), i, turn);
  }

  lemma SuitsMeans(setup: Setup, cfg: M.GameConfig)
    requires Suits(setup, cfg)
    ensures Playable(setup.game)
  {
  }

  ghost function Run<C>(cat: M.Catalogue, setups: map<text, Setup>, h: House<C>, xs: seq<Happening<C>>)
      : (r: Option<House<C>>)
    requires Equipped(cat, setups) && InOrder(cat, setups, h)
    ensures r.Some? ==> InOrder(cat, setups, r.value)
    decreases |xs|
  {
    if xs == [] then Some(h) else
    match Next(cat, setups, h, xs[0])
    case None => None
    case Some(h') => NextInOrder(cat, setups, h, xs[0]); Run(cat, setups, h', xs[1..])
  }

  lemma NextInOrder<C>(cat: M.Catalogue, setups: map<text, Setup>, h: House<C>, x: Happening<C>)
    requires Equipped(cat, setups) && InOrder(cat, setups, h) && Next(cat, setups, h, x).Some?
    ensures InOrder(cat, setups, Next(cat, setups, h, x).value)
  {
    hide Equipped, InOrder, Next;
    match x
    case Handles(e, peer, stamp) => HandlesInOrder(cat, setups, h, e, peer, stamp);
    case Lives(g, i, turn) => LivesInOrder(cat, setups, h, g, i, turn);
  }

  /** The server events among these. */
  function Events<C>(xs: seq<Happening<C>>): seq<Sv.Event<C>>
    decreases |xs|
  {
    if xs == [] then [] else (if xs[0].Handles? then [xs[0].e] else []) + Events(xs[1..])
  }

  /** It is a run of the server that all this happens beside. */
  lemma {:induction false} HouseRunsServer<C>(cat: M.Catalogue, setups: map<text, Setup>, h: House<C>,
                                              xs: seq<Happening<C>>)
    requires Equipped(cat, setups) && InOrder(cat, setups, h) && Run(cat, setups, h, xs).Some?
    ensures Sv.Run(cat, h.server, Events(xs)) == Some(Run(cat, setups, h, xs).value.server)
    decreases |xs|
  {
    hide Equipped, WorldsAfter, OnWorld, Sv.Step, Sv.Orderly, Furnished, S.Sane;
    if xs != [] {
      var h' := Next(cat, setups, h, xs[0]).value;
      NextInOrder(cat, setups, h, xs[0]);
      HouseRunsServer(cat, setups, h', xs[1..]);
      var now, rest := if xs[0].Handles? then [xs[0].e] else [], Events(xs[1..]);
      Empty(rest);
      if now != [] {
        HeadOfSum(now, rest);
        assert now[1..] == [];
      }
    }
  }

  // ---------------------------------------------------------------- everybody sees its scene

  ghost predicate AllInTouch<C>(worlds: Worlds<C>, d: C) {
    forall g :: InTouch(WorldsOf(worlds, g), d)
  }

  ghost predicate PlaysSomewhere<C>(worlds: Worlds<C>, d: C) {
    exists g :: PlaysIn(WorldsOf(worlds, g), d)
  }

  /** The client is connected in whatever request this event makes. */
  ghost predicate ConnectedIn<C>(sv: Sv.Server<C>, e: Sv.Event<C>, d: C)
    requires S.Sane(sv.sessions)
  {
    Sv.Admissible(sv, e) ==> forall t :: t in Sv.Requests(sv, e) ==> d in t.connected
  }

  /** The client is connected if it plays while this happens. */
  ghost predicate Attends<C>(h: House<C>, x: Happening<C>, d: C)
    requires S.Sane(h.server.sessions)
  {
    PlaysSomewhere(h.worlds, d) ==>
      match x
      case Handles(e, _, _) => ConnectedIn(h.server, e, d)
      case Lives(_, _, turn) => d in turn.connected
  }

  ghost predicate AlwaysAttends<C>(cat: M.Catalogue, setups: map<text, Setup>, h: House<C>, xs: seq<Happening<C>>, d: C)
    requires Equipped(cat, setups) && InOrder(cat, setups, h)
    decreases |xs|
  {
    xs == [] ||
    (Attends(h, xs[0], d) &&
     match Next(cat, setups, h, xs[0])
     case None => true
     case Some(h') => NextInOrder(cat, setups, h, xs[0]); AlwaysAttends(cat, setups, h', xs[1..], d))
  }

  lemma ServedInTouch<C>(cat: M.Catalogue, setups: map<text, Setup>, m: M.Manager<C>, worlds: Worlds<C>,
                         t: Runs.Turn<C>, peer: Peer, stamp: u64, d: C)
    requires Equipped(cat, setups) && Furnished(cat, setups, m, worlds)
    requires Served(cat, setups, m, worlds, t, peer, stamp).Some?
    requires AllInTouch(worlds, d) && (PlaysSomewhere(worlds, d) ==> d in t.connected)
    ensures AllInTouch(Served(cat, setups, m, worlds, t, peer, stamp).value, d)
  {
    hide EnterWorlds, ExitWorlds, Suits, M.RoomOf, Hosts, InTouch, PlaysIn;
    var worlds' := Served(cat, setups, m, worlds, t, peer, stamp).value;
    forall g
      ensures InTouch(WorldsOf(worlds', g), d)
    {
      assert InTouch(WorldsOf(worlds, g), d) && (PlaysIn(WorldsOf(worlds, g), d) ==> d in t.connected);
      if t.request.Lose? {
        if t.request.i < |WorldsOf(worlds, g)| {
          LoseInTouch(WorldsOf(worlds, g), t.request.i, d);
        }
      } else if Runs.Reaches(cat, m, t, g) {
        match t.request
        case EnterGame(_, c) =>
          EnterInTouch(cat[g], setups[g], M.RoomOf(m, g), WorldsOf(worlds, g), c, peer, t.connected, stamp, d);
        case ExitGame(_, c) =>
          ExitInTouch(cat[g], setups[g], M.RoomOf(m, g), WorldsOf(worlds, g), c, peer, t.connected, stamp, d);
        case _ =>
      }
    }
  }

  lemma FedInTouch<C>(worlds: Worlds<C>, receipt: S.Receipt<C>, d: C)
    requires AllInTouch(worlds, d)
    ensures AllInTouch(Fed(worlds, receipt), d)
  {
    hide Synced;
    if receipt.Queued? {
      forall g
        ensures InTouch(WorldsOf(Fed(worlds, receipt), g), d)
      {
        var ws := WorldsOf(worlds, g);
        assert InTouch(ws, d);
        forall i | 0 <= i < |ws| && Seats(ws, i, d)
          ensures Synced(Arrived(ws[i].value, receipt.c, receipt.f), d)
        {
          ArrivedSynced(ws[i].value, receipt.c, receipt.f, d);
        }
      }
    }
  }

  lemma ArrivedSynced<C>(w: World<C>, c: C, f: Frame, d: C)
    requires Synced(w, d)
    ensures Synced(Arrived(w, c, f), d)
  {
    hide Rebuilds, VisibleSet;
  }

  lemma NextInTouch<C>(cat: M.Catalogue, setups: map<text, Setup>, h: House<C>, x: Happening<C>, d: C)
    requires Equipped(cat, setups) && InOrder(cat, setups, h) && Next(cat, setups, h, x).Some?
    requires AllInTouch(h.worlds, d) && Attends(h, x, d)
    ensures AllInTouch(Next(cat, setups, h, x).value.worlds, d)
  {
    hide Fed, Sv.Receipt, Sv.Step, Sv.Requests, Sv.Orderly, S.Sane, Served, OnWorld, Suits, M.RoomOf, Hosts, InTouch,
         PlaysIn;
    match x
    case Handles(e, peer, stamp) =>
      var turns := Sv.Requests(h.server, e);
      if turns != [] {
        assert turns[0] in turns;
        ServedInTouch(cat, setups, h.server.manager, h.worlds, turns[0], peer, stamp, d);
      } else {
        FedInTouch(h.worlds, Sv.Receipt(h.server, e), d);
      }
    case Lives(g, i, turn) =>
      SuitsMeans(setups[g], cat[g]);
      HostsMeans(setups[g], M.RoomOf(h.server.manager, g), WorldsOf(h.worlds, g));
      OnWorldInTouch(setups[g].game, WorldsOf(h.worlds, g), i, turn, d);
      forall k
        ensures InTouch(WorldsOf(Next(cat, setups, h, x).value.worlds, k), d)
      {
        assert InTouch(WorldsOf(h.worlds, k), d);
      }
  }

  lemma HostsMeans<C>(setup: Setup, r: M.Room<C>, ws: Floor<C>)
    requires Hosts(setup, r, ws)
    ensures AllGood(setup.game, ws) && |ws| == |r.instances|
    ensures forall i :: 0 <= i < |ws| && ws[i].Some? ==> ws[i].value.players == r.instances[i].players
  {
  }

  lemma {:induction false} RunInTouch<C>(cat: M.Catalogue, setups: map<text, Setup>, h: House<C>,
                                         xs: seq<Happening<C>>, d: C)
    requires Equipped(cat, setups) && InOrder(cat, setups, h) && Run(cat, setups, h, xs).Some?
    requires AllInTouch(h.worlds, d) && AlwaysAttends(cat, setups, h, xs, d)
    ensures AllInTouch(Run(cat, setups, h, xs).value.worlds, d)
    decreases |xs|
  {
    hide Equipped, InOrder, Next, AllInTouch, Attends;
    if xs != [] {
      InOrderIsSane(cat, setups, h);
      NextInOrder(cat, setups, h, xs[0]);
      NextInTouch(cat, setups, h, xs[0], d);
      RunInTouch(cat, setups, Next(cat, setups, h, xs[0]).value, xs[1..], d);
    }
  }

  lemma InOrderIsSane<C>(cat: M.Catalogue, setups: map<text, Setup>, h: House<C>)
    requires Equipped(cat, setups) && InOrder(cat, setups, h)
    ensures S.Sane(h.server.sessions) && Sv.Orderly(cat, h.server)
    ensures Furnished(cat, setups, h.server.manager, h.worlds)
  {
  }

  /** No client, no game, no world. */
  function Vacant<C>(): House<C> {
    House(Sv.Idle(), map[])
  }

  lemma VacantInOrder<C>(cat: M.Catalogue, setups: map<text, Setup>)
    requires Equipped(cat, setups)
    ensures InOrder(cat, setups, Vacant<C>()) && AllFollowed(Vacant<C>().worlds)
    ensures forall d :: AllInTouch(Vacant<C>().worlds, d)
  {
    hide Sv.Orderly;
    Sv.IdleIsFine<C>(cat);
  }

  /** What these happenings lead to from the start of the server. */
  ghost function Reached<C>(cat: M.Catalogue, setups: map<text, Setup>, xs: seq<Happening<C>>): Option<House<C>>
    requires Equipped(cat, setups)
  {
    VacantInOrder<C>(cat, setups);
    Run(cat, setups, Vacant<C>(), xs)
  }

  ghost predicate AlwaysThere<C>(cat: M.Catalogue, setups: map<text, Setup>, xs: seq<Happening<C>>, d: C)
    requires Equipped(cat, setups)
  {
    VacantInOrder<C>(cat, setups);
    AlwaysAttends(cat, setups, Vacant<C>(), xs, d)
  }

  /** Some player is dropped by checkDisconnect. */
  predicate Loses<C>(x: Happening<C>) {
    x.Handles? && x.e.Lose?
  }

  /** In every server reached from its start, whoever plays in an instance, admitted at once or from the queue, has
      its record there, unless checkDisconnect has dropped somebody from that instance; and if it was connected all
      the while it played, the packets queued to it since it joined lead exactly to the scene of that instance. */
  lemma PlayersSeeTheirScene<C>(cat: M.Catalogue, setups: map<text, Setup>, xs: seq<Happening<C>>, g: text, i: nat,
                                d: C)
    requires Equipped(cat, setups) && Reached(cat, setups, xs).Some?
    requires var r := M.RoomOf(Reached(cat, setups, xs).value.server.manager, g);
      i < |r.instances| && d in r.instances[i].players
    ensures var ws := WorldsOf(Reached(cat, setups, xs).value.worlds, g);
      && i < |ws| && ((forall x :: x in xs ==> !Loses(x)) ==> ws[i].Some?)
      && (ws[i].Some? ==>
           && d in ws[i].value.peers
           && (AlwaysThere(cat, setups, xs, d) ==>
                var p := ws[i].value.peers[d];
                p.joined <= |Log(p)| && ReplaysTo(Log(p)[p.joined..], VisibleSet(ws[i].value.table))))
  {
    hide Equipped, InOrder, Furnished, Run, AlwaysAttends, AllInTouch, AllFollowed, M.RoomOf, Hosts, Sv.Orderly,
         Runs.Settled, Good, Rebuilds, ReplaysTo, VisibleSet;
    VacantInOrder<C>(cat, setups);
    var h := Reached(cat, setups, xs).value;
    InOrderIsSane(cat, setups, h);
    var r, ws := M.RoomOf(h.server.manager, g), WorldsOf(h.worlds, g);
    M.PlaysAt(r, i, d);
    OrderlyMember(cat, h.server, g, d);
    FurnishedMeans(cat, setups, h.server.manager, h.worlds, g);
    HostsMeans(setups[g], r, ws);
    if forall x :: x in xs ==> !Loses(x) {
      RunFollowed(cat, setups, Vacant<C>(), xs);
      FollowedMeans(h.worlds, g, i);
    }
    if ws[i].Some? {
      GoodMeans(setups[g].game, ws[i].value);
      if AlwaysThere(cat, setups, xs, d) {
        RunInTouch(cat, setups, Vacant<C>(), xs, d);
        InTouchMeans(h.worlds, g, i, d);
        var p := ws[i].value.peers[d];
        RebuildsMeans(Log(p)[p.joined..], VisibleSet(ws[i].value.table));
      }
    }
  }

  // ---------------------------------------------------------------- every world is followed until somebody is lost

  predicate Followed<C>(ws: Floor<C>) {
    forall i :: 0 <= i < |ws| ==> ws[i].Some?
  }

  ghost predicate AllFollowed<C>(worlds: Worlds<C>) {
    forall g :: Followed(WorldsOf(worlds, g))
  }

  lemma FollowedMeans<C>(worlds: Worlds<C>, g: text, i: nat)
    requires AllFollowed(worlds) && i < |WorldsOf(worlds, g)|
    ensures WorldsOf(worlds, g)[i].Some?
  {
    assert Followed(WorldsOf(worlds, g));
  }

  lemma OnWorldFollowed<C>(cfg: Config, ws: Floor<C>, i: nat, turn: Turn<C>)
    requires Playable(cfg) && AllGood(cfg, ws) && i < |ws| && OnWorld(cfg, ws, i, turn).Some? && Followed(ws)
    ensures Followed(OnWorld(cfg, ws, i, turn).value)
  {
    hide OnWorld, Good, Playable;
    OnWorldPlayers(cfg, ws, i, turn);
  }

  lemma EnterFollowed<C>(cfg: M.GameConfig, setup: Setup, r: M.Room<C>, ws: Floor<C>, c: C,
                         peer: Peer, connected: set<C>, stamp: u64)
    requires Suits(setup, cfg) && Hosts(setup, r, ws) && Followed(ws)
    requires EnterWorlds(cfg, setup, r, ws, c, peer, connected, stamp).Some?
    ensures Followed(EnterWorlds(cfg, setup, r, ws, c, peer, connected, stamp).value)
  {
    hide OnWorld, Playable, Good;
    if !M.Full(cfg, r) {
      var open := Opened(cfg, setup, r, ws);
      OnWorldFollowed(setup.game, open, |open| - 1, Turn(Join(c, peer), connected, stamp));
    }
  }

  lemma ExitFollowed<C>(cfg: M.GameConfig, setup: Setup, r: M.Room<C>, ws: Floor<C>, c: C,
                        peer: Peer, connected: set<C>, stamp: u64)
    requires Suits(setup, cfg) && Hosts(setup, r, ws) && Followed(ws)
    requires ExitWorlds(cfg, setup, r, ws, c, peer, connected, stamp).Some?
    ensures Followed(ExitWorlds(cfg, setup, r, ws, c, peer, connected, stamp).value)
  {
    hide OnWorld, Playable, Good, M.Left;
    if M.Plays(r, c) {
      var i, leave := M.Home(r.instances, c), Turn(Leave(c), connected, stamp);
      OnWorldFollowed(setup.game, ws, i, leave);
      var vacated := OnWorld(setup.game, ws, i, leave).value;
      if M.Left(r, c) != [] && |M.Left(r, c)| > cfg.minPlayers && r.queue != [] {
        OnWorldFollowed(setup.game, vacated, i, Turn(Join(r.queue[0], peer), connected, stamp));
      }
    }
  }

  lemma ServedFollowed<C>(cat: M.Catalogue, setups: map<text, Setup>, m: M.Manager<C>, worlds: Worlds<C>,
                          t: Runs.Turn<C>, peer: Peer, stamp: u64)
    requires Equipped(cat, setups) && Furnished(cat, setups, m, worlds) && !t.request.Lose?
    requires Served(cat, setups, m, worlds, t, peer, stamp).Some? && AllFollowed(worlds)
    ensures AllFollowed(Served(cat, setups, m, worlds, t, peer, stamp).value)
  {
    hide EnterWorlds, ExitWorlds, Suits, M.RoomOf, Hosts, Followed;
    forall g
      ensures Followed(WorldsOf(Served(cat, setups, m, worlds, t, peer, stamp).value, g))
    {
      assert Followed(WorldsOf(worlds, g));
      if Runs.Reaches(cat, m, t, g) {
        match t.request
        case EnterGame(_, c) =>
          EnterFollowed(cat[g], setups[g], M.RoomOf(m, g), WorldsOf(worlds, g), c, peer, t.connected, stamp);
        case ExitGame(_, c) =>
          ExitFollowed(cat[g], setups[g], M.RoomOf(m, g), WorldsOf(worlds, g), c, peer, t.connected, stamp);
        case _ =>
      }
    }
  }

  lemma OnlyLoseLoses<C>(sv: Sv.Server<C>, e: Sv.Event<C>, t: Runs.Turn<C>)
    requires S.Sane(sv.sessions) && Sv.Admissible(sv, e) && t in Sv.Requests(sv, e) && t.request.Lose?
    ensures e.Lose?
  {
    hide S.Screen, S.Receive, S.Sane;
  }

  lemma FedFollowed<C>(worlds: Worlds<C>, receipt: S.Receipt<C>)
    requires AllFollowed(worlds)
    ensures AllFollowed(Fed(worlds, receipt))
  {
    forall g
      ensures Followed(WorldsOf(Fed(worlds, receipt), g))
    {
      assert Followed(WorldsOf(worlds, g));
    }
  }

  lemma NextFollowed<C>(cat: M.Catalogue, setups: map<text, Setup>, h: House<C>, x: Happening<C>)
    requires Equipped(cat, setups) && InOrder(cat, setups, h) && Next(cat, setups, h, x).Some?
    requires AllFollowed(h.worlds) && !Loses(x)
    ensures AllFollowed(Next(cat, setups, h, x).value.worlds)
  {
    hide Fed, Sv.Receipt, Sv.Step, Sv.Requests, Sv.Orderly, S.Sane, Served, OnWorld, Suits, M.RoomOf, Hosts, Followed;
    match x
    case Handles(e, peer, stamp) =>
      var turns := Sv.Requests(h.server, e);
      if turns != [] {
        if turns[0].request.Lose? {
          OnlyLoseLoses(h.server, e, turns[0]);
        }
        ServedFollowed(cat, setups, h.server.manager, h.worlds, turns[0], peer, stamp);
      } else {
        FedFollowed(h.worlds, Sv.Receipt(h.server, e));
      }
    case Lives(g, i, turn) =>
      SuitsMeans(setups[g], cat[g]);
      HostsMeans(setups[g], M.RoomOf(h.server.manager, g), WorldsOf(h.worlds, g));
      assert Followed(WorldsOf(h.worlds, g));
      OnWorldFollowed(setups[g].game, WorldsOf(h.worlds, g), i, turn);
      forall k
        ensures Followed(WorldsOf(Next(cat, setups, h, x).value.worlds, k))
      {
        assert Followed(WorldsOf(h.worlds, k));
      }
  }

  lemma {:induction false} RunFollowed<C>(cat: M.Catalogue, setups: map<text, Setup>, h: House<C>,
                                          xs: seq<Happening<C>>)
    requires Equipped(cat, setups) && InOrder(cat, setups, h) && Run(cat, setups, h, xs).Some?
    requires AllFollowed(h.worlds) && forall x :: x in xs ==> !Loses(x)
    ensures AllFollowed(Run(cat, setups, h, xs).value.worlds)
    decreases |xs|
  {
    hide Equipped, InOrder, Next, AllFollowed, Loses;
    if xs != [] {
      NextInOrder(cat, setups, h, xs[0]);
      NextFollowed(cat, setups, h, xs[0]);
      RunFollowed(cat, setups, Next(cat, setups, h, xs[0]).value, xs[1..]);
    }
  }

  lemma OrderlyMember<C>(cat: M.Catalogue, sv: Sv.Server<C>, g: text, c: C)
    requires Sv.Orderly(cat, sv) && M.Plays(M.RoomOf(sv.manager, g), c)
    ensures g in cat
  {
    hide Sv.Housed, Runs.Settled, M.RoomOf, M.Plays;
    Sv.SettledMember(cat, sv.manager, sv.sessions.objects.Keys, g, c);
  }

  lemma FurnishedMeans<C>(cat: M.Catalogue, setups: map<text, Setup>, m: M.Manager<C>, worlds: Worlds<C>,
                          g: text)
    requires Equipped(cat, setups) && Furnished(cat, setups, m, worlds) && g in cat
    ensures Equipped(cat, setups) && g in setups && Hosts(setups[g], M.RoomOf(m, g), WorldsOf(worlds, g))
  {
  }

  lemma InTouchMeans<C>(worlds: Worlds<C>, g: text, i: nat, d: C)
    requires AllInTouch(worlds, d) && i < |WorldsOf(worlds, g)| && Seats(WorldsOf(worlds, g), i, d)
    ensures Synced(WorldsOf(worlds, g)[i].value, d)
  {
    assert InTouch(WorldsOf(worlds, g), d);
  }
}
