/** Who still has a place after somebody left: runs in which the wrong client is lost, or kept, or in which the process
    ends. */
module Departures {
  import opened Wrappers
  import opened Bytes
  import opened Packets
  import opened GameModel
  import opened Clients
  import S = Sessions
  import M = Matchmaking
  import Runs = MatchmakingRuns
  import opened Servers

  // ---------------------------------------------------------------- the wrong instance is lost

  /** Four requests from the start, two instances of one player each, in a lobby that starts at once: when the first
      player leaves, the second one has no place any more. */
  lemma SecondPlayerIsLost<C>(cat: M.Catalogue, g: text, c: C, d: C)
    requires g in cat && cat[g].online && cat[g].maxPlayers == 1 && cat[g].maxInstances == 2 && c != d
    requires M.MustRun(cat[g], [c])
    ensures var before := [Runs.Turn(Runs.Load(g), {}), Runs.Turn(Runs.EnterGame(g, c), {c, d}),
                           Runs.Turn(Runs.EnterGame(g, d), {c, d})];
      var leave := Runs.Turn(Runs.ExitGame(g, c), {c, d});
      var m := Runs.Run(cat, Runs.Fresh(), before);
      && Runs.NewcomersOnly(before + [leave], {}) && !M.Fatal(cat, m, g, c)
      && M.InRoom(M.RoomOf(m, g), d) && !M.InRoom(M.RoomOf(Runs.Step(cat, m, leave), g), d)
  {
    hide Runs.Step, Runs.Run, Runs.NewcomersOnly, M.InRoom, M.RoomOf, M.Fatal;
    var load, first, second := Runs.Turn(Runs.Load(g), {}), Runs.Turn(Runs.EnterGame(g, c), {c, d}),
                               Runs.Turn(Runs.EnterGame(g, d), {c, d});
    var m1 := Runs.Step(cat, Runs.Fresh<C>(), load);
    var m2 := Runs.Step(cat, m1, first);
    var m3 := Runs.Step(cat, m2, second);
    OneByOne(cat, load, first, second);
    LoadsEmpty<C>(cat, g);
    EntersAlone(cat, m1, g, c, {c, d});
    EntersAlone(cat, m2, g, d, {c, d});
    var leave := Runs.Turn(Runs.ExitGame(g, c), {c, d});
    ThreeNewcomers(load, first, second, leave);
    FirstLeaves(cat, m3, g, c, d, {c, d});
  }

  lemma LoadsEmpty<C>(cat: M.Catalogue, g: text)
    requires g in cat
    ensures var m := Runs.Step(cat, Runs.Fresh<C>(), Runs.Turn(Runs.Load(g), {}));
      g in m.loaded && M.RoomOf(m, g) == M.Room([], [])
  {
  }

  lemma OneByOne<C>(cat: M.Catalogue, a: Runs.Turn<C>, b: Runs.Turn<C>, c: Runs.Turn<C>)
    ensures Runs.Run(cat, Runs.Fresh(), [a, b, c])
      == Runs.Step(cat, Runs.Step(cat, Runs.Step(cat, Runs.Fresh(), a), b), c)
  {
    hide Runs.Step;
    var m := Runs.Step(cat, Runs.Fresh(), a);
    assert [a, b, c][1..] == [b, c] && [b, c][1..] == [c] && [c][1..] == [];
    assert Runs.Run(cat, m, [b, c]) == Runs.Run(cat, Runs.Step(cat, m, b), [c]);
    OneTurn(cat, Runs.Step(cat, m, b), c);
  }

  lemma ThreeNewcomers<C>(load: Runs.Turn<C>, first: Runs.Turn<C>, second: Runs.Turn<C>, leave: Runs.Turn<C>)
    requires load.request.Load? && leave.request.ExitGame?
    requires first.request.EnterGame? && second.request.EnterGame? && first.request.c != second.request.c
    ensures Runs.NewcomersOnly([load, first, second] + [leave], {})
  {
    var all := [load, first, second] + [leave];
    assert all[1..] == [first, second, leave] && [first, second, leave][1..] == [second, leave];
    assert [second, leave][1..] == [leave] && [leave][1..] == [];
    assert Runs.NewcomersOnly([leave], {} + {} + {first.request.c} + {second.request.c});
    assert Runs.NewcomersOnly([second, leave], {} + {} + {first.request.c});
    assert Runs.NewcomersOnly([first, second, leave], {} + {});
  }

  /** With room for one player in each instance, an admitted client gets an instance of its own. */
  lemma EntersAlone<C>(cat: M.Catalogue, m: M.Manager<C>, g: text, c: C, connected: set<C>)
    requires g in m.loaded && g in cat && cat[g].online && cat[g].maxPlayers == 1 && c in connected
    requires |M.RoomOf(m, g).instances| < cat[g].maxInstances
    requires forall i :: 0 <= i < |M.RoomOf(m, g).instances| ==> |M.RoomOf(m, g).instances[i].players| == 1
    ensures var m' := Runs.Step(cat, m, Runs.Turn(Runs.EnterGame(g, c), connected));
      && m'.loaded == m.loaded && M.RoomOf(m', g).queue == M.RoomOf(m, g).queue
      && |M.RoomOf(m', g).instances| == |M.RoomOf(m, g).instances| + 1
      && M.RoomOf(m', g).instances[..|M.RoomOf(m, g).instances|] == M.RoomOf(m, g).instances
      && M.Last(M.RoomOf(m', g).instances) == M.Instance([c], M.MustRun(cat[g], [c]))
  {
  }

  lemma FirstLeaves<C>(cat: M.Catalogue, m: M.Manager<C>, g: text, c: C, d: C, connected: set<C>)
    requires g in m.loaded && g in cat && c != d
    requires var r := M.RoomOf(m, g);
      |r.instances| == 2 && r.instances[0].players == [c] && r.instances[1] == M.Instance([d], true) && r.queue == []
    ensures !M.Fatal(cat, m, g, c)
    ensures var m' := Runs.Step(cat, m, Runs.Turn(Runs.ExitGame(g, c), connected));
      M.InRoom(M.RoomOf(m, g), d) && !M.InRoom(M.RoomOf(m', g), d)
  {
    var r := M.RoomOf(m, g);
    M.PlaysAt(r, 1, d);
    assert M.Home(r.instances, c) == 0;
    var r' := M.Exit(cat[g], r, c, connected);
    assert r'.instances == [r.instances[0].(players := [])];
    assert M.RoomOf(Runs.Step(cat, m, Runs.Turn(Runs.ExitGame(g, c), connected)), g) == r';
  }

  // ---------------------------------------------------------------- a closed game keeps its player

  function Hello(game: text, stamp: u64): seq<byte> {
    Received(Serialized(PutString(Blank(V_1, REQ_CONNECT, stamp), game)))
  }

  function Bye(stamp: u64): seq<byte> {
    Received(Serialized(Blank(V_1, REQ_DISCONNECT, stamp)))
  }

  /** Every registered client spoke within the last five seconds. */
  ghost predicate Lively<C>(s: S.Sessions<C>, now: int) {
    S.Sane(s) && forall a :: a in s.clients ==> S.Alive(s, s.clients[a], now)
  }

  /** A connection request that its game accepts. */
  lemma HelloStep<C>(cat: M.Catalogue, sv: Server<C>, a: Address, c: C, game: text, stamp: u64, now: int)
    requires Lively(sv.sessions, now) && c !in sv.sessions.objects
    requires !S.IsBanned(sv.sessions, a) && a !in sv.sessions.clients
    requires game != [] && HEADER_SIZE + 4 + |game| <= RECEIVE_SIZE
    requires M.AddClient(cat, sv.manager, game, c, Connected(S.Registered(sv.sessions, a, c, game, now), now)).1
    ensures var s := S.Registered(sv.sessions, a, c, game, now);
      && Lively(s, now)
      && Step(cat, sv, Packet(a, Hello(game, stamp), c, now))
           == Some(Server(s, M.AddClient(cat, sv.manager, game, c, Connected(s, now)).0))
  {
    hide Deserialized, TakeString, Received, M.AddClient, Connected;
    S.ConnectIsWelcomed(sv.sessions, a, V_1, game, stamp, now);
    var s := S.Registered(sv.sessions, a, c, game, now);
    AllStay(s, now);
  }

  lemma AllStay<C>(s: S.Sessions<C>, now: int)
    requires Lively(s, now)
    ensures S.Checked(s, now) == s
  {
    hide S.Alive;
    assert S.Checked(s, now).clients == s.clients;
  }

  /** A disconnect request of a registered client. */
  lemma ByeStep<C>(cat: M.Catalogue, sv: Server<C>, a: Address, x: C, stamp: u64, now: int)
    requires Lively(sv.sessions, now) && x !in sv.sessions.objects
    requires !S.IsBanned(sv.sessions, a) && a in sv.sessions.clients
    ensures var s, c := S.Touched(sv.sessions, sv.sessions.clients[a], now), sv.sessions.clients[a];
      var e := Packet(a, Bye(stamp), x, now);
      && Lively(s, now)
      && Step(cat, sv, e) == (if M.Fatal(cat, sv.manager, s.objects[c].game, c) then None
           else Some(Server(s, M.RemoveClient(cat, sv.manager, s.objects[c].game, c, Connected(s, now)).0)))
      && Requests(sv, e) == [Runs.Turn(Runs.ExitGame(s.objects[c].game, c), Connected(s, now))]
  {
    hide Deserialized, TakeString, Received, M.RemoveClient, M.Fatal, Connected;
    ReceivedRoundTrip(Blank(V_1, REQ_DISCONNECT, stamp));
    AllStay(S.Touched(sv.sessions, sv.sessions.clients[a], now), now);
  }

  lemma EntersFirst<C>(cat: M.Catalogue, m: M.Manager<C>, g: text, c: C, connected: set<C>)
    requires g in m.loaded && g in cat && cat[g].online && cat[g].maxPlayers >= 2 && cat[g].maxInstances >= 1
    requires M.RoomOf(m, g) == M.Room([], []) && c in connected
    ensures var (m', ok) := M.AddClient(cat, m, g, c, connected);
      var r := M.RoomOf(m', g);
      && ok && m'.loaded == m.loaded && m'.removing == m.removing
      && |r.instances| == 1 && r.instances[0].players == [c] && r.queue == []
  {
  }

  lemma EntersSecond<C>(cat: M.Catalogue, m: M.Manager<C>, g: text, c: C, d: C, connected: set<C>)
    requires g in m.loaded && g in cat && cat[g].online && cat[g].maxPlayers >= 2
    requires |M.RoomOf(m, g).instances| == 1 && M.RoomOf(m, g).instances[0].players == [c] && M.RoomOf(m, g).queue == []
    requires c != d && d in connected
    ensures var (m', ok) := M.AddClient(cat, m, g, d, connected);
      var r := M.RoomOf(m', g);
      && ok && m'.loaded == m.loaded && m'.removing == m.removing
      && |r.instances| == 1 && r.instances[0].players == [c, d] && r.queue == []
  {
  }

  lemma ClosesStore<C>(cat: M.Catalogue, m: M.Manager<C>, g: text, c: C, d: C, connected: set<C>)
    requires g in m.loaded && g in m.removing && g in cat && cat[g].minPlayers == 0 && c != d
    requires var r := M.RoomOf(m, g); |r.instances| == 1 && r.instances[0].players == [c, d] && r.queue == []
    ensures var m' := M.RemoveClient(cat, m, g, c, connected).0;
      g !in m'.loaded && M.Plays(M.RoomOf(m', g), d) && !M.Fatal(cat, m, g, c) && !M.Fatal(cat, m', g, d)
  {
    var r := M.RoomOf(m, g);
    assert M.Home(r.instances, c) == 0 && M.Left(r, c) == [d];
    var r' := M.Exit(cat[g], r, c, connected);
    assert r'.instances[0].players == [d];
    M.PlaysAt(r', 0, d);
  }

  lemma RunFirst<C>(cat: M.Catalogue, sv: Server<C>, e: Event<C>, rest: seq<Event<C>>)
    requires S.Sane(sv.sessions) && Admissible(sv, e) && Step(cat, sv, e).Some?
    ensures S.Sane(Step(cat, sv, e).value.sessions)
    ensures Run(cat, sv, [e] + rest) == Run(cat, Step(cat, sv, e).value, rest)
  {
    hide Step, S.Sane, Admissible;
    StepSane(cat, sv, e);
    assert ([e] + rest)[1..] == rest;
  }

  /** What the administrator, and two clients in one instance of the game g, do here: load, ask for removal, connect,
      connect, disconnect. */
  function ClosingRun(g: text, a: Address, b: Address, stamp: u64, now: int): seq<Event<nat>> {
    [Load(g)] + ([Unload(g)] + ([Packet(a, Hello(g, stamp), 0, now)] + ([Packet(b, Hello(g, stamp), 1, now)]
      + ([Packet(a, Bye(stamp), 2, now)] + []))))
  }

  /** The server once the game is loaded and asked to go. */
  function Asked(g: text): Server<nat> {
    Server(S.Sessions(map[], [], map[]), M.Manager({g}, map[], {g}))
  }

  lemma Opening(cat: M.Catalogue, g: text, rest: seq<Event<nat>>)
    requires g in cat
    ensures Run(cat, Idle(), [Load(g)] + ([Unload(g)] + rest)) == Run(cat, Asked(g), rest)
  {
    LoadsGame(cat, g, [Unload(g)] + rest);
    assert {} + {g} == {g};
    assert Step(cat, Loaded(g), Unload(g)) == Some(Asked(g));
    RunFirst(cat, Loaded(g), Unload(g), rest);
  }

  /** Two clients play in one instance of the game, which is to be removed. */
  ghost predicate TwoPlay(sv: Server<nat>, g: text, a: Address, b: Address, now: int) {
    var r := M.RoomOf(sv.manager, g);
    && Lively(sv.sessions, now) && sv.sessions.banned == []
    && sv.sessions.clients == map[a := 0, b := 1] && sv.sessions.objects.Keys == {0, 1}
    && sv.sessions.objects[0].game == g && sv.sessions.objects[1].game == g
    && g in sv.manager.loaded && g in sv.manager.removing
    && |r.instances| == 1 && r.instances[0].players == [0, 1] && r.queue == []
  }

  /** The server once the clients 0 and 1 have connected. */
  function Together(cat: M.Catalogue, g: text, a: Address, b: Address, now: int): Server<nat> {
    var s := S.Registered(Asked(g).sessions, a, 0, g, now);
    var t := S.Registered(s, b, 1, g, now);
    var m := M.AddClient(cat, Asked(g).manager, g, 0, Connected(s, now)).0;
    Server(t, M.AddClient(cat, m, g, 1, Connected(t, now)).0)
  }

  lemma TwoConnect(cat: M.Catalogue, g: text, a: Address, b: Address, stamp: u64, now: int, rest: seq<Event<nat>>)
    requires g in cat && cat[g].online && cat[g].minPlayers == 0 && cat[g].maxPlayers >= 2 && cat[g].maxInstances >= 1
    requires a != b && g != [] && HEADER_SIZE + 4 + |g| <= RECEIVE_SIZE
    ensures TwoPlay(Together(cat, g, a, b, now), g, a, b, now)
    ensures Run(cat, Asked(g), [Packet(a, Hello(g, stamp), 0, now)] + ([Packet(b, Hello(g, stamp), 1, now)] + rest))
      == Run(cat, Together(cat, g, a, b, now), rest)
  {
    hide Run, Step, M.AddClient, M.RoomOf, Hello;
    var hello := Hello(g, stamp);
    var s := S.Registered(Asked(g).sessions, a, 0, g, now);
    var t := S.Registered(s, b, 1, g, now);
    NobodyThere(g);
    assert S.Alive(s, 0, now) && S.Alive(t, 1, now);
    EntersFirst(cat, Asked(g).manager, g, 0, Connected(s, now));
    HelloStep(cat, Asked(g), a, 0, g, stamp, now);
    var sv1 := Step(cat, Asked(g), Packet(a, hello, 0, now)).value;
    EntersSecond(cat, sv1.manager, g, 0, 1, Connected(t, now));
    HelloStep(cat, sv1, b, 1, g, stamp, now);
    assert Step(cat, sv1, Packet(b, hello, 1, now)) == Some(Together(cat, g, a, b, now));
    RunFirst(cat, Asked(g), Packet(a, hello, 0, now), [Packet(b, hello, 1, now)] + rest);
    RunFirst(cat, sv1, Packet(b, hello, 1, now), rest);
  }

  lemma NobodyThere(g: text)
    ensures M.RoomOf(Asked(g).manager, g) == M.Room([], [])
  {
  }

  /** The first departure closes the store, and the second player's disconnect request is then served without ending its
      play. */
  lemma ClosedGameKeepsItsPlayer(cat: M.Catalogue, g: text, a: Address, b: Address, stamp: u64, now: int)
    requires g in cat && cat[g].online && cat[g].minPlayers == 0 && cat[g].maxPlayers >= 2 && cat[g].maxInstances >= 1
    requires a != b && g != [] && HEADER_SIZE + 4 + |g| <= RECEIVE_SIZE
    ensures Run(cat, Idle(), ClosingRun(g, a, b, stamp, now)).Some?
    ensures var sv := Run(cat, Idle(), ClosingRun(g, a, b, stamp, now)).value;
      var e := Packet(b, Bye(stamp), 2, now);
      && Admissible(sv, e) && Step(cat, sv, e).Some?
      && |Requests(sv, e)| == 1 && Requests(sv, e)[0].request == Runs.ExitGame(g, 1)
      && M.Plays(M.RoomOf(Step(cat, sv, e).value.manager, g), 1)
  {
    hide Run, Step, M.RemoveClient, M.Fatal, M.Plays, M.RoomOf, Hello, Bye, Requests, Together;
    var hello, bye := Hello(g, stamp), Packet(a, Bye(stamp), 2, now);
    Opening(cat, g, [Packet(a, hello, 0, now)] + ([Packet(b, hello, 1, now)] + ([bye] + [])));
    var sv := Together(cat, g, a, b, now);
    TwoConnect(cat, g, a, b, stamp, now, [bye] + []);
    ByeStep(cat, sv, a, 2, stamp, now);
    ClosesStore(cat, sv.manager, g, 0, 1, Connected(S.Touched(sv.sessions, 0, now), now));
    RunFirst(cat, sv, bye, []);
    var sv' := Step(cat, sv, bye).value;
    ByeStep(cat, sv', b, 2, stamp, now);
    NoStoreNoExit(cat, sv'.manager, g, 1, Connected(S.Touched(sv'.sessions, 1, now), now));
    RunNothing(cat, sv');
  }

  // ---------------------------------------------------------------- a lone player ends the server

  function Loaded(g: text): Server<nat> {
    Server(S.Sessions(map[], [], map[]), M.Manager({g}, map[], {}))
  }

  lemma LoadsGame(cat: M.Catalogue, g: text, rest: seq<Event<nat>>)
    requires g in cat
    ensures Run(cat, Idle(), [Load(g)] + rest) == Run(cat, Loaded(g), rest)
  {
    assert {} + {g} == {g};
    assert Step(cat, Idle<nat>(), Load(g)) == Some(Loaded(g));
    RunFirst(cat, Idle<nat>(), Load(g), rest);
  }

  /** One client connects to a game that waits for more, and its disconnect request ends the process: its instance never
      ran and is taken off the list. */
  lemma LonePlayerEndsServer(cat: M.Catalogue, g: text, a: Address, stamp: u64, now: int)
    requires g in cat && cat[g].online && cat[g].maxPlayers >= 1 && cat[g].maxInstances >= 1 && !M.MustRun(cat[g], [0])
    requires g != [] && HEADER_SIZE + 4 + |g| <= RECEIVE_SIZE
    ensures var es: seq<Event<nat>> := [Load(g)] + ([Packet(a, Hello(g, stamp), 0, now)] + []);
      var e: Event<nat> := Packet(a, Bye(stamp), 1, now);
      && Run(cat, Idle(), es).Some? && Admissible(Run(cat, Idle(), es).value, e)
      && Step(cat, Run(cat, Idle(), es).value, e) == None
  {
    hide Run, Step, M.AddClient, M.Fatal, M.RoomOf, Hello, Bye;
    var hello: Event<nat> := Packet(a, Hello(g, stamp), 0, now);
    var s := S.Registered(Loaded(g).sessions, a, 0, g, now);
    LoadsGame(cat, g, [hello] + []);
    assert S.Alive(s, 0, now);
    EntersIdle(cat, g, Connected(s, now));
    HelloStep(cat, Loaded(g), a, 0, g, stamp, now);
    RunFirst(cat, Loaded(g), hello, []);
    var sv := Step(cat, Loaded(g), hello).value;
    RunNothing(cat, sv);
    ByeStep(cat, sv, a, 1, stamp, now);
  }

  lemma EntersIdle(cat: M.Catalogue, g: text, connected: set<nat>)
    requires g in cat && cat[g].online && cat[g].maxPlayers >= 1 && cat[g].maxInstances >= 1 && !M.MustRun(cat[g], [0])
    requires 0 in connected
    ensures var (m, ok) := M.AddClient(cat, Loaded(g).manager, g, 0, connected);
      ok && M.Fatal(cat, m, g, 0)
  {
    var open: seq<M.Instance<nat>> := [M.Instance([], false)];
    assert M.Opened<nat>(cat[g], []) == open && [] + [0] == [0];
    assert M.JoinLast(cat[g], open, 0) == [M.Instance([0], false)];
    var r := M.Room([M.Instance([0], false)], []);
    assert M.Home(r.instances, 0) == 0 && M.Left(r, 0) == [];
  }

  lemma NoStoreNoExit<C>(cat: M.Catalogue, m: M.Manager<C>, g: text, c: C, connected: set<C>)
    requires g !in m.loaded
    ensures M.RemoveClient(cat, m, g, c, connected).0 == m
  {
  }

  lemma RunNothing<C>(cat: M.Catalogue, sv: Server<C>)
    requires S.Sane(sv.sessions)
    ensures Run(cat, sv, []) == Some(sv)
  {
  }
}
