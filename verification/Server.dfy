/** Flakkari/Server/UDPServer: the step that orders both managers, and what every state of it keeps. */
module Servers {
  import opened Wrappers
  import opened Bytes
  import opened Sequences
  import opened Packets
  import opened Clients
  import S = Sessions
  import M = Matchmaking
  import Runs = MatchmakingRuns

  datatype Server<C(==)> = Server(sessions: S.Sessions<C>, manager: M.Manager<C>)

  /** A client object counts as connected even after its entry is gone, until it has been silent for five seconds. */
  function Connected<C(==)>(s: S.Sessions<C>, now: int): set<C> {
    set c | c in s.objects && S.Alive(s, c, now)
  }

  /** receivePacketFromClient and what handlePacket does with its answer. */
  function HandleReceipt<C(==)>(cat: M.Catalogue, sv: Server<C>, a: Address, buffer: seq<byte>, now: int): Server<C>
    requires a in sv.sessions.clients ==> sv.sessions.clients[a] in sv.sessions.objects
  {
    var (s, receipt) := S.Receive(sv.sessions, a, buffer);
    match receipt
    case Leaving(game, c) => Server(s, M.RemoveClient(cat, sv.manager, game, c, Connected(s, now)).0)
    case _ => Server(s, sv.manager)
  }

  /** The departure it asks for ends the process. */
  predicate ReceiptIsFatal<C(==)>(cat: M.Catalogue, sv: Server<C>, a: Address, buffer: seq<byte>)
    requires a in sv.sessions.clients ==> sv.sessions.clients[a] in sv.sessions.objects
  {
    match S.Receive(sv.sessions, a, buffer).1
    case Leaving(game, c) => M.Fatal(cat, sv.manager, game, c)
    case _ => false
  }

  /** A registered client is offered to its game, and dropped again if the game does not take it. */
  function Offered<C(==)>(cat: M.Catalogue, sv: Server<C>, a: Address, c: C, game: text, now: int): Server<C> {
    var (m, ok) := M.AddClient(cat, sv.manager, game, c, Connected(sv.sessions, now));
    Server(if ok then sv.sessions else S.Removed(sv.sessions, a), m)
  }

  function HandleNewcomer<C(==)>(cat: M.Catalogue, sv: Server<C>, a: Address, c: C, game: text, now: int): Server<C> {
    Offered(cat, sv.(sessions := S.Registered(sv.sessions, a, c, game, now)), a, c, game, now)
  }

  function Swept<C(==)>(sv: Server<C>, now: int): Server<C>
    requires S.Sane(sv.sessions)
  {
    sv.(sessions := S.Checked(sv.sessions, now))
  }

  /** handlePacket for a packet that creates no client. None: an exception ends the loop, or the
      process ends. */
  ghost function HandleOther<C>(cat: M.Catalogue, sv: Server<C>, a: Address, buffer: seq<byte>, now: int)
      : (r: Option<Server<C>>)
    requires S.Sane(sv.sessions)
  {
    var (s, answer) := S.Screen(sv.sessions, a, buffer, now);
    match answer
    case Known =>
      ScreenSane(sv.sessions, a, buffer, now);
      CheckedSane(s, now);
      var swept := Swept(Server(s, sv.manager), now);
      if ReceiptIsFatal(cat, swept, a, buffer) then None else Some(HandleReceipt(cat, swept, a, buffer, now))
    case Garbled => None
    case _ => Some(sv.(sessions := s))
  }

  /** handlePacket for a new client c of this game. Without a game name it is treated like a known one. */
  ghost function HandleWelcome<C>(cat: M.Catalogue, sv: Server<C>, a: Address, buffer: seq<byte>, c: C, game: text,
                                  now: int)
      : (r: Option<Server<C>>)
    requires S.Sane(sv.sessions) && c !in sv.sessions.objects
  {
    var (s, _) := S.Screen(sv.sessions, a, buffer, now);
    ScreenSane(sv.sessions, a, buffer, now);
    NewcomerSane(s, a, c, game, now);
    if game != [] then Some(Swept(HandleNewcomer(cat, Server(s, sv.manager), a, c, game, now), now))
    else
      var registered := S.Registered(s, a, c, game, now);
      CheckedSane(registered, now);
      var swept := Swept(Server(registered, sv.manager), now);
      if ReceiptIsFatal(cat, swept, a, buffer) then None else Some(HandleReceipt(cat, swept, a, buffer, now))
  }

  /** handlePacket; c is the object addClient creates if it does. */
  ghost function HandlePacket<C>(cat: M.Catalogue, sv: Server<C>, a: Address, buffer: seq<byte>, c: C, now: int)
      : (r: Option<Server<C>>)
    requires S.Sane(sv.sessions) && c !in sv.sessions.objects
  {
    match S.Screen(sv.sessions, a, buffer, now).1
    case Welcome(game, _) => HandleWelcome(cat, sv, a, buffer, c, game, now)
    case _ => HandleOther(cat, sv, a, buffer, now)
  }

  lemma ScreenSane<C>(s: S.Sessions<C>, a: Address, buffer: seq<byte>, now: int)
    requires S.Sane(s)
    ensures S.Sane(S.Screen(s, a, buffer, now).0)
    ensures S.Screen(s, a, buffer, now).0.objects.Keys == s.objects.Keys
  {
    hide Deserialized, TakeString;
  }

  lemma CheckedSane<C>(s: S.Sessions<C>, now: int)
    requires S.Sane(s)
    ensures S.Sane(S.Checked(s, now)) && S.Checked(s, now).objects == s.objects
  {
    hide S.Alive;
  }

  lemma NewcomerSane<C>(s: S.Sessions<C>, a: Address, c: C, game: text, now: int)
    requires S.Sane(s) && c !in s.objects
    ensures var s' := S.Registered(s, a, c, game, now);
      S.Sane(s') && S.Sane(S.Removed(s', a)) && s'.objects.Keys == s.objects.Keys + {c}
  {
  }

  lemma ReceiptSane<C>(cat: M.Catalogue, sv: Server<C>, a: Address, buffer: seq<byte>, now: int)
    requires S.Sane(sv.sessions)
    ensures S.Sane(HandleReceipt(cat, sv, a, buffer, now).sessions)
    ensures HandleReceipt(cat, sv, a, buffer, now).sessions.objects.Keys == sv.sessions.objects.Keys
  {
    hide Deserialized, M.RemoveClient;
  }

  // ---------------------------------------------------------------- runs of the server

  /** handlePacket, handleTimeout, the administrator's addGame and removeGame, and checkDisconnect in the thread of
      instance i of game g, where it finds that player c is lost. */
  datatype Event<C> =
    | Packet(a: Address, buffer: seq<byte>, c: C, now: int)
    | Timeout(now: int)
    | Load(g: text)
    | Unload(g: text)
    | Lose(g: text, i: nat, c: C, now: int)

  /** Object identities are new: what addClient creates was not there before. */
  predicate Admissible<C(==)>(sv: Server<C>, e: Event<C>) {
    e.Packet? ==> e.c !in sv.sessions.objects
  }

  ghost function Step<C>(cat: M.Catalogue, sv: Server<C>, e: Event<C>): Option<Server<C>>
    requires S.Sane(sv.sessions) && Admissible(sv, e)
  {
    match e
    case Packet(a, buffer, c, now) => HandlePacket(cat, sv, a, buffer, c, now)
    case Timeout(now) => Some(Swept(sv, now))
    case Load(g) => Some(sv.(manager := M.AddGame(cat, sv.manager, g).0))
    case Unload(g) => Some(sv.(manager := M.RemoveGame(sv.manager, g).0))
    case Lose(g, i, c, now) => Some(sv.(manager :=
      M.WithRoom(sv.manager, g, M.Dropped(M.RoomOf(sv.manager, g), i, c, Connected(sv.sessions, now)))))
  }

  ghost function Run<C>(cat: M.Catalogue, sv: Server<C>, es: seq<Event<C>>): (r: Option<Server<C>>)
    requires S.Sane(sv.sessions)
    ensures r.Some? ==> S.Sane(r.value.sessions)
    decreases |es|
  {
    if es == [] then Some(sv) else
    if !Admissible(sv, es[0]) then None else
    match Step(cat, sv, es[0])
    case None => None
    case Some(next) => StepSane(cat, sv, es[0]); Run(cat, next, es[1..])
  }

  // ---------------------------------------------------------------- what a server run means to the two managers

  /** The session events of one server step. */
  ghost function SessionEvents<C>(cat: M.Catalogue, sv: Server<C>, e: Event<C>): seq<S.Event<C>>
    requires S.Sane(sv.sessions)
  {
    match e
    case Timeout(now) => [S.Check(now)]
    case Packet(a, buffer, c, now) =>
      (var (s, answer) := S.Screen(sv.sessions, a, buffer, now);
       match answer
       case Welcome(game, _) =>
         if game == [] then [S.Connects(a, buffer, c, now), S.Check(now), S.Receives(a, buffer)]
         else if M.AddClient(cat, sv.manager, game, c, Connected(S.Registered(s, a, c, game, now), now)).1
         then [S.Connects(a, buffer, c, now), S.Check(now)]
         else [S.Connects(a, buffer, c, now), S.Removal(a), S.Check(now)]
       case Known => [S.Connects(a, buffer, c, now), S.Check(now), S.Receives(a, buffer)]
       case _ => [S.Connects(a, buffer, c, now)])
    case _ => []
  }

  /** The session state in which a packet of a known client is received. */
  ghost function Receiving<C>(sv: Server<C>, a: Address, buffer: seq<byte>, c: C, now: int): S.Sessions<C>
    requires S.Sane(sv.sessions) && c !in sv.sessions.objects
  {
    S.StepSane(sv.sessions, S.Connects(a, buffer, c, now));
    S.Checked(S.Step(sv.sessions, S.Connects(a, buffer, c, now)), now)
  }

  /** The matchmaking request of one server step, at most one. */
  ghost function Requests<C>(sv: Server<C>, e: Event<C>): seq<Runs.Turn<C>>
    requires S.Sane(sv.sessions) && Admissible(sv, e)
  {
    match e
    case Timeout(_) => []
    case Load(g) => [Runs.Turn(Runs.Load(g), {})]
    case Unload(g) => [Runs.Turn(Runs.Unload(g), {})]
    case Lose(g, i, c, now) => [Runs.Turn(Runs.Lose(g, i, c), Connected(sv.sessions, now))]
    case Packet(a, buffer, c, now) =>
      var (s, answer) := S.Screen(sv.sessions, a, buffer, now);
      if answer.Welcome? && answer.game != [] then
        [Runs.Turn(Runs.EnterGame(answer.game, c), Connected(S.Registered(s, a, c, answer.game, now), now))]
      else if answer.Welcome? || answer.Known? then
        ReceivingSane(sv, a, buffer, c, now);
        var (s', receipt) := S.Receive(Receiving(sv, a, buffer, c, now), a, buffer);
        if receipt.Leaving? then [Runs.Turn(Runs.ExitGame(receipt.game, receipt.c), Connected(s', now))] else []
      else []
  }

  /** What receivePacketFromClient makes of the packet of one server step, if it is called. */
  ghost function Receipt<C>(sv: Server<C>, e: Event<C>): S.Receipt<C>
    requires S.Sane(sv.sessions) && Admissible(sv, e)
  {
    match e
    case Packet(a, buffer, c, now) =>
      var answer := S.Screen(sv.sessions, a, buffer, now).1;
      if answer.Known? || (answer.Welcome? && answer.game == []) then
        ReceivingSane(sv, a, buffer, c, now);
        S.Receive(Receiving(sv, a, buffer, c, now), a, buffer).1
      else S.Ignored
    case _ => S.Ignored
  }

  lemma ReceivingSane<C>(sv: Server<C>, a: Address, buffer: seq<byte>, c: C, now: int)
    requires S.Sane(sv.sessions) && c !in sv.sessions.objects
    ensures S.Sane(Receiving(sv, a, buffer, c, now))
  {
    hide S.Step, S.Checked;
    S.StepSane(sv.sessions, S.Connects(a, buffer, c, now));
    CheckedSane(S.Step(sv.sessions, S.Connects(a, buffer, c, now)), now);
  }

  lemma StepSane<C>(cat: M.Catalogue, sv: Server<C>, e: Event<C>)
    requires S.Sane(sv.sessions) && Admissible(sv, e) && Step(cat, sv, e).Some?
    ensures var s' := Step(cat, sv, e).value.sessions;
      S.Sane(s') && sv.sessions.objects.Keys <= s'.objects.Keys
  {
    hide S.Sane, S.Screen, S.Checked, S.Registered, S.Removed, HandleReceipt, M.AddClient, Connected;
    match e
    case Packet(a, buffer, c, now) =>
      S.SaneAt(sv.sessions, a);
      var (s, answer) := S.Screen(sv.sessions, a, buffer, now);
      ScreenSane(sv.sessions, a, buffer, now);
      match answer {
        case Known =>
          CheckedSane(s, now);
          ReceiptSane(cat, Swept(Server(s, sv.manager), now), a, buffer, now);
        case Welcome(game, _) =>
          NewcomerSane(s, a, c, game, now);
          var registered := S.Registered(s, a, c, game, now);
          if game == [] {
            CheckedSane(registered, now);
            ReceiptSane(cat, Swept(Server(registered, sv.manager), now), a, buffer, now);
          } else {
            RegisteredObject(s, a, c, game, now);
            var h := HandleNewcomer(cat, Server(s, sv.manager), a, c, game, now);
            CheckedSane(h.sessions, now);
          }
        case _ =>
      }
    case Timeout(now) => CheckedSane(sv.sessions, now);
    case _ =>
  }

  lemma RegisteredObject<C>(s: S.Sessions<C>, a: Address, c: C, game: text, now: int)
    ensures var registered := S.Registered(s, a, c, game, now);
      c in registered.objects && S.Removed(registered, a).objects == registered.objects
  {
  }

  /** One server step is these session events. */
  lemma StepIsSessionRun<C>(cat: M.Catalogue, sv: Server<C>, e: Event<C>)
    requires S.Sane(sv.sessions) && Admissible(sv, e) && Step(cat, sv, e).Some?
    ensures Step(cat, sv, e).value.sessions == S.Run(sv.sessions, SessionEvents(cat, sv, e))
  {
    hide S.Sane, S.Checked, S.Registered, S.Removed, S.Screen, S.Receive, M.AddClient, M.RemoveClient, Connected, S.Run;
    match e
    case Timeout(now) => S.RunOne(sv.sessions, S.Check(now));
    case Packet(a, buffer, c, now) =>
      S.SaneAt(sv.sessions, a);
      var (s, answer) := S.Screen(sv.sessions, a, buffer, now);
      var first := S.Connects(a, buffer, c, now);
      S.RunOne(sv.sessions, first);
      var s1 := S.Step(sv.sessions, first);
      if answer.Known? || (answer.Welcome? && answer.game == []) {
        ThreeSteps(sv.sessions, first, S.Check(now), S.Receives(a, buffer));
      } else if answer.Welcome? {
        if M.AddClient(cat, sv.manager, answer.game, c, Connected(S.Registered(s, a, c, answer.game, now), now)).1 {
          TwoSteps(sv.sessions, first, S.Check(now));
        } else {
          ThreeSteps(sv.sessions, first, S.Removal(a), S.Check(now));
        }
      }
    case _ => NoSteps(sv.sessions);
  }

  lemma NoSteps<C>(s: S.Sessions<C>)
    requires S.Sane(s)
    ensures S.Run(s, []) == s
  {
  }

  lemma TwoSteps<C>(s: S.Sessions<C>, e: S.Event<C>, f: S.Event<C>)
    requires S.Sane(s)
    ensures S.Sane(S.Step(s, e)) && S.Run(s, [e, f]) == S.Step(S.Step(s, e), f)
  {
    hide S.Step, S.Sane, S.Run;
    S.RunOne(s, e);
    S.RunOne(S.Step(s, e), f);
    assert [e, f] == [e] + [f];
    S.RunAppend(s, [e], [f]);
  }

  lemma ThreeSteps<C>(s: S.Sessions<C>, e: S.Event<C>, f: S.Event<C>, g: S.Event<C>)
    requires S.Sane(s)
    ensures S.Sane(S.Step(s, e)) && S.Sane(S.Step(S.Step(s, e), f))
    ensures S.Run(s, [e, f, g]) == S.Step(S.Step(S.Step(s, e), f), g)
  {
    hide S.Step, S.Sane, S.Run;
    TwoSteps(s, e, f);
    S.StepSane(S.Step(s, e), f);
    S.RunOne(S.Step(S.Step(s, e), f), g);
    assert [e, f, g] == [e, f] + [g];
    S.RunAppend(s, [e, f], [g]);
  }

  lemma OneTurn<C>(cat: M.Catalogue, m: M.Manager<C>, t: Runs.Turn<C>)
    ensures Runs.Run(cat, m, [t]) == Runs.Step(cat, m, t) && Runs.Run(cat, m, []) == m
  {
    hide Runs.Step;
    assert [t][1..] == [];
  }

  lemma ReceiptIsTurn<C>(cat: M.Catalogue, sv: Server<C>, a: Address, buffer: seq<byte>, now: int)
    requires a in sv.sessions.clients ==> sv.sessions.clients[a] in sv.sessions.objects
    ensures var (s', receipt) := S.Receive(sv.sessions, a, buffer);
      HandleReceipt(cat, sv, a, buffer, now).manager ==
        if receipt.Leaving?
        then Runs.Step(cat, sv.manager, Runs.Turn(Runs.ExitGame(receipt.game, receipt.c), Connected(s', now)))
        else sv.manager
  {
    hide S.Receive, M.RemoveClient, Connected;
    var (s', receipt) := S.Receive(sv.sessions, a, buffer);
    match receipt
    case Leaving(game, c) =>
      var t := Runs.Turn(Runs.ExitGame(game, c), Connected(s', now));
      assert Runs.Step(cat, sv.manager, t) == M.RemoveClient(cat, sv.manager, game, c, t.connected).0;
    case _ =>
  }

  lemma NewcomerIsTurn<C>(cat: M.Catalogue, sv: Server<C>, a: Address, c: C, game: text, now: int)
    ensures var h := HandleNewcomer(cat, sv, a, c, game, now);
      && h.manager == Runs.Step(cat, sv.manager,
           Runs.Turn(Runs.EnterGame(game, c), Connected(S.Registered(sv.sessions, a, c, game, now), now)))
      && c in h.sessions.objects
  {
    hide M.AddClient, Connected, S.Registered, S.Removed;
    var s := S.Registered(sv.sessions, a, c, game, now);
    var t := Runs.Turn(Runs.EnterGame(game, c), Connected(s, now));
    RegisteredObject(sv.sessions, a, c, game, now);
    assert Runs.Step(cat, sv.manager, t) == M.AddClient(cat, sv.manager, game, c, t.connected).0;
  }

  /** Whoever enters by these requests is no old client, and an object afterwards. */
  ghost predicate OnlyNewcomers<C>(turns: seq<Runs.Turn<C>>, before: set<C>, after: set<C>) {
    forall t :: t in turns ==> Runs.Newcomer(t, before) && Runs.OfferedBy(t) <= after
  }

  /** One server step is this matchmaking request, and whoever enters was created in it. */
  lemma StepIsMatchmakingRun<C>(cat: M.Catalogue, sv: Server<C>, e: Event<C>)
    requires S.Sane(sv.sessions) && Admissible(sv, e) && Step(cat, sv, e).Some?
    ensures var turns := Requests(sv, e);
      && |turns| <= 1 && Step(cat, sv, e).value.manager == Runs.Run(cat, sv.manager, turns)
      && OnlyNewcomers(turns, sv.sessions.objects.Keys, Step(cat, sv, e).value.sessions.objects.Keys)
  {
    hide S.Sane, S.Checked, S.Removed, S.Screen, S.Receive, M.AddGame, M.RemoveGame, Connected, HandleReceipt,
         HandleNewcomer, S.Registered, Runs.Run;
    var turns := Requests(sv, e);
    OneTurn(cat, sv.manager, if turns == [] then Runs.Turn(Runs.Load([]), {}) else turns[0]);
    match e
    case Packet(a, buffer, c, now) =>
      S.SaneAt(sv.sessions, a);
      ScreenSane(sv.sessions, a, buffer, now);
      var (s, answer) := S.Screen(sv.sessions, a, buffer, now);
      if answer.Welcome? && answer.game != [] {
        NewcomerIsTurn(cat, Server(s, sv.manager), a, c, answer.game, now);
        NewcomerSane(s, a, c, answer.game, now);
        HandledSane(cat, Server(s, sv.manager), a, c, answer.game, now);
      } else if answer.Welcome? || answer.Known? {
        ReceivingSane(sv, a, buffer, c, now);
        S.SaneAt(Receiving(sv, a, buffer, c, now), a);
        ReceiptIsTurn(cat, Server(Receiving(sv, a, buffer, c, now), sv.manager), a, buffer, now);
      }
    case _ =>
  }

  lemma HandledSane<C>(cat: M.Catalogue, sv: Server<C>, a: Address, c: C, game: text, now: int)
    requires S.Sane(sv.sessions) && c !in sv.sessions.objects
    ensures var h := HandleNewcomer(cat, sv, a, c, game, now);
      S.Sane(h.sessions) && Swept(h, now).manager == h.manager && Swept(h, now).sessions.objects == h.sessions.objects
  {
    hide M.AddClient, S.Sane, S.Registered, S.Removed, S.Checked;
    NewcomerSane(sv.sessions, a, c, game, now);
    CheckedSane(HandleNewcomer(cat, sv, a, c, game, now).sessions, now);
  }

  // ---------------------------------------------------------------- whole runs

  ghost function AllSessionEvents<C>(cat: M.Catalogue, sv: Server<C>, es: seq<Event<C>>): seq<S.Event<C>>
    requires S.Sane(sv.sessions) && Run(cat, sv, es).Some?
    decreases |es|
  {
    if es == [] then [] else
    StepSane(cat, sv, es[0]);
    SessionEvents(cat, sv, es[0]) + AllSessionEvents(cat, Step(cat, sv, es[0]).value, es[1..])
  }

  ghost function AllRequests<C>(cat: M.Catalogue, sv: Server<C>, es: seq<Event<C>>): seq<Runs.Turn<C>>
    requires S.Sane(sv.sessions) && Run(cat, sv, es).Some?
    decreases |es|
  {
    if es == [] then [] else
    StepSane(cat, sv, es[0]);
    Requests(sv, es[0]) + AllRequests(cat, Step(cat, sv, es[0]).value, es[1..])
  }

  /** A run of the server is a run of the client manager. */
  lemma {:induction false} ServerRunsSessions<C>(cat: M.Catalogue, sv: Server<C>, es: seq<Event<C>>)
    requires S.Sane(sv.sessions) && Run(cat, sv, es).Some?
    ensures Run(cat, sv, es).value.sessions == S.Run(sv.sessions, AllSessionEvents(cat, sv, es))
    decreases |es|
  {
    hide S.Sane, S.Run, Step, SessionEvents, Admissible;
    if es == [] {
      NoSteps(sv.sessions);
    } else {
      StepSane(cat, sv, es[0]);
      StepIsSessionRun(cat, sv, es[0]);
      var next := Step(cat, sv, es[0]).value;
      ServerRunsSessions(cat, next, es[1..]);
      S.RunAppend(sv.sessions, SessionEvents(cat, sv, es[0]), AllSessionEvents(cat, next, es[1..]));
    }
  }

  lemma {:induction false} TurnsAppend<C>(cat: M.Catalogue, m: M.Manager<C>, a: seq<Runs.Turn<C>>, b: seq<Runs.Turn<C>>)
    ensures Runs.Run(cat, m, a + b) == Runs.Run(cat, Runs.Run(cat, m, a), b)
    decreases |a|
  {
    hide Runs.Step;
    if a == [] {
      Empty(b);
    } else {
      HeadOfSum(a, b);
      TurnsAppend(cat, Runs.Step(cat, m, a[0]), a[1..], b);
    }
  }

  /** A run of the server is a run of the game manager in which every client is offered at most once. */
  lemma {:induction false} ServerRunsMatchmaking<C>(cat: M.Catalogue, sv: Server<C>, es: seq<Event<C>>, offered: set<C>)
    requires S.Sane(sv.sessions) && Run(cat, sv, es).Some? && offered <= sv.sessions.objects.Keys
    ensures Run(cat, sv, es).value.manager == Runs.Run(cat, sv.manager, AllRequests(cat, sv, es))
    ensures Runs.NewcomersOnly(AllRequests(cat, sv, es), offered)
    decreases |es|
  {
    hide S.Sane, Step, Requests, Admissible, Runs.Step, OnlyNewcomers;
    if es != [] {
      StepSane(cat, sv, es[0]);
      StepIsMatchmakingRun(cat, sv, es[0]);
      var next := Step(cat, sv, es[0]).value;
      var now, later := Requests(sv, es[0]), AllRequests(cat, next, es[1..]);
      TurnsAppend(cat, sv.manager, now, later);
      var more := offered + if now == [] then {} else Runs.OfferedBy(now[0]);
      OfferedSoFar(now, offered, sv.sessions.objects.Keys, next.sessions.objects.Keys);
      ServerRunsMatchmaking(cat, next, es[1..], more);
      NewcomersAppend(now, later, offered);
    }
  }

  lemma OfferedSoFar<C>(now: seq<Runs.Turn<C>>, offered: set<C>, before: set<C>, after: set<C>)
    requires |now| <= 1 && OnlyNewcomers(now, before, after) && offered <= before <= after
    ensures now != [] ==> Runs.Newcomer(now[0], offered)
    ensures offered + (if now == [] then {} else Runs.OfferedBy(now[0])) <= after
  {
    if now != [] {
      assert now[0] in now;
    }
  }

  lemma NewcomersAppend<C>(now: seq<Runs.Turn<C>>, later: seq<Runs.Turn<C>>, offered: set<C>)
    requires |now| <= 1 && (now != [] ==> Runs.Newcomer(now[0], offered))
    requires Runs.NewcomersOnly(later, offered + if now == [] then {} else Runs.OfferedBy(now[0]))
    ensures Runs.NewcomersOnly(now + later, offered)
  {
    if now == [] {
      Empty(later);
      assert offered + {} == offered;
    } else {
      HeadOfSum(now, later);
      Empty(later);
      assert now[1..] == [];
    }
  }

  /** The server at its start: nobody known, nothing loaded. */
  function Idle<C>(): Server<C> {
    Server(S.Sessions(map[], [], map[]), Runs.Fresh())
  }

  /** In every reachable state of a server a client is in at most one place, each game is within its limits, and every
      registered client whose address is not banned has fewer than five warnings. */
  lemma ReachableServersAreOrderly<C>(cat: M.Catalogue, es: seq<Event<C>>, c: C, p: Runs.Place, q: Runs.Place)
    requires Run(cat, Idle(), es).Some?
    ensures var sv := Run(cat, Idle(), es).value;
      && Runs.AllWithinLimits(cat, sv.manager) && S.Tolerated(sv.sessions)
      && (Runs.At(sv.manager, c, p) && Runs.At(sv.manager, c, q) ==> p == q)
  {
    hide Run, Runs.Run, S.Run, Runs.At, S.Tolerated, Runs.Settled;
    IdleIsFine<C>(cat);
    ServerRunsSessions(cat, Idle<C>(), es);
    S.WarningsStayBelowFive(Idle<C>().sessions, AllSessionEvents(cat, Idle(), es));
    ServerRunsMatchmaking(cat, Idle<C>(), es, {});
    var turns := AllRequests(cat, Idle(), es);
    Runs.FreshIsSettled<C>(cat);
    Runs.RunSettled(cat, Runs.Fresh<C>(), turns, {});
    SettledWithin(cat, Runs.Run(cat, Runs.Fresh<C>(), turns), Runs.AllOffered(turns, {}));
    var m := Run(cat, Idle(), es).value.manager;
    if Runs.At(m, c, p) && Runs.At(m, c, q) {
      Runs.EveryClientInOnePlace(cat, turns, c, p, q);
    }
  }

  lemma SettledWithin<C>(cat: M.Catalogue, m: M.Manager<C>, offered: set<C>)
    requires Runs.Settled(cat, m, offered)
    ensures Runs.AllWithinLimits(cat, m)
    ensures forall g :: g in cat ==> M.Once(M.RoomOf(m, g)) && M.WithinLimits(cat[g], M.RoomOf(m, g))
  {
  }

  /** No server run ever drops a waiting client: those who joined a game's queue are, in order, those admitted from it
      and those still waiting. */
  lemma ServerQueuesAreFifo<C>(cat: M.Catalogue, es: seq<Event<C>>, g: text)
    requires Run(cat, Idle(), es).Some?
    ensures var turns := AllRequests(cat, Idle(), es);
      Runs.AllQueued(cat, Runs.Fresh(), turns, g)
        == Runs.AllPromoted(cat, Runs.Fresh(), turns, g) + M.RoomOf(Run(cat, Idle(), es).value.manager, g).queue
  {
    hide Run, Runs.Run, Runs.Settled, Runs.AllQueued, Runs.AllPromoted;
    ServerRunsMatchmaking(cat, Idle<C>(), es, {});
    var turns := AllRequests(cat, Idle(), es);
    Runs.FreshIsSettled<C>(cat);
    Runs.QueueIsFifo(cat, Runs.Fresh<C>(), turns, {}, g);
    assert M.RoomOf(Runs.Fresh<C>(), g).queue == [];
    Empty(Runs.AllQueued(cat, Runs.Fresh<C>(), turns, g));
  }

  /** A packet from a banned address changes nothing at all. */
  lemma BannedPacketsAreIgnored<C>(cat: M.Catalogue, sv: Server<C>, a: Address, buffer: seq<byte>, c: C, now: int)
    requires S.Sane(sv.sessions) && c !in sv.sessions.objects && S.IsBanned(sv.sessions, a)
    ensures HandlePacket(cat, sv, a, buffer, c, now) == Some(sv)
  {
    S.SaneAt(sv.sessions, a);
  }

  /** These events without the packets from this IP. */
  function Unheard<C>(es: seq<Event<C>>, ip: text): seq<Event<C>>
    decreases |es|
  {
    if es == [] then [] else (if es[0].Packet? && es[0].a.ip == ip then [] else [es[0]]) + Unheard(es[1..], ip)
  }

  /** After a ban the server runs as if the banned address had never sent anything again. */
  lemma {:induction false} BannedAddressIsSilent<C>(cat: M.Catalogue, sv: Server<C>, es: seq<Event<C>>, a: Address)
    requires S.Sane(sv.sessions) && Run(cat, sv, es).Some? && S.IsBanned(sv.sessions, a)
    ensures Run(cat, sv, Unheard(es, a.ip)) == Run(cat, sv, es)
    decreases |es|
  {
    hide S.Sane, HandlePacket;
    if es != [] {
      var e, rest := es[0], Unheard(es[1..], a.ip);
      if e.Packet? && e.a.ip == a.ip {
        BannedPacketsAreIgnored(cat, sv, e.a, e.buffer, e.c, e.now);
        Empty(rest);
        BannedAddressIsSilent(cat, sv, es[1..], a);
      } else {
        var next := Step(cat, sv, e).value;
        StepSane(cat, sv, e);
        StepIsSessionRun(cat, sv, e);
        S.BansArePermanent(sv.sessions, SessionEvents(cat, sv, e));
        BannedAddressIsSilent(cat, next, es[1..], a);
        HeadOfSum([e], rest);
        Empty(rest);
      }
    }
  }

  /** Bans outlive every run of the server, and a banned client is gone for good after the first inactivity check five
      seconds past its last activity. */
  lemma ServerBansAreEffective<C>(cat: M.Catalogue, sv: Server<C>, es: seq<Event<C>>, a: Address)
    requires S.Sane(sv.sessions) && Run(cat, sv, es).Some? && S.IsBanned(sv.sessions, a)
    ensures var s' := Run(cat, sv, es).value.sessions;
      && S.IsBanned(s', a) && S.GoneOrIdle(sv.sessions, s', a)
      && (a in sv.sessions.clients ==> sv.sessions.clients[a] in sv.sessions.objects)
      && (a in sv.sessions.clients && S.CheckedAfter(AllSessionEvents(cat, sv, es),
                                                     sv.sessions.objects[sv.sessions.clients[a]].lastActivity)
          ==> a !in s'.clients)
  {
    hide Run, S.Run, S.Sane, S.GoneOrIdle, S.CheckedAfter;
    ServerRunsSessions(cat, sv, es);
    S.SaneAt(sv.sessions, a);
    S.BansAreEffective(sv.sessions, AllSessionEvents(cat, sv, es), a);
    if a in sv.sessions.clients && S.CheckedAfter(AllSessionEvents(cat, sv, es),
                                                  sv.sessions.objects[sv.sessions.clients[a]].lastActivity) {
      S.BannedEntriesExpire(sv.sessions, AllSessionEvents(cat, sv, es), a);
    }
  }

  // ---------------------------------------------------------------- leaving a game

  /** Clients are only in rooms of the game they asked for. */
  ghost predicate Housed<C>(sv: Server<C>) {
    forall g, c :: c in sv.sessions.objects && M.InRoom(M.RoomOf(sv.manager, g), c) ==> sv.sessions.objects[c].game == g
  }

  /** Everyone in a room was created for its game, has one place, and loaded games are configured. */
  ghost predicate Orderly<C>(cat: M.Catalogue, sv: Server<C>) {
    Housed(sv) && Runs.Settled(cat, sv.manager, sv.sessions.objects.Keys) && sv.manager.loaded <= cat.Keys
  }

  /** Objects stay, each with its game. */
  predicate KeepsGames<C(==)>(s: S.Sessions<C>, s': S.Sessions<C>) {
    forall c :: c in s.objects ==> c in s'.objects && s'.objects[c].game == s.objects[c].game
  }

  lemma EventKeepsGames<C>(s: S.Sessions<C>, e: S.Event<C>)
    requires S.Sane(s)
    ensures KeepsGames(s, S.Step(s, e))
  {
    hide Deserialized, TakeString, S.Alive;
  }

  lemma {:induction false} EventsKeepGames<C>(s: S.Sessions<C>, es: seq<S.Event<C>>)
    requires S.Sane(s)
    ensures KeepsGames(s, S.Run(s, es))
    decreases |es|
  {
    hide S.Step, S.Sane;
    if es != [] {
      S.StepSane(s, es[0]);
      EventKeepsGames(s, es[0]);
      EventsKeepGames(S.Step(s, es[0]), es[1..]);
    }
  }

  /** Who enters a game in a step was created for that game. */
  lemma EntersOwnGame<C>(cat: M.Catalogue, sv: Server<C>, e: Event<C>, t: Runs.Turn<C>)
    requires S.Sane(sv.sessions) && Admissible(sv, e) && Step(cat, sv, e).Some?
    requires t in Requests(sv, e) && t.request.EnterGame?
    ensures var s' := Step(cat, sv, e).value.sessions;
      t.request.c in s'.objects && s'.objects[t.request.c].game == t.request.g
  {
    hide S.Sane, S.Screen, S.Receive, M.AddClient, Connected;
    S.SaneAt(sv.sessions, e.a);
    ScreenSane(sv.sessions, e.a, e.buffer, e.now);
    NewcomerSane(S.Screen(sv.sessions, e.a, e.buffer, e.now).0, e.a, e.c, t.request.g, e.now);
  }

  lemma StepHoused<C>(cat: M.Catalogue, sv: Server<C>, e: Event<C>)
    requires S.Sane(sv.sessions) && Admissible(sv, e) && Step(cat, sv, e).Some?
    requires Housed(sv) && Runs.Settled(cat, sv.manager, sv.sessions.objects.Keys)
    ensures Housed(Step(cat, sv, e).value)
  {
    hide S.Sane, Step, Requests, S.Run, Runs.Step, Runs.Settled, M.InRoom, M.RoomOf, SessionEvents, OnlyNewcomers;
    var next := Step(cat, sv, e).value;
    StepIsSessionRun(cat, sv, e);
    EventsKeepGames(sv.sessions, SessionEvents(cat, sv, e));
    StepIsMatchmakingRun(cat, sv, e);
    var turns := Requests(sv, e);
    OneTurn(cat, sv.manager, if turns == [] then Runs.Turn(Runs.Load([]), {}) else turns[0]);
    forall g, c | c in next.sessions.objects && M.InRoom(M.RoomOf(next.manager, g), c)
      ensures next.sessions.objects[c].game == g
    {
      if turns == [] {
        SettledMember(cat, sv.manager, sv.sessions.objects.Keys, g, c);
      } else {
        Runs.MemberWasOffered(cat, sv.manager, turns[0], sv.sessions.objects.Keys, g, c);
        if turns[0].request == Runs.EnterGame(g, c) {
          EntersOwnGame(cat, sv, e, turns[0]);
        }
      }
    }
  }

  lemma SettledMember<C>(cat: M.Catalogue, m: M.Manager<C>, offered: set<C>, g: text, c: C)
    requires Runs.Settled(cat, m, offered) && M.InRoom(M.RoomOf(m, g), c)
    ensures c in offered && g in cat
  {
    hide M.RoomOf, M.Once, M.InRoom, Runs.AllWithinLimits;
    Runs.FromMeans(M.RoomOf(m, g), offered, c);
  }

  lemma LeavingOwnGame<C>(s: S.Sessions<C>, a: Address, buffer: seq<byte>)
    requires (a in s.clients ==> s.clients[a] in s.objects) && S.Receive(s, a, buffer).1.Leaving?
    ensures var receipt := S.Receive(s, a, buffer).1;
      receipt.c in s.objects && s.objects[receipt.c].game == receipt.game
  {
  }

  /** Who leaves a game in a step was created for that game. */
  lemma ExitsOwnGame<C>(sv: Server<C>, e: Event<C>, t: Runs.Turn<C>)
    requires S.Sane(sv.sessions) && Admissible(sv, e) && t in Requests(sv, e) && t.request.ExitGame?
    ensures t.request.c in sv.sessions.objects ==> sv.sessions.objects[t.request.c].game == t.request.g
  {
    hide S.Sane, S.Screen, S.Receive, S.Step, Connected;
    var first := S.Connects(e.a, e.buffer, e.c, e.now);
    S.StepSane(sv.sessions, first);
    EventKeepsGames(sv.sessions, first);
    CheckedSane(S.Step(sv.sessions, first), e.now);
    ReceivingSane(sv, e.a, e.buffer, e.c, e.now);
    S.SaneAt(Receiving(sv, e.a, e.buffer, e.c, e.now), e.a);
    LeavingOwnGame(Receiving(sv, e.a, e.buffer, e.c, e.now), e.a, e.buffer);
  }

  /** The request that a client leaves ends its play exactly if its game is in the store or it was not playing. */
  lemma LeavingStep<C>(cat: M.Catalogue, sv: Server<C>, e: Event<C>, g: text, c: C, connected: set<C>)
    requires S.Sane(sv.sessions) && Orderly(cat, sv) && Admissible(sv, e) && Step(cat, sv, e).Some?
    requires Requests(sv, e) == [Runs.Turn(Runs.ExitGame(g, c), connected)]
    ensures (forall h :: !M.Plays(M.RoomOf(Step(cat, sv, e).value.manager, h), c)) <==>
      g in sv.manager.loaded || !M.Plays(M.RoomOf(sv.manager, g), c)
  {
    hide S.Sane, Step, Requests, Runs.Step, M.Exit, M.RoomOf, M.Plays, M.Once, Runs.Settled;
    var t := Runs.Turn(Runs.ExitGame(g, c), connected);
    assert t in [t];
    StepIsMatchmakingRun(cat, sv, e);
    OneTurn(cat, sv.manager, t);
    ExitsOwnGame(sv, e, t);
    var m, m' := sv.manager, Step(cat, sv, e).value.manager;
    forall h | h != g
      ensures !M.Plays(M.RoomOf(m', h), c)
    {
      Runs.StepRoom(cat, m, t, h);
      if M.InRoom(M.RoomOf(m, h), c) {
        SettledMember(cat, m, sv.sessions.objects.Keys, h, c);
      }
    }
    Runs.StepRoom(cat, m, t, g);
    if g in m.loaded {
      SettledWithin(cat, m, sv.sessions.objects.Keys);
      M.WaitingCannotLeave(cat[g], M.RoomOf(m, g), c, connected);
    }
  }

  // ---------------------------------------------------------------- reachable states

  /** More objects may exist than were offered. */
  lemma SettledMore<C>(cat: M.Catalogue, m: M.Manager<C>, offered: set<C>, more: set<C>)
    requires Runs.Settled(cat, m, offered) && offered <= more
    ensures Runs.Settled(cat, m, more)
  {
    hide M.RoomOf, M.Once, M.InRoom, Runs.AllWithinLimits;
    forall g
      ensures Runs.From(M.RoomOf(m, g), more)
    {
      assert Runs.From(M.RoomOf(m, g), offered);
    }
    forall g, c | c in more && M.InRoom(M.RoomOf(m, g), c)
      ensures c in offered
    {
      Runs.FromMeans(M.RoomOf(m, g), offered, c);
    }
  }

  lemma StepSettled<C>(cat: M.Catalogue, sv: Server<C>, e: Event<C>)
    requires S.Sane(sv.sessions) && Admissible(sv, e) && Step(cat, sv, e).Some?
    requires Runs.Settled(cat, sv.manager, sv.sessions.objects.Keys)
    ensures var next := Step(cat, sv, e).value; Runs.Settled(cat, next.manager, next.sessions.objects.Keys)
  {
    hide S.Sane, Step, Requests, Runs.Step, Runs.Settled;
    var next := Step(cat, sv, e).value;
    var before, after := sv.sessions.objects.Keys, next.sessions.objects.Keys;
    StepSane(cat, sv, e);
    StepIsMatchmakingRun(cat, sv, e);
    var turns := Requests(sv, e);
    OneTurn(cat, sv.manager, if turns == [] then Runs.Turn(Runs.Load([]), {}) else turns[0]);
    if turns == [] {
      SettledMore(cat, sv.manager, before, after);
    } else {
      assert turns[0] in turns;
      Runs.StepSettled(cat, sv.manager, turns[0], before);
      SettledMore(cat, next.manager, before + Runs.OfferedBy(turns[0]), after);
    }
  }

  lemma StepInStore<C>(cat: M.Catalogue, sv: Server<C>, e: Event<C>)
    requires S.Sane(sv.sessions) && Admissible(sv, e) && Step(cat, sv, e).Some? && sv.manager.loaded <= cat.Keys
    ensures Step(cat, sv, e).value.manager.loaded <= cat.Keys
  {
    hide S.Sane, Step, Requests, OnlyNewcomers, M.Enter, M.Exit, M.Closes;
    StepIsMatchmakingRun(cat, sv, e);
    var turns := Requests(sv, e);
    OneTurn(cat, sv.manager, if turns == [] then Runs.Turn(Runs.Load([]), {}) else turns[0]);
  }

  /** Every room of a reachable server holds only clients created for its game, and every loaded game is configured. */
  lemma {:induction false} ReachableServersAreHoused<C>(cat: M.Catalogue, sv: Server<C>, es: seq<Event<C>>)
    requires S.Sane(sv.sessions) && Run(cat, sv, es).Some? && Orderly(cat, sv)
    ensures Orderly(cat, Run(cat, sv, es).value)
    decreases |es|
  {
    hide S.Sane, Step, Housed, Runs.Settled, Admissible;
    if es != [] {
      StepSane(cat, sv, es[0]);
      StepHoused(cat, sv, es[0]);
      StepSettled(cat, sv, es[0]);
      StepInStore(cat, sv, es[0]);
      ReachableServersAreHoused(cat, Step(cat, sv, es[0]).value, es[1..]);
    }
  }

  lemma IdleIsFine<C>(cat: M.Catalogue)
    ensures S.Tolerated(Idle<C>().sessions) && Orderly(cat, Idle<C>())
  {
    Runs.FreshIsSettled<C>(cat);
  }

  /** A departure is survived exactly if no instance that never ran is taken off the list. */
  lemma DepartureIsSurvived<C>(cat: M.Catalogue, sv: Server<C>, e: Event<C>, g: text, c: C, connected: set<C>)
    requires S.Sane(sv.sessions) && Admissible(sv, e)
    requires Requests(sv, e) == [Runs.Turn(Runs.ExitGame(g, c), connected)]
    ensures Step(cat, sv, e).Some? <==> !M.Fatal(cat, sv.manager, g, c)
  {
    hide S.Screen, S.Receive, S.Checked, S.Sane, M.Fatal, M.RemoveClient, M.AddClient, Connected;
    S.SaneAt(sv.sessions, e.a);
    ScreenSane(sv.sessions, e.a, e.buffer, e.now);
    ReceivingSane(sv, e.a, e.buffer, e.c, e.now);
    S.SaneAt(Receiving(sv, e.a, e.buffer, e.c, e.now), e.a);
  }

  /** In every reachable server a client that disconnects or is banned for its warnings plays nowhere afterwards,
      exactly if its game is still in the store or it was not playing. */
  lemma LeaverPlaysNowhere<C>(cat: M.Catalogue, es: seq<Event<C>>, e: Event<C>, g: text, c: C, connected: set<C>)
    requires Run(cat, Idle(), es).Some? && Admissible(Run(cat, Idle(), es).value, e)
    requires Step(cat, Run(cat, Idle(), es).value, e).Some?
    requires Requests(Run(cat, Idle(), es).value, e) == [Runs.Turn(Runs.ExitGame(g, c), connected)]
    ensures var sv := Run(cat, Idle(), es).value;
      (forall h :: !M.Plays(M.RoomOf(Step(cat, sv, e).value.manager, h), c)) <==>
        g in sv.manager.loaded || !M.Plays(M.RoomOf(sv.manager, g), c)
  {
    hide Run, Step, Requests, Orderly, M.Plays, M.RoomOf;
    IdleIsFine<C>(cat);
    ReachableServersAreHoused(cat, Idle<C>(), es);
    LeavingStep(cat, Run(cat, Idle(), es).value, e, g, c, connected);
  }
}
