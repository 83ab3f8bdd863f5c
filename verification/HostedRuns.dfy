/** What happens to one instance of a running server is a run of its game, and what arrives for a player in that run is
    what the server received. */
module HostedRuns {
  import opened Wrappers
  import opened Bytes
  import opened Sequences
  import opened Packets
  import opened GameModel
  import opened Replication
  import opened GameRuns
  import opened Transport
  import opened TransportRuns
  import opened Delivery
  import Clients
  import H = Hosting
  import S = Sessions
  import SR = SessionRuns
  import M = Matchmaking
  import Runs = MatchmakingRuns
  import Sv = Servers

  // ---------------------------------------------------------------- runs of one world

  /** These turns lead from one world to the other; player d stays, and these packets arrive for it. */
  ghost predicate Leads<C>(cfg: Config, w: World<C>, turns: seq<Turn<C>>, w': World<C>, d: C, fs: seq<Frame>) {
    && Rostered(w) && Replication.Run(cfg, w, turns) == Some(w')
    && Remains(turns, d) && Arrivals(turns, d) == fs
  }

  lemma StandingStill<C>(cfg: Config, w: World<C>, d: C)
    requires Rostered(w)
    ensures Leads(cfg, w, [], w, d, [])
  {
  }

  lemma OneTurn<C>(cfg: Config, w: World<C>, turn: Turn<C>, d: C)
    requires Rostered(w) && After(cfg, w, turn).Some? && turn.step != Leave(d)
    ensures Leads(cfg, w, [turn], After(cfg, w, turn).value, d,
                  if turn.step.Arrive? && turn.step.c == d then [turn.step.f] else [])
  {
    hide After, Rostered;
    assert [turn][1..] == [];
    var now := if turn.step.Arrive? && turn.step.c == d then [turn.step.f] else [];
    assert Arrivals<C>([], d) == [];
    assert Arrivals([turn], d) == now + Arrivals([turn][1..], d);
    Empty(now);
    assert Replication.Run(cfg, After(cfg, w, turn).value, []) == Some(After(cfg, w, turn).value);
  }

  lemma {:induction false} RunAppend<C>(cfg: Config, w: World<C>, a: seq<Turn<C>>, b: seq<Turn<C>>)
    requires Rostered(w) && Replication.Run(cfg, w, a).Some?
    ensures Replication.Run(cfg, w, a + b) == Replication.Run(cfg, Replication.Run(cfg, w, a).value, b)
    decreases |a|
  {
    hide After, Rostered;
    if a == [] {
      Empty(b);
    } else {
      HeadOfSum(a, b);
      RunAppend(cfg, After(cfg, w, a[0]).value, a[1..], b);
    }
  }

  lemma {:induction false} ArrivalsAppend<C>(a: seq<Turn<C>>, b: seq<Turn<C>>, d: C)
    ensures Arrivals(a + b, d) == Arrivals(a, d) + Arrivals(b, d)
    decreases |a|
  {
    if a == [] {
      Empty(b);
      Empty(Arrivals(b, d));
    } else {
      HeadOfSum(a, b);
      ArrivalsAppend(a[1..], b, d);
      var now := if a[0].step.Arrive? && a[0].step.c == d then [a[0].step.f] else [];
      Associative(now, Arrivals(a[1..], d), Arrivals(b, d));
    }
  }

  lemma Onwards<C>(cfg: Config, w: World<C>, a: seq<Turn<C>>, w1: World<C>, b: seq<Turn<C>>, w2: World<C>, d: C,
                   fs: seq<Frame>, gs: seq<Frame>)
    requires Leads(cfg, w, a, w1, d, fs) && Leads(cfg, w1, b, w2, d, gs)
    ensures Leads(cfg, w, a + b, w2, d, fs + gs)
  {
    hide Replication.Run, Rostered, Arrivals;
    RunAppend(cfg, w, a, b);
    ArrivalsAppend(a, b, d);
  }

  // ---------------------------------------------------------------- one instance

  /** A step of some world of the floor, seen from the i-th. */
  lemma OnWorldLeads<C>(cfg: Config, ws: H.Floor<C>, j: nat, turn: Turn<C>, i: nat, d: C) returns (turns: seq<Turn<C>>)
    requires Playable(cfg) && H.AllGood(cfg, ws) && j < |ws| && H.OnWorld(cfg, ws, j, turn).Some?
    requires i < |ws| && ws[i].Some? && turn.step != Leave(d) && !turn.step.Arrive?
    ensures var ws' := H.OnWorld(cfg, ws, j, turn).value;
      ws'[i].Some? && Leads(cfg, ws[i].value, turns, ws'[i].value, d, [])
  {
    hide Playable, Good, After, Leads;
    GoodMeans(cfg, ws[i].value);
    turns := [];
    if i == j {
      OneTurn(cfg, ws[i].value, turn, d);
      turns := [turn];
    } else {
      StandingStill(cfg, ws[i].value, d);
    }
  }

  lemma EnterLeads<C>(cfg: M.GameConfig, setup: H.Setup, r: M.Room<C>, ws: H.Floor<C>, c: C, peer: Peer,
                      connected: set<C>, stamp: u64, i: nat, d: C) returns (turns: seq<Turn<C>>)
    requires H.Suits(setup, cfg) && H.Hosts(setup, r, ws) && i < |ws| && ws[i].Some?
    requires H.EnterWorlds(cfg, setup, r, ws, c, peer, connected, stamp).Some?
    ensures var ws' := H.EnterWorlds(cfg, setup, r, ws, c, peer, connected, stamp).value;
      i < |ws'| && ws'[i].Some? && Leads(setup.game, ws[i].value, turns, ws'[i].value, d, [])
  {
    hide H.OnWorld, Playable, Good, Leads;
    turns := [];
    if M.Full(cfg, r) {
      GoodMeans(setup.game, ws[i].value);
      StandingStill(setup.game, ws[i].value, d);
    } else {
      var open := H.Opened(cfg, setup, r, ws);
      turns := OnWorldLeads(setup.game, open, |open| - 1, Turn(Join(c, peer), connected, stamp), i, d);
    }
  }

  lemma ExitLeads<C>(cfg: M.GameConfig, setup: H.Setup, r: M.Room<C>, ws: H.Floor<C>, c: C, peer: Peer,
                     connected: set<C>, stamp: u64, i: nat, d: C) returns (turns: seq<Turn<C>>)
    requires H.Suits(setup, cfg) && H.Hosts(setup, r, ws) && c != d
    requires H.ExitWorlds(cfg, setup, r, ws, c, peer, connected, stamp).Some?
    requires var ws' := H.ExitWorlds(cfg, setup, r, ws, c, peer, connected, stamp).value;
      i < |ws| && ws[i].Some? && i < |ws'| && ws'[i].Some?
    ensures var ws' := H.ExitWorlds(cfg, setup, r, ws, c, peer, connected, stamp).value;
      Leads(setup.game, ws[i].value, turns, ws'[i].value, d, [])
  {
    hide H.OnWorld, Playable, Good, Leads, M.Left;
    turns := [];
    if !M.Plays(r, c) {
      GoodMeans(setup.game, ws[i].value);
      StandingStill(setup.game, ws[i].value, d);
    } else {
      var home, leave := M.Home(r.instances, c), Turn(Leave(c), connected, stamp);
      turns := OnWorldLeads(setup.game, ws, home, leave, i, d);
      var vacated := H.OnWorld(setup.game, ws, home, leave).value;
      if M.Left(r, c) != [] && |M.Left(r, c)| > cfg.minPlayers && r.queue != [] {
        var join := Turn(Join(r.queue[0], peer), connected, stamp);
        var more := OnWorldLeads(setup.game, vacated, home, join, i, d);
        var seated := H.OnWorld(setup.game, vacated, home, join).value;
        Onwards(setup.game, ws[i].value, turns, vacated[i].value, more, seated[i].value, d, [], []);
        Empty<Frame>([]);
        turns := turns + more;
      }
    }
  }

  lemma ServedLeads<C>(cat: M.Catalogue, setups: map<text, H.Setup>, m: M.Manager<C>, worlds: H.Worlds<C>,
                       t: Runs.Turn<C>, peer: Peer, stamp: u64, g: text, i: nat, d: C) returns (turns: seq<Turn<C>>)
    requires H.Equipped(cat, setups) && H.Furnished(cat, setups, m, worlds) && g in cat
    requires H.Served(cat, setups, m, worlds, t, peer, stamp).Some?
    requires t.request.ExitGame? ==> t.request.c != d
    requires i < |H.WorldsOf(worlds, g)| && H.WorldsOf(worlds, g)[i].Some?
    requires var ws' := H.WorldsOf(H.Served(cat, setups, m, worlds, t, peer, stamp).value, g);
      i < |ws'| && ws'[i].Some?
    ensures var ws' := H.WorldsOf(H.Served(cat, setups, m, worlds, t, peer, stamp).value, g);
      Leads(setups[g].game, H.WorldsOf(worlds, g)[i].value, turns, ws'[i].value, d, [])
  {
    hide H.EnterWorlds, H.ExitWorlds, H.Suits, M.RoomOf, M.Dropped, H.Hosts, Leads, Rostered;
    var ws := H.WorldsOf(worlds, g);
    H.FurnishedMeans(cat, setups, m, worlds, g);
    H.HostsMeans(setups[g], M.RoomOf(m, g), ws);
    GoodMeans(setups[g].game, ws[i].value);
    StandingStill(setups[g].game, ws[i].value, d);
    turns := [];
    if Runs.Reaches(cat, m, t, g) {
      match t.request
      case EnterGame(_, c) =>
        turns := EnterLeads(cat[g], setups[g], M.RoomOf(m, g), ws, c, peer, t.connected, stamp, i, d);
      case ExitGame(_, c) =>
        turns := ExitLeads(cat[g], setups[g], M.RoomOf(m, g), ws, c, peer, t.connected, stamp, i, d);
      case _ =>
    }
  }

  // ---------------------------------------------------------------- one happening

  /** The player is seated in the i-th world of this game. */
  predicate Here<C(==)>(h: H.House<C>, g: text, i: nat, d: C) {
    i < |H.WorldsOf(h.worlds, g)| && H.Seats(H.WorldsOf(h.worlds, g), i, d)
  }

  ghost predicate Departs<C>(h: H.House<C>, x: H.Happening<C>, d: C)
    requires S.Sane(h.server.sessions)
  {
    x.Handles? && Sv.Admissible(h.server, x.e)
    && exists t :: t in Sv.Requests(h.server, x.e) && t.request.ExitGame? && t.request.c == d
  }

  /** What the server queues to the client. */
  function QueuedOf<C(==)>(r: S.Receipt<C>, d: C): seq<Frame> {
    if r.Queued? && r.c == d then [r.f] else []
  }

  ghost function QueuedIn<C>(h: H.House<C>, x: H.Happening<C>, d: C): seq<Frame>
    requires S.Sane(h.server.sessions)
  {
    if x.Handles? && Sv.Admissible(h.server, x.e) then QueuedOf(Sv.Receipt(h.server, x.e), d) else []
  }

  lemma FedLeads<C>(cfg: Config, worlds: H.Worlds<C>, receipt: S.Receipt<C>, g: text, i: nat, d: C)
      returns (turns: seq<Turn<C>>)
    requires i < |H.WorldsOf(worlds, g)| && H.WorldsOf(worlds, g)[i].Some?
    requires Good(cfg, H.WorldsOf(worlds, g)[i].value)
    ensures var ws, ws' := H.WorldsOf(worlds, g), H.WorldsOf(H.Fed(worlds, receipt), g);
      && i < |ws'| && ws'[i].Some?
      && Leads(cfg, ws[i].value, turns, ws'[i].value, d, QueuedOf(receipt, d))
  {
    hide Good, Leads, Arrived;
    var w := H.WorldsOf(worlds, g)[i].value;
    GoodMeans(cfg, w);
    turns := [];
    if receipt.Queued? {
      turns := [Turn(Arrive(receipt.c, receipt.f), {}, 0)];
      OneTurn(cfg, w, turns[0], d);
    } else {
      StandingStill(cfg, w, d);
    }
  }

  lemma RequestsOrReceipt<C>(sv: Sv.Server<C>, e: Sv.Event<C>)
    requires S.Sane(sv.sessions) && Sv.Admissible(sv, e) && Sv.Requests(sv, e) != []
    ensures !Sv.Receipt(sv, e).Queued?
  {
    hide S.Screen, S.Receive, S.Sane, Sv.Receiving;
  }

  /** As long as it stays in its seat, a happening is a few turns of its world, and exactly what the server queues to it
      arrives there. */
  lemma NextLeads<C>(cat: M.Catalogue, setups: map<text, H.Setup>, h: H.House<C>, x: H.Happening<C>, g: text, i: nat,
                     d: C) returns (turns: seq<Turn<C>>)
    requires H.Equipped(cat, setups) && H.InOrder(cat, setups, h) && H.Next(cat, setups, h, x).Some? && g in cat
    requires Here(h, g, i, d) && Here(H.Next(cat, setups, h, x).value, g, i, d) && !Departs(h, x, d)
    ensures Leads(setups[g].game, H.WorldsOf(h.worlds, g)[i].value, turns,
                  H.WorldsOf(H.Next(cat, setups, h, x).value.worlds, g)[i].value, d, QueuedIn(h, x, d))
  {
    hide Sv.Step, Sv.Requests, Sv.Receipt, Sv.Orderly, S.Sane, H.Served, H.OnWorld, H.Suits, M.RoomOf, H.Hosts, Leads,
         H.Fed, Good, H.WorldsOf;
    H.InOrderIsSane(cat, setups, h);
    H.FurnishedMeans(cat, setups, h.server.manager, h.worlds, g);
    H.HostsMeans(setups[g], M.RoomOf(h.server.manager, g), H.WorldsOf(h.worlds, g));
    match x
    case Handles(e, peer, stamp) =>
      var requests := Sv.Requests(h.server, e);
      if requests != [] {
        RequestsOrReceipt(h.server, e);
        assert requests[0] in requests;
        turns := ServedLeads(cat, setups, h.server.manager, h.worlds, requests[0], peer, stamp, g, i, d);
      } else {
        turns := FedLeads(setups[g].game, h.worlds, Sv.Receipt(h.server, e), g, i, d);
      }
    case Lives(g', i', turn) => turns := LivesLeads(cat, setups, h, g', i', turn, g, i, d);
  }

  lemma LivesLeads<C>(cat: M.Catalogue, setups: map<text, H.Setup>, h: H.House<C>, g': text, i': nat, turn: Turn<C>,
                      g: text, i: nat, d: C) returns (turns: seq<Turn<C>>)
    requires H.Equipped(cat, setups) && H.InOrder(cat, setups, h) && g in cat && Here(h, g, i, d)
    requires H.Next(cat, setups, h, H.Lives(g', i', turn)).Some?
    requires H.AllGood(setups[g].game, H.WorldsOf(h.worlds, g))
    ensures var ws' := H.WorldsOf(H.Next(cat, setups, h, H.Lives(g', i', turn)).value.worlds, g);
      && i < |ws'| && ws'[i].Some?
      && Leads(setups[g].game, H.WorldsOf(h.worlds, g)[i].value, turns, ws'[i].value, d, [])
  {
    hide Sv.Orderly, S.Sane, H.OnWorld, H.Suits, H.Furnished, Leads, Good, Playable;
    var w := H.WorldsOf(h.worlds, g)[i].value;
    GoodMeans(setups[g].game, w);
    StandingStill(setups[g].game, w, d);
    turns := [];
    if g' == g {
      H.SuitsMeans(setups[g], cat[g]);
      turns := OnWorldLeads(setups[g].game, H.WorldsOf(h.worlds, g), i', turn, i, d);
    }
  }

  // ---------------------------------------------------------------- whole runs

  /** The player keeps its seat all the while. */
  ghost predicate AlwaysHere<C>(cat: M.Catalogue, setups: map<text, H.Setup>, h: H.House<C>, xs: seq<H.Happening<C>>,
                                g: text, i: nat, d: C)
    requires H.Equipped(cat, setups) && H.InOrder(cat, setups, h)
    decreases |xs|
  {
    && Here(h, g, i, d)
    && (xs == [] ||
        (!Departs(h, xs[0], d) &&
         match H.Next(cat, setups, h, xs[0])
         case None => true
         case Some(h') => H.NextInOrder(cat, setups, h, xs[0]); AlwaysHere(cat, setups, h', xs[1..], g, i, d)))
  }

  ghost function QueuedDuring<C>(cat: M.Catalogue, setups: map<text, H.Setup>, h: H.House<C>, xs: seq<H.Happening<C>>,
                                 d: C): seq<Frame>
    requires H.Equipped(cat, setups) && H.InOrder(cat, setups, h) && H.Run(cat, setups, h, xs).Some?
    decreases |xs|
  {
    if xs == [] then [] else
    H.NextInOrder(cat, setups, h, xs[0]);
    QueuedIn(h, xs[0], d) + QueuedDuring(cat, setups, H.Next(cat, setups, h, xs[0]).value, xs[1..], d)
  }

  /** The history of an instance while a player keeps its seat is a run of its game, and what arrives for the player in
      that run is exactly what the server queued to it. */
  lemma {:induction false} WorldsRunGames<C>(cat: M.Catalogue, setups: map<text, H.Setup>, h: H.House<C>,
                                             xs: seq<H.Happening<C>>, g: text, i: nat, d: C)
      returns (turns: seq<Turn<C>>)
    requires H.Equipped(cat, setups) && H.InOrder(cat, setups, h) && H.Run(cat, setups, h, xs).Some? && g in cat
    requires AlwaysHere(cat, setups, h, xs, g, i, d)
    ensures Here(H.Run(cat, setups, h, xs).value, g, i, d)
    ensures Leads(setups[g].game, H.WorldsOf(h.worlds, g)[i].value, turns,
                  H.WorldsOf(H.Run(cat, setups, h, xs).value.worlds, g)[i].value, d,
                  QueuedDuring(cat, setups, h, xs, d))
    decreases |xs|
  {
    hide H.Equipped, H.InOrder, H.Next, Departs, Leads, QueuedIn;
    HereFirst(cat, setups, h, xs, g, i, d);
    HereIsGood(cat, setups, h, g, i, d);
    if xs == [] {
      StandingStill(setups[g].game, H.WorldsOf(h.worlds, g)[i].value, d);
      turns := [];
    } else {
      H.InOrderIsSane(cat, setups, h);
      H.NextInOrder(cat, setups, h, xs[0]);
      var h' := H.Next(cat, setups, h, xs[0]).value;
      HereFirst(cat, setups, h', xs[1..], g, i, d);
      turns := NextLeads(cat, setups, h, xs[0], g, i, d);
      var more := WorldsRunGames(cat, setups, h', xs[1..], g, i, d);
      Onwards(setups[g].game, H.WorldsOf(h.worlds, g)[i].value, turns, H.WorldsOf(h'.worlds, g)[i].value, more,
              H.WorldsOf(H.Run(cat, setups, h, xs).value.worlds, g)[i].value, d, QueuedIn(h, xs[0], d),
              QueuedDuring(cat, setups, h', xs[1..], d));
      turns := turns + more;
    }
  }

  lemma HereFirst<C>(cat: M.Catalogue, setups: map<text, H.Setup>, h: H.House<C>, xs: seq<H.Happening<C>>,
                     g: text, i: nat, d: C)
    requires H.Equipped(cat, setups) && H.InOrder(cat, setups, h) && AlwaysHere(cat, setups, h, xs, g, i, d)
    ensures Here(h, g, i, d)
  {
  }

  lemma HereIsGood<C>(cat: M.Catalogue, setups: map<text, H.Setup>, h: H.House<C>, g: text, i: nat, d: C)
    requires H.Equipped(cat, setups) && H.InOrder(cat, setups, h) && g in cat && Here(h, g, i, d)
    ensures g in setups && Rostered(H.WorldsOf(h.worlds, g)[i].value) && d in H.WorldsOf(h.worlds, g)[i].value.players
  {
    hide Sv.Orderly, S.Sane, H.Suits, M.RoomOf, Good;
    assert H.Hosts(setups[g], M.RoomOf(h.server.manager, g), H.WorldsOf(h.worlds, g));
    GoodMeans(setups[g].game, H.WorldsOf(h.worlds, g)[i].value);
  }

  // ---------------------------------------------------------------- what the server received

  lemma {:induction false} QueuedAppend<C>(s: S.Sessions<C>, a: seq<S.Event<C>>, b: seq<S.Event<C>>, d: C)
    requires S.Sane(s)
    ensures SR.QueuedTo(s, a + b, d) == SR.QueuedTo(s, a, d) + SR.QueuedTo(S.Run(s, a), b, d)
    decreases |a|
  {
    hide S.Step, S.Sane, SR.QueuedBy;
    if a == [] {
      Empty(b);
      Empty(SR.QueuedTo(s, b, d));
    } else {
      HeadOfSum(a, b);
      S.StepSane(s, a[0]);
      var s1 := S.Step(s, a[0]);
      QueuedAppend(s1, a[1..], b, d);
      Associative(SR.QueuedBy(s, a[0], d), SR.QueuedTo(s1, a[1..], d), SR.QueuedTo(S.Run(s, a), b, d));
    }
  }

  lemma QueuedByOne<C>(s: S.Sessions<C>, e: S.Event<C>, d: C)
    requires S.Sane(s)
    ensures SR.QueuedTo(s, [e], d) == SR.QueuedBy(s, e, d) && SR.QueuedTo(s, [], d) == []
  {
    hide S.Step, S.Sane, SR.QueuedBy;
    S.StepSane(s, e);
    assert [e][1..] == [];
    assert SR.QueuedTo(S.Step(s, e), [], d) == [];
    Empty(SR.QueuedBy(s, e, d));
  }

  /** Nothing is queued before the last of these events. */
  lemma QueuedByLast<C>(s: S.Sessions<C>, before: seq<S.Event<C>>, e: S.Event<C>, d: C)
    requires S.Sane(s) && forall f :: f in before ==> !f.Receives?
    ensures SR.QueuedTo(s, before + [e], d) == SR.QueuedBy(S.Run(s, before), e, d)
    decreases |before|
  {
    hide S.Step, S.Sane;
    QueuedAppend(s, before, [e], d);
    QueuedByOne(S.Run(s, before), e, d);
    NothingQueued(s, before, d);
    Empty(SR.QueuedBy(S.Run(s, before), e, d));
  }

  lemma {:induction false} NothingQueued<C>(s: S.Sessions<C>, es: seq<S.Event<C>>, d: C)
    requires S.Sane(s) && forall f :: f in es ==> !f.Receives?
    ensures SR.QueuedTo(s, es, d) == []
    decreases |es|
  {
    hide S.Step, S.Sane;
    if es != [] {
      assert es[0] in es;
      S.StepSane(s, es[0]);
      NothingQueued(S.Step(s, es[0]), es[1..], d);
    }
  }

  /** One server step queues what its one receipt says. */
  lemma StepQueues<C>(cat: M.Catalogue, sv: Sv.Server<C>, e: Sv.Event<C>, d: C)
    requires S.Sane(sv.sessions) && Sv.Admissible(sv, e)
    ensures SR.QueuedTo(sv.sessions, Sv.SessionEvents(cat, sv, e), d) == QueuedOf(Sv.Receipt(sv, e), d)
  {
    hide S.Step, S.Sane, S.Screen, S.Receive, S.Checked, S.Registered, SR.QueuedBy,
         M.AddClient, Sv.Connected, SR.QueuedTo, S.Run;
    var es := Sv.SessionEvents(cat, sv, e);
    if e.Packet? && es != [] && es[|es| - 1].Receives? {
      var first, check, last := es[0], es[1], es[2];
      assert es == [first, check] + [last];
      Sv.TwoSteps(sv.sessions, first, check);
      QueuedByLast(sv.sessions, [first, check], last, d);
      CheckStep(S.Step(sv.sessions, first), e.now);
      Sv.ReceivingSane(sv, e.a, e.buffer, e.c, e.now);
      ReceivesQueues(S.Run(sv.sessions, [first, check]), e.a, e.buffer, d);
    } else {
      NothingQueued(sv.sessions, es, d);
    }
  }

  lemma CheckStep<C>(s: S.Sessions<C>, now: int)
    requires S.Sane(s)
    ensures S.Step(s, S.Check(now)) == S.Checked(s, now)
  {
  }

  lemma ReceivesQueues<C>(s: S.Sessions<C>, a: Clients.Address, buffer: seq<byte>, d: C)
    requires S.Sane(s)
    ensures a in s.clients ==> s.clients[a] in s.objects
    ensures SR.QueuedBy(s, S.Receives(a, buffer), d) == QueuedOf(S.Receive(s, a, buffer).1, d)
  {
    hide S.Receive;
  }

  /** What the server queued to a client while all this happened is what the run of its client manager queued. */
  lemma {:induction false} ServerQueues<C>(cat: M.Catalogue, setups: map<text, H.Setup>, h: H.House<C>,
                                           xs: seq<H.Happening<C>>, d: C)
    requires H.Equipped(cat, setups) && H.InOrder(cat, setups, h) && H.Run(cat, setups, h, xs).Some?
    ensures S.Sane(h.server.sessions) && Sv.Run(cat, h.server, H.Events(xs)).Some?
    ensures QueuedDuring(cat, setups, h, xs, d)
      == SR.QueuedTo(h.server.sessions, Sv.AllSessionEvents(cat, h.server, H.Events(xs)), d)
    decreases |xs|
  {
    hide H.Equipped, H.InOrder, S.Sane, Sv.Step, Sv.SessionEvents, Sv.Receipt, SR.QueuedTo, S.Run, QueuedOf,
         H.WorldsAfter,
         H.OnWorld;
    H.InOrderIsSane(cat, setups, h);
    H.HouseRunsServer(cat, setups, h, xs);
    if xs == [] {
      NothingQueued(h.server.sessions, [], d);
    } else {
      H.NextInOrder(cat, setups, h, xs[0]);
      var h' := H.Next(cat, setups, h, xs[0]).value;
      ServerQueues(cat, setups, h', xs[1..], d);
      if xs[0].Handles? {
        var e, rest := xs[0].e, H.Events(xs[1..]);
        assert H.Events(xs) == [e] + rest;
        StepQueues(cat, h.server, e, d);
        Sv.StepSane(cat, h.server, e);
        Sv.StepIsSessionRun(cat, h.server, e);
        assert ([e] + rest)[1..] == rest;
        QueuedAppend(h.server.sessions, Sv.SessionEvents(cat, h.server, e), Sv.AllSessionEvents(cat, h'.server, rest),
                     d);
      } else {
        Empty(QueuedDuring(cat, setups, h', xs[1..], d));
        Empty(H.Events(xs[1..]));
      }
    }
  }

  // ---------------------------------------------------------------- what is left of it

  /** The receive queue is what is left of the packets that waited and arrived. */
  predicate IsRest(inbox: seq<Frame>, all: seq<Frame>) {
    |inbox| <= |all| && inbox == all[|all| - |inbox|..]
  }

  lemma StepRest<C>(cfg: Config, w: World<C>, turn: Turn<C>, d: C)
    requires Rostered(w) && After(cfg, w, turn).Some? && d in w.players && turn.step != Leave(d)
    ensures var w' := After(cfg, w, turn).value;
      && d in w'.players && d in w'.peers
      && IsRest(w'.peers[d].inbox,
                w.peers[d].inbox + if turn.step.Arrive? && turn.step.c == d then [turn.step.f] else [])
  {
    hide Joining, Leaving, Spawning, Incoming, SameShape, News, IsRest, Distinct, Drains, Flushed, AllConnected;
    AllIsRest(w.peers[d].inbox);
    match turn.step
    case Arrive(_, f) => AllIsRest(w.peers[d].inbox + [f]);
    case Receive(ph) =>
      IncomingInboxes(ph, w, w.players, turn.connected, turn.stamp);
      DrainIsRest(w.peers[d], After(cfg, w, turn).value.peers[d], if d in turn.connected then MAX_MESSAGES else 0);
    case Send => FlushedInbox(w.peers[d]);
    case _ => GrowingStep(cfg, w, turn, d);
  }

  lemma FlushedInbox(p: Peer)
    ensures Flushed(p).inbox == p.inbox
  {
  }

  lemma DrainIsRest(p: Peer, p': Peer, n: nat)
    requires Drains(p, p', n)
    ensures IsRest(p'.inbox, p.inbox + [])
  {
    Empty(p.inbox);
  }

  lemma RestOfRest(a: seq<Frame>, now: seq<Frame>, b: seq<Frame>, later: seq<Frame>, c: seq<Frame>)
    requires IsRest(b, a + now) && IsRest(c, b + later)
    ensures IsRest(c, a + (now + later))
  {
    Associative(a, now, later);
    var all := (a + now) + later;
    assert b + later == all[|a + now| - |b|..];
  }

  lemma {:induction false} RunRest<C>(cfg: Config, w: World<C>, turns: seq<Turn<C>>, d: C)
    requires Rostered(w) && Replication.Run(cfg, w, turns).Some? && d in w.players && Remains(turns, d)
    ensures d in w.peers && d in Replication.Run(cfg, w, turns).value.peers
    ensures IsRest(Replication.Run(cfg, w, turns).value.peers[d].inbox, w.peers[d].inbox + Arrivals(turns, d))
    decreases |turns|
  {
    hide After, Rostered, IsRest;
    RosterMeans(w, d);
    if turns == [] {
      AllIsRest(w.peers[d].inbox);
    } else {
      var w1 := After(cfg, w, turns[0]).value;
      var now := if turns[0].step.Arrive? && turns[0].step.c == d then [turns[0].step.f] else [];
      StepRest(cfg, w, turns[0], d);
      RunRest(cfg, w1, turns[1..], d);
      RestOfRest(w.peers[d].inbox, now, w1.peers[d].inbox, Arrivals(turns[1..], d),
                 Replication.Run(cfg, w, turns).value.peers[d].inbox);
    }
  }

  lemma AllIsRest(fs: seq<Frame>)
    ensures IsRest(fs, fs) && IsRest(fs, fs + [])
  {
    Empty(fs);
  }

  /** While a player keeps its seat in a running server, its receive queue is what is left of the packets that waited
      there followed by exactly the packets the server accepted from its address, in order, requests to leave left out;
      and the heartbeats among them are answered one for one. */
  lemma AcceptedPacketsArrive<C>(cat: M.Catalogue, setups: map<text, H.Setup>, h: H.House<C>, xs: seq<H.Happening<C>>,
                                 g: text, i: nat, d: C, received: seq<Frame>)
    requires H.Equipped(cat, setups) && H.InOrder(cat, setups, h) && H.Run(cat, setups, h, xs).Some? && g in cat
    requires AlwaysHere(cat, setups, h, xs, g, i, d)
    requires S.Sane(h.server.sessions) && Sv.Run(cat, h.server, H.Events(xs)).Some?
    requires SR.ArePackets(h.server.sessions, Sv.AllSessionEvents(cat, h.server, H.Events(xs)), d, received)
    ensures Here(h, g, i, d) && Here(H.Run(cat, setups, h, xs).value, g, i, d)
    ensures var w, w' := H.WorldsOf(h.worlds, g)[i].value,
      H.WorldsOf(H.Run(cat, setups, h, xs).value.worlds, g)[i].value;
      && d in w.peers && d in w'.peers
      && IsRest(w'.peers[d].inbox, w.peers[d].inbox + received)
      && Apis(Log(w'.peers[d]), REP_HEARTBEAT) + Apis(w'.peers[d].inbox, REQ_HEARTBEAT)
         == Apis(Log(w.peers[d]), REP_HEARTBEAT) + Apis(w.peers[d].inbox, REQ_HEARTBEAT)
            + Apis(received, REQ_HEARTBEAT)
  {
    hide H.Equipped, H.InOrder, H.Next, H.Run, AlwaysHere, Apis, SR.ArePackets, SR.QueuedTo, S.Sane, Sv.Run, IsRest;
    HereFirst(cat, setups, h, xs, g, i, d);
    HereIsGood(cat, setups, h, g, i, d);
    ServerQueues(cat, setups, h, xs, d);
    SR.QueuedIsAccepted(h.server.sessions, Sv.AllSessionEvents(cat, h.server, H.Events(xs)), d, received);
    var turns := WorldsRunGames(cat, setups, h, xs, g, i, d);
    var w := H.WorldsOf(h.worlds, g)[i].value;
    RunRest(setups[g].game, w, turns, d);
    HeartbeatsAreConserved(setups[g].game, w, turns, d);
  }
}
