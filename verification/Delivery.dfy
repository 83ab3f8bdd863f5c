/** What a player can rely on over any run: heartbeats, backlog, batches, and the scene. */
module Delivery {
  import opened Wrappers
  import opened Bytes
  import opened Sequences
  import opened Packets
  import opened Components
  import opened GameModel
  import opened Synchronizers
  import opened Replication
  import opened GameRuns
  import opened Transport
  import opened TransportRuns
  import R = Registries

  // ---------------------------------------------------------------- one step

  /** The steps in which nothing is consumed, sent or received: queues only grow. */
  lemma GrowingStep<C>(cfg: Config, w: World<C>, turn: Turn<C>, c: C)
    requires Rostered(w) && After(cfg, w, turn).Some?
    requires turn.step.Join? || turn.step.Leave? || turn.step.Enemy? || turn.step.Simulate? || turn.step.Check?
    requires c in w.players && turn.step != Leave(c)
    ensures var w' := After(cfg, w, turn).value; c in w'.peers && c in w'.players && Grew(w.peers[c], w'.peers[c])
  {
    hide Grew, WithPlayer, RemovePlayer, SpawnEnemy, R.Allocate, Distinct, SameShape;
    var w' := After(cfg, w, turn).value;
    NothingGrew(w);
    match turn.step
    case Join(d, peer) =>
      if MayJoin(w.players, cfg.maxPlayers, turn.connected, d) {
        var r := R.Allocate(w.table).value;
        JoinGrew(cfg, w, d, peer, turn.connected, turn.stamp, r.0, r.1);
      }
    case Leave(d) => LeaveGrew(w, d, turn.connected, turn.stamp);
    case Enemy(ready, due, now, position) => EnemyGrew(cfg, w, ready, due, now, position, turn.connected, turn.stamp);
    case _ =>
  }

  /** The player's record after any step but an arrival for it: nothing lost, added or reordered. */
  lemma StepKept<C>(cfg: Config, w: World<C>, turn: Turn<C>, c: C)
    requires Rostered(w) && After(cfg, w, turn).Some? && c in w.players && turn.step != Leave(c)
    ensures var w' := After(cfg, w, turn).value;
      c in w'.players && c in w'.peers && if turn.step.Arrive? && turn.step.c == c
        then w'.peers[c] == Accept(w.peers[c], turn.step.f)
        else Kept(w.peers[c], w'.peers[c])
  {
    hide Grew, Kept, Joining, Leaving, Spawning, Incoming, Distinct, SameShape, Flushed;
    var w' := After(cfg, w, turn).value;
    match turn.step
    case Arrive(_, _) => GrewNothing(w.peers[c]);
    case Receive(ph) => IncomingKept(ph, w, w.players, turn.connected, turn.stamp);
    case Send => FlushedKept(w.peers[c]); GrewNothing(w.peers[c]);
    case _ =>
      GrowingStep(cfg, w, turn, c);
      GrewIsKept(w.peers[c], w'.peers[c]);
  }

  /** A connected player's receive queue loses up to twenty packets per frame and is otherwise left alone. */
  lemma StepInbox<C>(cfg: Config, w: World<C>, turn: Turn<C>, c: C)
    requires Rostered(w) && After(cfg, w, turn).Some? && c in w.players && turn.step != Leave(c)
    requires !(turn.step.Arrive? && turn.step.c == c) && c in turn.connected
    ensures var w' := After(cfg, w, turn).value;
      && c in w'.players && c in w'.peers
      && Drains(w.peers[c], w'.peers[c], if turn.step.Receive? then MAX_MESSAGES else 0)
  {
    hide Joining, Leaving, Spawning, Incoming, SameShape, News;
    match turn.step
    case Arrive(_, _) =>
    case Receive(ph) => IncomingInboxes(ph, w, w.players, turn.connected, turn.stamp);
    case Send =>
    case _ => GrowingStep(cfg, w, turn, c);
  }

  // ---------------------------------------------------------------- heartbeats and backlog

  predicate Remains<C(==)>(turns: seq<Turn<C>>, c: C) {
    forall i :: 0 <= i < |turns| ==> turns[i].step != Leave(c)
  }

  /** The packets received for the client during the run. */
  function Arrivals<C(==)>(turns: seq<Turn<C>>, c: C): seq<Frame> {
    if turns == [] then [] else
    (if turns[0].step.Arrive? && turns[0].step.c == c then [turns[0].step.f] else []) + Arrivals(turns[1..], c)
  }

  lemma ArrivalBeats(p: Peer, f: Frame)
    ensures Beats(Accept(p, f)) == Beats(p) + Apis([f], REQ_HEARTBEAT)
  {
    hide Apis;
    ApisAppend(p.inbox, [f], REQ_HEARTBEAT);
    Associative(Apis(Log(p), REP_HEARTBEAT), Apis(p.inbox, REQ_HEARTBEAT), Apis([f], REQ_HEARTBEAT));
  }

  lemma KeptMeans(p: Peer, p': Peer)
    requires Kept(p, p')
    ensures Beats(p') == Beats(p)
    ensures Tidy(p) ==> Tidy(p')
  {
  }

  lemma ArrivalsStep<C>(turns: seq<Turn<C>>, c: C, command: byte)
    ensures Apis(Arrivals(turns, c), command) == if turns == [] then [] else
      (if turns[0].step.Arrive? && turns[0].step.c == c then Apis([turns[0].step.f], command) else [])
      + Apis(Arrivals(turns[1..], c), command)
  {
    if turns == [] {
    } else if turns[0].step.Arrive? && turns[0].step.c == c {
      ApisAppend([turns[0].step.f], Arrivals(turns[1..], c), command);
    } else {
      Empty(Arrivals(turns[1..], c));
      Empty(Apis(Arrivals(turns[1..], c), command));
    }
  }

  /** Heartbeat conservation: the replies queued to a player so far, followed by the requests it still has waiting, are
      the ones from before followed by the requests received since, version for version and in order. */
  lemma {:induction false} HeartbeatsAreConserved<C>(cfg: Config, w: World<C>, turns: seq<Turn<C>>, c: C)
    requires Rostered(w) && Run(cfg, w, turns).Some? && c in w.players && Remains(turns, c)
    ensures var w' := Run(cfg, w, turns).value;
      && c in w'.peers
      && Apis(Log(w'.peers[c]), REP_HEARTBEAT) + Apis(w'.peers[c].inbox, REQ_HEARTBEAT)
         == Apis(Log(w.peers[c]), REP_HEARTBEAT) + Apis(w.peers[c].inbox, REQ_HEARTBEAT)
            + Apis(Arrivals(turns, c), REQ_HEARTBEAT)
    decreases |turns|
  {
    hide After, Kept, Apis, Rostered, Arrivals;
    RosterMeans(w, c);
    if turns == [] {
      ArrivalsStep(turns, c, REQ_HEARTBEAT);
      Empty(Beats(w.peers[c]));
    } else {
      var w1 := After(cfg, w, turns[0]).value;
      StepKept(cfg, w, turns[0], c);
      HeartbeatsAreConserved(cfg, w1, turns[1..], c);
      ArrivalsStep(turns, c, REQ_HEARTBEAT);
      var rest := Apis(Arrivals(turns[1..], c), REQ_HEARTBEAT);
      if turns[0].step.Arrive? && turns[0].step.c == c {
        ArrivalBeats(w.peers[c], turns[0].step.f);
        Associative(Beats(w.peers[c]), Apis([turns[0].step.f], REQ_HEARTBEAT), rest);
      } else {
        KeptMeans(w.peers[c], w1.peers[c]);
        Empty(rest);
      }
    }
  }

  lemma RosterMeans<C>(w: World<C>, c: C)
    requires Rostered(w)
    ensures c in w.players <==> c in w.peers
  {
  }

  function Frames<C>(turns: seq<Turn<C>>): nat {
    if turns == [] then 0 else (if turns[0].step.Receive? then 1 else 0) + Frames(turns[1..])
  }

  /** Backlog: with no arrivals, k frames leave max(0, n - 20k) of the n packets waiting for a connected player. */
  lemma {:induction false} BacklogShrinks<C>(cfg: Config, w: World<C>, turns: seq<Turn<C>>, c: C)
    requires Rostered(w) && Run(cfg, w, turns).Some? && c in w.players && Stays(turns, c) && Arrivals(turns, c) == []
    ensures var w' := Run(cfg, w, turns).value;
      var n, k := |w.peers[c].inbox|, Frames(turns);
      && c in w'.peers && |w'.peers[c].inbox| == (if n >= 20 * k then n - 20 * k else 0)
      && w'.peers[c].inbox == w.peers[c].inbox[n - |w'.peers[c].inbox|..]
    decreases |turns|
  {
    hide After, Rostered;
    RosterMeans(w, c);
    if turns != [] {
      StepInbox(cfg, w, turns[0], c);
      BacklogShrinks(cfg, After(cfg, w, turns[0]).value, turns[1..], c);
    }
  }

  // ---------------------------------------------------------------- the send queue

  /** More is queued, and nothing is sent. */
  predicate Longer(p: Peer, p': Peer) {
    p'.sent == p.sent && p.queue <= p'.queue
  }

  ghost predicate AllLonger<C>(w: World<C>, w': World<C>) {
    w'.peers.Keys == w.peers.Keys && forall c :: c in w.peers ==> Longer(w.peers[c], w'.peers[c])
  }

  lemma GrewIsLonger<C>(w: World<C>, w': World<C>)
    requires AllGrew(w, w')
    ensures AllLonger(w, w')
  {
    hide News;
    forall c | c in w.peers
      ensures Longer(w.peers[c], w'.peers[c])
    {
      assert Grew(w.peers[c], w'.peers[c]);
    }
  }

  lemma ConsumeLonger<C>(ph: Physics, w: World<C>, c: C, connected: set<C>, stamp: u64)
    requires c in w.peers && w.peers[c].inbox != []
    ensures AllLonger(w, Consume(ph, w, c, connected, stamp))
  {
    hide HandleEvents, HeartbeatReply, Grew;
    var w1 := w.(peers := w.peers[c := w.peers[c].(inbox := w.peers[c].inbox[1..])]);
    EventsGrew(ph, w1, c, w.peers[c].inbox[0].payload, connected, stamp);
    GrewIsLonger(w1, HandleEvents(ph, w1, c, w.peers[c].inbox[0].payload, connected, stamp));
  }

  lemma {:induction false} ConsumeUpToLonger<C>(ph: Physics, w: World<C>, c: C, n: nat, connected: set<C>, stamp: u64)
    requires c in w.peers
    ensures AllLonger(w, ConsumeUpTo(ph, w, c, n, connected, stamp))
    decreases n
  {
    hide Consume;
    if n > 0 && w.peers[c].inbox != [] {
      ConsumeLonger(ph, w, c, connected, stamp);
      ConsumeUpToLonger(ph, Consume(ph, w, c, connected, stamp), c, n - 1, connected, stamp);
    }
  }

  lemma {:induction false} IncomingLonger<C>(ph: Physics, w: World<C>, todo: seq<C>, connected: set<C>, stamp: u64)
    requires forall c :: c in todo ==> c in w.peers
    ensures AllLonger(w, Incoming(ph, w, todo, connected, stamp))
    decreases |todo|
  {
    hide ConsumeUpTo;
    if todo != [] {
      assert todo[0] in todo;
      var w1 := if todo[0] in connected then ConsumeUpTo(ph, w, todo[0], MAX_MESSAGES, connected, stamp) else w;
      ConsumeUpToLonger(ph, w, todo[0], MAX_MESSAGES, connected, stamp);
      IncomingLonger(ph, w1, todo[1..], connected, stamp);
    }
  }

  /** The first n packets of the queue have been sent, in order. */
  predicate SentFirst(p: Peer, p': Peer, n: nat) {
    n <= |p.queue| && p'.sent == p.sent + p.queue[..n] && p'.queue == p.queue[n..]
  }

  lemma StepSends<C>(cfg: Config, w: World<C>, turn: Turn<C>, c: C)
    requires Rostered(w) && After(cfg, w, turn).Some? && c in w.players && turn.step != Leave(c) && c in turn.connected
    ensures var w' := After(cfg, w, turn).value;
      && c in w'.players && c in w.peers && c in w'.peers
      && (if turn.step.Send?
          then SentFirst(w.peers[c], w'.peers[c], if |w.peers[c].queue| < 20 then |w.peers[c].queue| else 20)
          else Longer(w.peers[c], w'.peers[c]))
  {
    hide Joining, Leaving, Spawning, Incoming, SameShape, News;
    match turn.step
    case Arrive(_, _) =>
    case Receive(ph) => IncomingLonger(ph, w, w.players, turn.connected, turn.stamp);
    case Send =>
    case _ => GrowingStep(cfg, w, turn, c);
  }

  function Sends<C>(turns: seq<Turn<C>>): nat {
    if turns == [] then 0 else (if turns[0].step.Send? then 1 else 0) + Sends(turns[1..])
  }

  /** Send rate: over any run with k frames of sending, a connected player with n packets queued is sent at most 20k
      packets and at least min(n, 20k), oldest first; so if nothing is queued meanwhile, max(0, n - 20k) are left. */
  lemma {:induction false} QueueDrains<C>(cfg: Config, w: World<C>, turns: seq<Turn<C>>, c: C)
    requires Rostered(w) && Run(cfg, w, turns).Some? && c in w.players && Stays(turns, c)
    ensures var w', k := Run(cfg, w, turns).value, Sends(turns);
      && c in w.peers && c in w'.peers && Log(w.peers[c]) <= Log(w'.peers[c])
      && var n, m := |w.peers[c].queue|, |w'.peers[c].sent| - |w.peers[c].sent|;
         && m <= 20 * k && (m >= n || m >= 20 * k)
         && (Log(w'.peers[c]) == Log(w.peers[c]) ==> |w'.peers[c].queue| == if n >= 20 * k then n - 20 * k else 0)
    decreases |turns|
  {
    hide After, Rostered, Log, SentFirst, Longer;
    RosterMeans(w, c);
    if turns != [] {
      var w1 := After(cfg, w, turns[0]).value;
      StepSends(cfg, w, turns[0], c);
      QueueDrains(cfg, w1, turns[1..], c);
      LogGrows(w.peers[c], w1.peers[c]);
    }
    LogSize(w.peers[c]);
    LogSize(Run(cfg, w, turns).value.peers[c]);
  }

  lemma LogSize(p: Peer)
    ensures |Log(p)| == |p.sent| + |p.queue|
  {
  }

  lemma LogGrows(p: Peer, p': Peer)
    ensures Longer(p, p') ==> Log(p) <= Log(p') && p'.sent == p.sent && |p'.queue| >= |p.queue|
    ensures forall n: nat :: SentFirst(p, p', n) ==>
      Log(p') == Log(p) && |p'.sent| == |p.sent| + n && |p'.queue| == |p.queue| - n
  {
    forall n: nat | SentFirst(p, p', n)
      ensures Log(p') == Log(p)
    {
      Associative(p.sent, p.queue[..n], p.queue[n..]);
      assert p.queue[..n] + p.queue[n..] == p.queue;
    }
  }

  // ---------------------------------------------------------------- batches

  /** Newcomers bring clean records, and clients of version 1 send packets of version 1. */
  ghost predicate CleanTurn<C>(turn: Turn<C>) {
    match turn.step
    case Join(_, peer) => Tidy(peer)
    case Arrive(_, f) => f.header.api == V_1
    case _ => true
  }

  ghost predicate CleanRun<C>(turns: seq<Turn<C>>) {
    forall i :: 0 <= i < |turns| ==> CleanTurn(turns[i])
  }

  ghost predicate AllTidy<C>(w: World<C>) {
    forall c :: c in w.peers ==> Tidy(w.peers[c])
  }

  lemma ArrivalTidy(p: Peer, f: Frame)
    requires Tidy(p) && f.header.api == V_1
    ensures Tidy(Accept(p, f))
  {
    hide Regular;
  }

  /** Nobody appears among the players but by joining. */
  lemma NewcomerStep<C>(cfg: Config, w: World<C>, turn: Turn<C>, c: C)
    requires Rostered(w) && After(cfg, w, turn).Some? && c !in w.players && c in After(cfg, w, turn).value.peers
    ensures turn.step.Join? && turn.step.c == c && Kept(turn.step.peer, After(cfg, w, turn).value.peers[c])
  {
    hide Grew, Kept, WithPlayer, Spawning, RemovePlayer, Incoming, R.Allocate, Distinct, SameShape, Flushed;
    match turn.step
    case Join(d, peer) =>
      if MayJoin(w.players, cfg.maxPlayers, turn.connected, d) {
        var r := R.Allocate(w.table).value;
        JoinGrew(cfg, w, d, peer, turn.connected, turn.stamp, r.0, r.1);
      }
    case Leave(d) => LeaveGrew(w, d, turn.connected, turn.stamp);
    case Enemy(ready, due, now, position) =>
      SpawningPeers(cfg, w, ready, due, now, position, turn.connected, turn.stamp);
    case _ =>
  }

  lemma SpawningPeers<C>(cfg: Config, w: World<C>, ready: bool, due: bool, now: u64, position: Vec3,
                               connected: set<C>, stamp: u64)
    requires Rostered(w)
    ensures var r := Spawning(cfg, w, ready, due, now, position, connected, stamp);
      r.Some? ==> r.value.peers.Keys == w.peers.Keys
  {
    hide SpawnEnemy;
    if Spawning(cfg, w, ready, due, now, position, connected, stamp).Some? {
      EnemyGrew(cfg, w, ready, due, now, position, connected, stamp);
    }
  }

  lemma StaysOrGone<C>(cfg: Config, w: World<C>, turn: Turn<C>, c: C)
    requires Rostered(w) && After(cfg, w, turn).Some? && turn.step == Leave(c)
    ensures c !in After(cfg, w, turn).value.peers
  {
    hide Grew;
    LeaveGrew(w, c, turn.connected, turn.stamp);
  }

  lemma StepTidy<C>(cfg: Config, w: World<C>, turn: Turn<C>)
    requires Rostered(w) && After(cfg, w, turn).Some? && AllTidy(w) && CleanTurn(turn)
    ensures AllTidy(After(cfg, w, turn).value)
  {
    hide After, Tidy, Kept;
    var w' := After(cfg, w, turn).value;
    forall c | c in w'.peers
      ensures Tidy(w'.peers[c])
    {
      RosterMeans(w, c);
      if turn.step == Leave(c) {
        StaysOrGone(cfg, w, turn, c);
      } else if c in w.players {
        StepKept(cfg, w, turn, c);
        if turn.step.Arrive? && turn.step.c == c {
          ArrivalTidy(w.peers[c], turn.step.f);
        } else {
          KeptMeans(w.peers[c], w'.peers[c]);
        }
      } else {
        NewcomerStep(cfg, w, turn, c);
        KeptMeans(turn.step.peer, w'.peers[c]);
      }
    }
  }

  lemma {:induction false} RunTidy<C>(cfg: Config, w: World<C>, turns: seq<Turn<C>>)
    requires Rostered(w) && Run(cfg, w, turns).Some? && AllTidy(w) && CleanRun(turns)
    ensures AllTidy(Run(cfg, w, turns).value)
    decreases |turns|
  {
    hide After, AllTidy, CleanTurn;
    if turns != [] {
      StepTidy(cfg, w, turns[0]);
      RunTidy(cfg, After(cfg, w, turns[0]).value, turns[1..]);
    }
  }

  /** Batched transport: in every run, what a player of version 1 splits out of its datagrams, one to twenty packets in
      each, is what left its queue, exactly if no payload was too long; with what is still queued it is the log. */
  lemma BatchesAreExact<C>(cfg: Config, w: World<C>, turns: seq<Turn<C>>, c: C)
    requires Rostered(w) && Run(cfg, w, turns).Some? && AllTidy(w) && CleanRun(turns)
    requires c in Run(cfg, w, turns).value.peers
    ensures var p := Run(cfg, w, turns).value.peers[c];
      && Carried(p) && Log(p) == p.sent + p.queue
      && (Recovered(p.datagrams) == Success(p.sent) <==> forall f :: f in p.sent ==> |f.payload| < 0x1_0000)
  {
    hide Run, Recovered, Carried, Regular, CleanRun;
    RunTidy(cfg, w, turns);
    TidyIsRecovered(Run(cfg, w, turns).value.peers[c]);
  }

  /** End to end: the scene as the client rebuilds it from its datagrams, once the queue has also gone out. */
  lemma ClientSeesScene<C>(cfg: Config, w: World<C>, before: seq<Turn<C>>, w1: World<C>, join: Turn<C>,
                                 w2: World<C>, after: seq<Turn<C>>, w3: World<C>, c: C)
    requires Playable(cfg) && Good(cfg, w) && AllTidy(w) && CleanRun(before) && CleanTurn(join) && CleanRun(after)
    requires Run(cfg, w, before) == Some(w1)
    requires join.step.Join? && join.step.c == c && After(cfg, w1, join) == Some(w2)
    requires c !in w1.players && c in w2.players
    requires Stays(after, c) && Run(cfg, w2, after) == Some(w3)
    ensures c in w3.peers
    ensures var p := w3.peers[c];
      (forall f :: f in p.sent ==> |f.payload| < 0x1_0000) ==>
        && Recovered(p.datagrams).Success?
        && p.joined <= |Recovered(p.datagrams).value + p.queue|
        && ReplaysTo((Recovered(p.datagrams).value + p.queue)[p.joined..], VisibleSet(w3.table))
  {
    hide Run, After, Good, Playable, Recovered, ReplaysTo, VisibleSet, CleanTurn, CleanRun, Tidy;
    ReplayEqualsScene(cfg, w, before, w1, join, w2, after, w3, c);
    GoodMeans(cfg, w);
    RunTidy(cfg, w, before);
    StepTidy(cfg, w1, join);
    RunTidy(cfg, w2, after);
    TidyIsRecovered(w3.peers[c]);
  }
}
