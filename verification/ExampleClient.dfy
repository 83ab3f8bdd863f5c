/** NetworkClient.cs: the example client handles a datagram at once, and drops what is left of it at the first
    exception. */
module ExampleClients {
  import opened Wrappers
  import opened Bytes
  import opened Sequences
  import opened Packets
  import opened Components
  import opened ComponentStreams
  import opened PayloadStreams
  import opened GameModel
  import opened SceneFacts
  import opened Synchronizers
  import opened Replication
  import opened GameRuns
  import opened Transport
  import opened Delivery
  import opened UserEvents
  import C = ClientApi
  import R = Registries
  import V = Movements

  /** The packets in order, up to the first that throws. */
  function Cut(known: set<nat>, fs: seq<Frame>): set<nat>
    decreases |fs|
  {
    if fs == [] then known else
    match Apply(known, fs[0])
    case None => known
    case Some(k) => Cut(k, fs[1..])
  }

  /** OnReceive: one handler for whatever the splitter or a packet throws. */
  function OnReceive(known: set<nat>, datagram: seq<byte>): set<nat> {
    match C.Split(datagram)
    case Failure(_) => known
    case Success(fs) => Cut(known, fs)
  }

  function OnReceiveAll(known: set<nat>, datagrams: seq<seq<byte>>): set<nat>
    decreases |datagrams|
  {
    if datagrams == [] then known else OnReceiveAll(OnReceive(known, datagrams[0]), datagrams[1..])
  }

  predicate Changes(f: Frame) {
    f.header.command == REP_CONNECT || f.header.command == REQ_ENTITY_SPAWN || f.header.command == REQ_ENTITY_DESTROY
  }

  /** The packets behind the first move. */
  function Behind(fs: seq<Frame>): seq<Frame>
    decreases |fs|
  {
    if fs == [] then [] else if IsMoved(fs[0]) then fs[1..] else Behind(fs[1..])
  }

  /** Nothing that brings or takes an entity comes behind a move. */
  predicate Harmless(fs: seq<Frame>) {
    forall f :: f in Behind(fs) ==> !Changes(f)
  }

  // ---------------------------------------------------------------- one datagram

  /** The datagram is handled as if nothing were dropped exactly if what comes behind its first move changes nothing in
      the end. */
  lemma {:induction false} CutIsExact(known: set<nat>, fs: seq<Frame>)
    requires OnlyMovesThrow(known, fs)
    ensures Drained(known, fs) == Drained(Cut(known, fs), Behind(fs))
    ensures Cut(known, fs) == Drained(known, fs) <==> Drained(Cut(known, fs), Behind(fs)) == Cut(known, fs)
    decreases |fs|
  {
    hide Apply, IsMoved;
    if fs != [] && Apply(known, fs[0]).Some? {
      CutIsExact(Handled(known, fs[0]), fs[1..]);
    }
  }

  lemma {:induction false} IdleDrained(known: set<nat>, fs: seq<Frame>)
    requires forall f :: f in fs ==> !Changes(f)
    ensures Drained(known, fs) == known
    decreases |fs|
  {
    if fs != [] {
      assert fs[0] in fs;
      IdleDrained(known, fs[1..]);
    }
  }

  lemma HarmlessIsWhole(known: set<nat>, fs: seq<Frame>)
    requires OnlyMovesThrow(known, fs) && Harmless(fs)
    ensures Cut(known, fs) == Drained(known, fs)
  {
    hide Cut, Drained, OnlyMovesThrow;
    CutIsExact(known, fs);
    IdleDrained(Cut(known, fs), Behind(fs));
  }

  // ---------------------------------------------------------------- all datagrams

  lemma {:induction false} DrainedInParts(known: set<nat>, a: seq<Frame>, b: seq<Frame>)
    requires OnlyMovesThrow(known, a + b)
    ensures OnlyMovesThrow(known, a) && OnlyMovesThrow(Drained(known, a), b)
    ensures Drained(known, a + b) == Drained(Drained(known, a), b)
    decreases |a|
  {
    hide Handled, OnlyMoveThrows;
    if a == [] {
      Empty(b);
    } else {
      HeadOfSum(a, b);
      DrainedInParts(Handled(known, a[0]), a[1..], b);
    }
  }

  predicate AllHarmless(batches: seq<seq<Frame>>) {
    forall i :: 0 <= i < |batches| ==> Harmless(batches[i])
  }

  lemma {:induction false} ReceivesAll(known: set<nat>, datagrams: seq<seq<byte>>, batches: seq<seq<Frame>>)
    requires Carries(datagrams, batches) && C.AllReadable(Flattened(batches))
    requires OnlyMovesThrow(known, Flattened(batches)) && AllHarmless(batches)
    ensures OnReceiveAll(known, datagrams) == Drained(known, Flattened(batches))
    decreases |datagrams|
  {
    hide C.Split, C.Joined, C.Readable, Cut, Drained, OnlyMovesThrow, Harmless;
    if datagrams == [] {
      IdleDrained(known, []);
    } else {
      assert Batch(datagrams[0], batches[0]);
      C.SplitOfJoined(batches[0]);
      DrainedInParts(known, batches[0], Flattened(batches[1..]));
      HarmlessIsWhole(known, batches[0]);
      ReceivesAll(Drained(known, batches[0]), datagrams[1..], batches[1..]);
    }
  }

  /** Every datagram the client gets is split into packets that do no harm. */
  predicate HarmlessOnTheWay(datagrams: seq<seq<byte>>) {
    forall i :: 0 <= i < |datagrams| && C.Split(datagrams[i]).Success? ==> Harmless(C.Split(datagrams[i]).value)
  }

  lemma {:induction false} HarmlessBatches(datagrams: seq<seq<byte>>, batches: seq<seq<Frame>>)
    requires Carries(datagrams, batches) && C.AllReadable(Flattened(batches)) && HarmlessOnTheWay(datagrams)
    ensures AllHarmless(batches)
    decreases |datagrams|
  {
    hide C.Split, C.Joined, C.Readable, Harmless;
    if datagrams != [] {
      assert Batch(datagrams[0], batches[0]);
      C.SplitOfJoined(batches[0]);
      HarmlessBatches(datagrams[1..], batches[1..]);
    }
  }

  /** The record was new when the player joined, everything queued has gone out, and no payload was beyond 16 bits. */
  predicate AllSent(p: Peer) {
    p.joined == 0 && p.queue == [] && forall f :: f in p.sent ==> |f.payload| < 0x1_0000
  }

  /** The example client sees the scene, once everything has been sent, if no datagram brings or takes an entity
      behind a move. */
  lemma ExampleClientSeesScene<C>(cfg: Config, w: World<C>, before: seq<Turn<C>>, w1: World<C>, join: Turn<C>,
                                  w2: World<C>, after: seq<Turn<C>>, w3: World<C>, c: C)
    requires Playable(cfg) && Good(cfg, w) && AllTidy(w) && CleanRun(before) && CleanTurn(join) && CleanRun(after)
    requires Run(cfg, w, before) == Some(w1)
    requires join.step.Join? && join.step.c == c && After(cfg, w1, join) == Some(w2)
    requires c !in w1.players && c in w2.players
    requires Stays(after, c) && Run(cfg, w2, after) == Some(w3)
    ensures c in w3.peers
    ensures var p := w3.peers[c];
      AllSent(p) && HarmlessOnTheWay(p.datagrams) ==> OnReceiveAll({}, p.datagrams) == VisibleSet(w3.table)
  {
    hide Run, After, Good, Playable, Recovered, ReplaysTo, VisibleSet, CleanTurn, CleanRun, Tidy, OnReceiveAll,
         HarmlessOnTheWay, Rebuilds;
    ReplayEqualsScene(cfg, w, before, w1, join, w2, after, w3, c);
    GoodMeans(cfg, w);
    RunTidy(cfg, w, before);
    StepTidy(cfg, w1, join);
    RunTidy(cfg, w2, after);
    var p := w3.peers[c];
    if AllSent(p) && HarmlessOnTheWay(p.datagrams) {
      assert Log(p)[0..] == p.sent;
      TidyIsReceived(p, VisibleSet(w3.table));
    }
  }

  lemma TidyIsReceived(p: Peer, v: set<nat>)
    requires Tidy(p) && AllSent(p)
    requires HarmlessOnTheWay(p.datagrams) && Rebuilds({}, p.sent, v)
    ensures OnReceiveAll({}, p.datagrams) == v
  {
    hide C.Readable, Regular, Flattened, OnReceiveAll, HarmlessOnTheWay, Carries, Drained, OnlyMovesThrow, Recovered;
    TidyIsRecovered(p);
    RecoversWhatWasSent(p);
    var batches :| Carries(p.datagrams, batches) && Flattened(batches) == p.sent;
    HarmlessBatches(p.datagrams, batches);
    ReceivesAll({}, p.datagrams, batches);
  }

  // ---------------------------------------------------------------- a spawn is lost

  const NEWCOMER: Peer := Peer(0, [], V_1, [], [], [], [], 0)

  /** A player that can be seen, moved and controlled. */
  function PlayerTemplate(tag: text, pose: Pose, control: SpatialComponent): seq<Component> {
    [Common(Tag(tag)), Spatial(pose.transform), Spatial(pose.movable), Spatial(control)]
  }

  ghost predicate PlainGame(cfg: Config, tag: text, pose: Pose, control: SpatialComponent) {
    && IsPose(pose) && control.Control? && tag != SKYBOX && |tag| <= INT_MAX
    && cfg.maxPlayers >= 2 && cfg.player.components == PlayerTemplate(tag, pose, control)
    && |cfg.player.name| + |cfg.scene| < 0x1000
  }

  function Ground(): World<nat> {
    World(Loaded([]), {}, [], map[])
  }

  lemma LastOfMore(c: Component, cs: seq<Component>, k: Kind)
    ensures LastOf([c] + cs, k) ==
      if LastOf(cs, k).Some? then LastOf(cs, k) else if KindOf(c) == k then Some(c) else None
    ensures LastOf([], k) == None
  {
    assert ([c] + cs)[1..] == cs;
  }

  lemma TemplateCell(tag: text, pose: Pose, control: SpatialComponent, k: Kind)
    requires IsPose(pose) && control.Control?
    ensures LastOf(PlayerTemplate(tag, pose, control), k) ==
      if k == TAG then Some(Common(Tag(tag)))
      else if k == TRANSFORM_3D then Some(Spatial(pose.transform))
      else if k == MOVABLE_3D then Some(Spatial(pose.movable))
      else if k == CONTROL_3D then Some(Spatial(control))
      else None
  {
    hide LastOf;
    var d: seq<Component> := [Spatial(control)] + [];
    var c := [Spatial(pose.movable)] + d;
    var b := [Spatial(pose.transform)] + c;
    LastOfMore(Spatial(control), [], k);
    LastOfMore(Spatial(pose.movable), d, k);
    LastOfMore(Spatial(pose.transform), c, k);
    LastOfMore(Common(Tag(tag)), b, k);
    assert PlayerTemplate(tag, pose, control) == [Common(Tag(tag))] + b;
  }

  /** The player is alone in the scene, nothing waits for it, and it can be moved. */
  ghost predicate Alone(cfg: Config, w: World<nat>, pose: Pose, control: SpatialComponent, stamp: u64) {
    var hello := ConnectFrame(V_1, 0, cfg.player.name, cfg.scene, stamp);
    && Good(cfg, w) && w.players == [0] && w.peers.Keys == {0} && w.table.dead == [] && w.table.next == 1
    && w.peers[0] == Peer(0, cfg.scene, V_1, [], [], [hello], [C.Joined([hello])], 0)
    && control.Control? && IsPose(pose) && Controllable(w.table, 0) == Some((control, pose))
  }

  lemma GroundIsGood(cfg: Config)
    ensures Loaded([]) == R.Table(map[], [], 0) && Good(cfg, Ground())
  {
    hide Good;
    StartIsGood<nat>(cfg, []);
    assert FirstIds(0) == {};
  }

  /** Alone in its scene a newcomer is sent its CONNECT and nothing else. */
  lemma GreetedAlone(cfg: Config, table: Scene, stamp: u64)
    ensures var greeted := Greeted(cfg, NEWCOMER, 0, stamp);
      greeted.(queue := greeted.queue + VisibleFrames(table, 1, 0, V_1, stamp))
        == Peer(0, cfg.scene, V_1, [ConnectFrame(V_1, 0, cfg.player.name, cfg.scene, stamp)], [], [], [], 0)
  {
    hide ConnectFrame, IsVisible;
    ConnectNews(V_1, 0, cfg.player.name, cfg.scene, stamp);
    assert VisibleFrames(table, 1, 0, V_1, stamp) == [];
  }

  lemma FirstJoins(cfg: Config, tag: text, pose: Pose, control: SpatialComponent, connected: set<nat>, stamp: u64)
    requires PlainGame(cfg, tag, pose, control) && 0 in connected
    ensures Good(cfg, Ground()) && Playable(cfg)
    ensures var r := After(cfg, Ground(), Turn(Join(0, NEWCOMER), connected, stamp));
      var hello := ConnectFrame(V_1, 0, cfg.player.name, cfg.scene, stamp);
      && r.Some? && Good(cfg, r.value) && r.value.players == [0] && r.value.peers.Keys == {0}
      && r.value.peers[0] == Peer(0, cfg.scene, V_1, [hello], [], [], [], 0)
      && r.value.table == Equip(R.Table(map[], [], 1), 0, cfg.player.components)
  {
    hide Good, Playable, ConnectFrame, Equip, WithPlayer, Greeted, VisibleFrames;
    PlayableTemplate(cfg, tag, pose, control);
    GroundIsGood(cfg);
    GoodMeans(cfg, Ground());
    var table := Equip(R.Table(map[], [], 1), 0, cfg.player.components);
    EquipCell(R.Table(map[], [], 1), 0, cfg.player.components, TAG, 0);
    assert R.Allocate(Ground().table) == Some((R.Table(map[], [], 1), 0));
    StepGood(cfg, Ground(), Turn(Join(0, NEWCOMER), connected, stamp));
    JoinScene(cfg, Ground(), 0, NEWCOMER, connected, stamp);
    JoinedPeer(cfg, Ground(), 0, NEWCOMER, connected, stamp, R.Table(map[], [], 1), 0);
    GreetedAlone(cfg, table, stamp);
  }

  lemma PlayableTemplate(cfg: Config, tag: text, pose: Pose, control: SpatialComponent)
    requires PlainGame(cfg, tag, pose, control)
    ensures Playable(cfg)
  {
    hide LastOf, PlayerTemplate;
    TemplateCell(tag, pose, control, TAG);
    TemplateCell(tag, pose, control, TRANSFORM_3D);
  }

  /** The player of such a template can be controlled. */
  lemma TemplateMoves(cfg: Config, tag: text, pose: Pose, control: SpatialComponent)
    requires PlainGame(cfg, tag, pose, control)
    ensures Controllable(Equip(R.Table(map[], [], 1), 0, cfg.player.components), 0) == Some((control, pose))
    ensures var t := Equip(R.Table(map[], [], 1), 0, cfg.player.components); t.dead == [] && t.next == 1
  {
    hide LastOf, PlayerTemplate, Equip;
    var base, cs := R.Table(map[], [], 1), cfg.player.components;
    TemplateCell(tag, pose, control, TRANSFORM_3D);
    TemplateCell(tag, pose, control, MOVABLE_3D);
    TemplateCell(tag, pose, control, CONTROL_3D);
    EquipCell(base, 0, cs, TRANSFORM_3D, 0);
    EquipCell(base, 0, cs, MOVABLE_3D, 0);
    EquipCell(base, 0, cs, CONTROL_3D, 0);
  }

  /** The newcomer's record after it joined. */
  lemma JoinedPeer(cfg: Config, w: World<nat>, c: nat, peer: Peer, connected: set<nat>, stamp: u64, base: Scene, e: nat)
    requires c !in w.players
    ensures var w' := WithPlayer(cfg, w, c, peer, connected, stamp, base, e);
      var table := Equip(base, e, cfg.player.components);
      var greeted := Greeted(cfg, peer, e, stamp);
      && c in w'.peers
      && w'.peers[c] == greeted.(queue := greeted.queue + VisibleFrames(table, table.next, e, peer.api, stamp))
  {
    hide Equip, VisibleFrames, Greeted, SpawnFrame, Hears;
  }

  lemma FlushedOne(p: Peer, f: Frame)
    requires p.queue == [f]
    ensures Flushed(p) == p.(queue := [], sent := p.sent + [f], datagrams := p.datagrams + [C.Joined([f])])
  {
    assert NextBatch(p) == [f] && [f][1..] == [];
  }

  /** Two turns after the game began the first player is alone and has been told so. */
  lemma FirstIsAlone(cfg: Config, tag: text, pose: Pose, control: SpatialComponent, connected: set<nat>, stamp: u64)
    requires PlainGame(cfg, tag, pose, control) && 0 in connected
    ensures Good(cfg, Ground()) && Playable(cfg)
    ensures var turns := [Turn(Join(0, NEWCOMER), connected, stamp), Turn(Send, connected, stamp)];
      Run(cfg, Ground(), turns).Some? && Alone(cfg, Run(cfg, Ground(), turns).value, pose, control, stamp)
  {
    hide Good, Playable, PlainGame, Joining, ConnectFrame, Equip, Controllable, Flushed, C.Joined, Run;
    var join, send := Turn(Join(0, NEWCOMER), connected, stamp), Turn(Send, connected, stamp);
    FirstJoins(cfg, tag, pose, control, connected, stamp);
    TemplateMoves(cfg, tag, pose, control);
    PlainMeans(cfg, tag, pose, control);
    GoodMeans(cfg, Ground());
    var w := After(cfg, Ground(), join).value;
    StepGood(cfg, w, send);
    GoodMeans(cfg, w);
    FlushedOne(w.peers[0], ConnectFrame(V_1, 0, cfg.player.name, cfg.scene, stamp));
    RunTwo(cfg, Ground(), join, send);
  }

  lemma PlainMeans(cfg: Config, tag: text, pose: Pose, control: SpatialComponent)
    requires PlainGame(cfg, tag, pose, control)
    ensures IsPose(pose) && control.Control? && cfg.maxPlayers >= 2 && |cfg.player.name| + |cfg.scene| < 0x1000
  {
  }

  lemma RunTwo(cfg: Config, w: World<nat>, a: Turn<nat>, b: Turn<nat>)
    requires Rostered(w) && After(cfg, w, a).Some?
    ensures Run(cfg, w, [a, b]) == After(cfg, After(cfg, w, a).value, b)
  {
    hide After, Rostered;
    assert [a, b][1..] == [b] && [b][1..] == [];
    assert Run(cfg, After(cfg, w, a).value, [b]) == After(cfg, After(cfg, w, a).value, b);
  }

  lemma OneMove(ph: Physics, w: World<nat>, control: SpatialComponent, pose: Pose, e: Event, payload: seq<byte>,
                connected: set<nat>, stamp: u64)
    requires 0 in w.peers && control.Control? && IsPose(pose) && IsMove(e)
    requires Controllable(w.table, w.peers[0].entity) == Some((control, pose)) && Walked(payload) == Some(([e], []))
    ensures HandleEvents(ph, w, 0, payload, connected, stamp)
      == Move(w, 0, V.Moved(ph, control, pose, e), connected, stamp)
  {
    hide Controllable, Walked, Move, MayMove;
    var q := V.Moved(ph, control, pose, e);
    assert [e][1..] == [] && [q][1..] == [];
    assert MovePoses(ph, control, pose, [e]) == [q];
    assert LookPoses(ph, control, q, []) == [];
    assert [q] + [] == [q];
    assert Moves(Move(w, 0, q, connected, stamp), 0, [], connected, stamp) == Move(w, 0, q, connected, stamp);
  }

  /** The player is told of its own move. */
  lemma MoveTold(w: World<nat>, q: Pose, connected: set<nat>, stamp: u64)
    requires w.players == [0] && w.peers.Keys == {0} && 0 in connected && IsPose(q)
    requires w.peers[0].api == V_1 && w.peers[0].queue == []
    ensures var w' := Move(w, 0, q, connected, stamp);
      && w'.peers[0] == w.peers[0].(queue := [MovedFrame(V_1, w.peers[0].entity, q, stamp)])
      && w'.table.dead == w.table.dead && w'.table.next == w.table.next
  {
    hide MovedFrame;
    MovedVersion(w.peers[0].entity, q, stamp);
  }

  lemma MovedVersion(e: nat, q: Pose, stamp: u64)
    requires IsPose(q)
    ensures WithApi(MovedFrame(V_1, e, q, stamp), V_1) == MovedFrame(V_1, e, q, stamp)
    ensures Regular(MovedFrame(V_1, e, q, stamp)) && MovedFrame(V_1, e, q, stamp).header.api == V_1
  {
    hide WriteAll, EncodedAll, Floats;
    MovedNews(V_1, e, q, stamp);
    var (o, r, s) := (q.transform.position, q.transform.rotation, q.transform.scale);
    var (v, a) := (q.movable.velocity, q.movable.acceleration);
    FrameOf(V_1, REQ_ENTITY_MOVED, stamp,
            [IdField(e)] + Floats([o.x, o.y, o.z, r.x, r.y, r.z, r.w, s.x, s.y, s.z, v.x, v.y, v.z, a.x, a.y, a.z]));
  }

  lemma OneConsumed(ph: Physics, w: World<nat>, f: Frame, connected: set<nat>, stamp: u64)
    requires w.players == [0] && w.peers.Keys == {0} && 0 in connected && w.peers[0].inbox == [f]
    requires f.header.command == REQ_USER_UPDATES
    requires var w1 := w.(peers := w.peers[0 := w.peers[0].(inbox := [])]);
      HandleEvents(ph, w1, 0, f.payload, connected, stamp).peers[0].inbox == []
    ensures Incoming(ph, w, [0], connected, stamp)
      == HandleEvents(ph, w.(peers := w.peers[0 := w.peers[0].(inbox := [])]), 0, f.payload, connected, stamp)
  {
    hide HandleEvents;
    assert [f][1..] == [] && [0][1..] == [];
    var w1 := w.(peers := w.peers[0 := w.peers[0].(inbox := [])]);
    var w2 := HandleEvents(ph, w1, 0, f.payload, connected, stamp);
    assert Consume(ph, w, 0, connected, stamp) == w2;
    assert ConsumeUpTo(ph, w2, 0, MAX_MESSAGES - 1, connected, stamp) == w2;
    assert ConsumeUpTo(ph, w, 0, MAX_MESSAGES, connected, stamp) == w2;
    assert Incoming(ph, w2, [], connected, stamp) == w2;
  }

  /** The second player's spawn goes behind what waits for the first. */
  lemma SecondJoins(cfg: Config, w: World<nat>, connected: set<nat>, stamp: u64)
    requires Playable(cfg) && Good(cfg, w) && w.players == [0] && cfg.maxPlayers >= 2 && {0, 1} <= connected
    requires w.peers.Keys == {0} && w.peers[0].scene == cfg.scene && w.peers[0].api == V_1
    requires w.table.dead == [] && w.table.next == 1
    ensures Rostered(w)
    ensures var r := After(cfg, w, Turn(Join(1, NEWCOMER), connected, stamp));
      && r.Some? && Good(cfg, r.value) && r.value.players == [0, 1] && r.value.peers.Keys == {0, 1}
      && r.value.peers[0]
           == w.peers[0].(queue := w.peers[0].queue + [SpawnFrame(V_1, 1, cfg.player.name, map[], stamp)])
      && 1 in VisibleSet(r.value.table)
  {
    hide Good, Playable, WithPlayer, VisibleSet, IsVisible, SpawnFrame, R.Allocate;
    GoodMeans(cfg, w);
    var base := w.table.(next := 2);
    NextId(w.table);
    var turn := Turn(Join(1, NEWCOMER), connected, stamp);
    StepGood(cfg, w, turn);
    JoinScene(cfg, w, 1, NEWCOMER, connected, stamp);
    OtherTold(cfg, w, connected, stamp, base);
    SeatIsVisible(cfg, After(cfg, w, turn).value, 1);
  }

  lemma NextId(t: Scene)
    requires t.dead == [] && t.next == 1
    ensures R.Allocate(t) == Some((t.(next := 2), 1))
  {
  }

  lemma SeatIsVisible(cfg: Config, w: World<nat>, c: nat)
    requires Good(cfg, w) && c in w.peers
    ensures w.peers[c].entity in VisibleSet(w.table)
  {
    hide VisibleSet, IsVisible, Sound, Rostered;
    assert Seated(cfg, w, c);
    InVisible(w.table, w.peers[c].entity);
  }

  lemma OtherTold(cfg: Config, w: World<nat>, connected: set<nat>, stamp: u64, base: Scene)
    requires w.players == [0] && w.peers.Keys == {0} && w.peers[0].scene == cfg.scene && w.peers[0].api == V_1
    requires 0 in connected
    ensures var w' := WithPlayer(cfg, w, 1, NEWCOMER, connected, stamp, base, 1);
      0 in w'.peers && w'.peers[0]
        == w.peers[0].(queue := w.peers[0].queue + [SpawnFrame(V_1, 1, cfg.player.name, map[], stamp)])
  {
    hide Equip, VisibleFrames, Greeted, SpawnFrame;
    SpawnVersion(cfg.player.name, stamp);
  }

  lemma SpawnVersion(name: text, stamp: u64)
    ensures var f := SpawnFrame(V_1, 1, name, map[], stamp);
      && WithApi(f, V_1) == f && Regular(f) && f.header.api == V_1 && |f.payload| == 12 + |name|
  {
    hide WriteAll, EncodedAll, StreamFields;
    SpawnNews(V_1, 1, name, map[], stamp);
    NothingToSay(ORDER);
    Empty([IdField(1), Str(name)]);
    FrameOf(V_1, REQ_ENTITY_SPAWN, stamp, [IdField(1), Str(name)]);
    TwoFields(1, name);
  }

  lemma {:induction false} NothingToSay(order: seq<Kind>)
    ensures StreamFields(order, map[]) == []
    decreases |order|
  {
    if order != [] {
      NothingToSay(order[1..]);
    }
  }

  lemma TwoFields(e: nat, name: text)
    ensures |EncodedAll([IdField(e), Str(name)])| == 12 + |name|
    ensures EncodedAll([]) == []
  {
    assert [IdField(e), Str(name)][1..] == [Str(name)] && [Str(name)][1..] == [];
    assert EncodedAll([Str(name)]) == Encoded(Str(name)) + EncodedAll([]);
  }

  lemma HelloSize(name: text, scene: text, stamp: u64)
    ensures var f := ConnectFrame(V_1, 0, name, scene, stamp);
      Regular(f) && f.header.api == V_1 && |f.payload| == 16 + |name| + |scene|
  {
    hide WriteAll, EncodedAll;
    ConnectNews(V_1, 0, name, scene, stamp);
    FrameOf(V_1, REP_CONNECT, stamp, [IdField(0), Str(name), Str(scene)]);
    ThreeFields(0, name, scene);
  }

  lemma ThreeFields(e: nat, name: text, scene: text)
    ensures |EncodedAll([IdField(e), Str(name), Str(scene)])| == 16 + |name| + |scene|
  {
    hide Encoded;
    var q := [IdField(e), Str(name)];
    assert [IdField(e), Str(name), Str(scene)] == q + [Str(scene)];
    EncodedAppend(q, Str(scene));
    TwoFields(e, name);
    OneField(scene);
  }

  lemma OneField(scene: text)
    ensures |EncodedAll([Str(scene)])| == 4 + |scene|
  {
    assert [Str(scene)][1..] == [];
    assert EncodedAll([Str(scene)]) == Encoded(Str(scene)) + EncodedAll([]);
  }

  lemma {:induction false} RunMore(cfg: Config, w: World<nat>, turns: seq<Turn<nat>>, t: Turn<nat>)
    requires Rostered(w) && Run(cfg, w, turns).Some?
    ensures Run(cfg, w, turns + [t]) == After(cfg, Run(cfg, w, turns).value, t)
    decreases |turns|
  {
    hide After, Rostered;
    if turns == [] {
      assert [] + [t] == [t] && [t][1..] == [];
    } else {
      HeadOfSum(turns, [t]);
      RunMore(cfg, After(cfg, w, turns[0]).value, turns[1..], t);
    }
  }

  /** A request of the first player for one move. */
  function Request(e: Event, stamp: u64): Frame {
    Frame(Header(HIGH, V_1, REQ_USER_UPDATES, |UpdatePayload([e], [])| % 0x1_0000, stamp), UpdatePayload([e], []))
  }

  lemma Arriving(cfg: Config, w: World<nat>, f: Frame, connected: set<nat>, stamp: u64)
    requires Good(cfg, w) && w.peers.Keys == {0} && w.peers[0].inbox == [] && w.peers[0].api == V_1
    requires f.header.api == V_1
    ensures Rostered(w)
    ensures var r := After(cfg, w, Turn(Arrive(0, f), connected, stamp));
      r == Some(w.(peers := w.peers[0 := w.peers[0].(inbox := [f])])) && Good(cfg, r.value)
  {
    hide Good;
    GoodMeans(cfg, w);
    QuietStep(cfg, w, Turn(Arrive(0, f), connected, stamp));
    assert [] + [f] == [f];
  }

  /** The move is consumed and told to its player. */
  lemma Consuming(cfg: Config, ph: Physics, w: World<nat>, control: SpatialComponent, pose: Pose, e: Event,
                  connected: set<nat>, stamp: u64)
    requires Good(cfg, w) && w.players == [0] && w.peers.Keys == {0} && 0 in connected
    requires w.peers[0].inbox == [Request(e, stamp)] && w.peers[0].queue == [] && w.peers[0].api == V_1
    requires control.Control? && IsPose(pose) && IsMove(e)
    requires Controllable(w.table, w.peers[0].entity) == Some((control, pose))
    ensures Rostered(w)
    ensures var r := After(cfg, w, Turn(Receive(ph), connected, stamp));
      && r.Some? && Good(cfg, r.value) && r.value.players == [0] && r.value.peers.Keys == {0}
      && r.value.table.dead == w.table.dead && r.value.table.next == w.table.next
      && r.value.peers[0] == w.peers[0].(inbox := [],
           queue := [MovedFrame(V_1, w.peers[0].entity, V.Moved(ph, control, pose, e), stamp)])
  {
    hide Good, Controllable, Walked, UpdatePayload, HandleEvents, Move, MovedFrame, V.Moved, Incoming, Quiet, SameShape;
    GoodMeans(cfg, w);
    WalkReadsBack([e], []);
    var w1 := w.(peers := w.peers[0 := w.peers[0].(inbox := [])]);
    var q := V.Moved(ph, control, pose, e);
    OneMove(ph, w1, control, pose, e, UpdatePayload([e], []), connected, stamp);
    MoveTold(w1, q, connected, stamp);
    OneConsumed(ph, w, Request(e, stamp), connected, stamp);
    QuietStep(cfg, w, Turn(Receive(ph), connected, stamp));
  }

  lemma FlushedTwo(p: Peer, f: Frame, g: Frame)
    requires p.queue == [f, g]
    ensures Flushed(p) == p.(queue := [], sent := p.sent + [f, g], datagrams := p.datagrams + [C.Joined([f, g])])
  {
    assert NextBatch(p) == [f, g] && [f, g][2..] == [];
  }

  lemma Sending(cfg: Config, w: World<nat>, f: Frame, g: Frame, connected: set<nat>, stamp: u64)
    requires Rostered(w) && w.players == [0, 1] && w.peers.Keys == {0, 1} && {0, 1} <= connected
    requires w.peers[0].queue == [f, g]
    ensures var r := After(cfg, w, Turn(Send, connected, stamp));
      && r.Some? && r.value.table == w.table && 0 in r.value.peers
      && r.value.peers[0] == w.peers[0].(queue := [], sent := w.peers[0].sent + [f, g],
           datagrams := w.peers[0].datagrams + [C.Joined([f, g])])
  {
    hide Rostered, C.Joined, Flushed;
    FlushedTwo(w.peers[0], f, g);
  }

  lemma CutOne(known: set<nat>, f: Frame, k: set<nat>)
    requires Apply(known, f) == Some(k)
    ensures Cut(known, [f]) == k
  {
    hide Apply;
    assert [f][1..] == [];
  }

  lemma CutThrown(known: set<nat>, f: Frame, rest: seq<Frame>)
    requires Apply(known, f) == None
    ensures Cut(known, [f] + rest) == known
  {
    hide Apply;
  }

  /** The client gets its CONNECT, and then a move with a spawn behind it. */
  lemma ClientMisses(name: text, scene: text, q: Pose, stamp: u64)
    requires IsPose(q) && |name| + |scene| < 0x1000
    ensures var hello, moved := ConnectFrame(V_1, 0, name, scene, stamp), MovedFrame(V_1, 0, q, stamp);
      var spawn := SpawnFrame(V_1, 1, name, map[], stamp);
      && OnReceiveAll({}, [C.Joined([hello]), C.Joined([moved, spawn])]) == {0}
      && forall f :: f in [hello] + [moved, spawn] ==> |f.payload| < 0x1_0000
  {
    hide ConnectFrame, MovedFrame, SpawnFrame, C.Joined, C.Split, C.Readable, Apply, Regular, Cut, Follows;
    var hello, moved := ConnectFrame(V_1, 0, name, scene, stamp), MovedFrame(V_1, 0, q, stamp);
    var spawn := SpawnFrame(V_1, 1, name, map[], stamp);
    HelloSize(name, scene, stamp);
    SpawnVersion(name, stamp);
    MovedVersion(0, q, stamp);
    MovedIsTooShort(V_1, 0, q, stamp);
    RegularIsReadable(hello);
    RegularIsReadable(moved);
    RegularIsReadable(spawn);
    C.SplitOfJoined([hello]);
    C.SplitOfJoined([moved, spawn]);
    ConnectAdds({}, V_1, 0, name, scene, stamp);
    MovedThrows({0}, V_1, 0, q, stamp);
    assert {} + {0} == {0} && [hello][1..] == [];
    CutOne({}, hello, {0});
    CutThrown({0}, moved, [spawn]);
    assert [moved, spawn] == [moved] + [spawn];
    var late := [C.Joined([moved, spawn])];
    assert [C.Joined([hello]), C.Joined([moved, spawn])][1..] == late && late[1..] == [];
    assert OnReceiveAll({0}, late) == {0};
  }

  /** One player joins, is told, and asks for a move, which is served in the frame in which a second player joins. */
  function BusyFrame(ph: Physics, e: Event, connected: set<nat>, stamp: u64): seq<Turn<nat>> {
    [Turn(Join(0, NEWCOMER), connected, stamp), Turn(Send, connected, stamp)]
    + [Turn(Arrive(0, Request(e, stamp)), connected, stamp)] + [Turn(Receive(ph), connected, stamp)]
    + [Turn(Join(1, NEWCOMER), connected, stamp)] + [Turn(Send, connected, stamp)]
  }

  lemma MeetsMove(cfg: Config, ph: Physics, w: World<nat>, pose: Pose, control: SpatialComponent, e: Event,
                  connected: set<nat>, stamp: u64) returns (w': World<nat>, q: Pose)
    requires Playable(cfg) && Alone(cfg, w, pose, control, stamp) && cfg.maxPlayers >= 2 && IsMove(e)
    requires {0, 1} <= connected
    ensures Rostered(w) && IsPose(q)
    ensures var arrived := After(cfg, w, Turn(Arrive(0, Request(e, stamp)), connected, stamp));
      && arrived.Some?
      && After(cfg, arrived.value, Turn(Receive(ph), connected, stamp)) == Some(w')
    ensures Good(cfg, w') && w'.players == [0] && w'.peers.Keys == {0}
    ensures w'.table.dead == [] && w'.table.next == 1
    ensures w'.peers[0] == w.peers[0].(queue := [MovedFrame(V_1, 0, q, stamp)])
  {
    hide Good, Playable, Controllable, After, V.Moved, MovedFrame, ConnectFrame, C.Joined, Request;
    RequestVersion(e, stamp);
    Arriving(cfg, w, Request(e, stamp), connected, stamp);
    var arrived := After(cfg, w, Turn(Arrive(0, Request(e, stamp)), connected, stamp)).value;
    Consuming(cfg, ph, arrived, control, pose, e, connected, stamp);
    w', q := After(cfg, arrived, Turn(Receive(ph), connected, stamp)).value, V.Moved(ph, control, pose, e);
  }

  lemma RequestVersion(e: Event, stamp: u64)
    ensures Request(e, stamp).header.api == V_1
  {
  }

  /** In that run the example client loses the second player: the scene has it and the client has not. */
  lemma SpawnIsLost(cfg: Config, ph: Physics, tag: text, pose: Pose, control: SpatialComponent, e: Event,
                    connected: set<nat>, stamp: u64)
    requires PlainGame(cfg, tag, pose, control) && IsMove(e) && {0, 1} <= connected
    ensures Good(cfg, Ground())
    ensures var r := Run(cfg, Ground(), BusyFrame(ph, e, connected, stamp));
      && r.Some? && 0 in r.value.peers && AllSent(r.value.peers[0])
      && 1 in VisibleSet(r.value.table) && OnReceiveAll({}, r.value.peers[0].datagrams) == {0}
  {
    hide Good, Playable, PlainGame, After, Run, Alone, VisibleSet, OnReceiveAll, C.Joined, ConnectFrame, MovedFrame,
         SpawnFrame, Request;
    PlainMeans(cfg, tag, pose, control);
    FirstIsAlone(cfg, tag, pose, control, connected, stamp);
    GoodMeans(cfg, Ground());
    var two := [Turn(Join(0, NEWCOMER), connected, stamp), Turn(Send, connected, stamp)];
    var arrive, receive := Turn(Arrive(0, Request(e, stamp)), connected, stamp), Turn(Receive(ph), connected, stamp);
    var join, send := Turn(Join(1, NEWCOMER), connected, stamp), Turn(Send, connected, stamp);
    var w := Run(cfg, Ground(), two).value;
    var moved, q := MeetsMove(cfg, ph, w, pose, control, e, connected, stamp);
    RunMore(cfg, Ground(), two, arrive);
    RunMore(cfg, Ground(), two + [arrive], receive);
    AloneMeans(cfg, w, pose, control, stamp);
    SecondJoins(cfg, moved, connected, stamp);
    RunMore(cfg, Ground(), two + [arrive] + [receive], join);
    var joined := After(cfg, moved, join).value;
    var spawn := SpawnFrame(V_1, 1, cfg.player.name, map[], stamp);
    assert [MovedFrame(V_1, 0, q, stamp)] + [spawn] == [MovedFrame(V_1, 0, q, stamp), spawn];
    GoodMeans(cfg, joined);
    Sending(cfg, joined, MovedFrame(V_1, 0, q, stamp), spawn, connected, stamp);
    RunMore(cfg, Ground(), two + [arrive] + [receive] + [join], send);
    ClientMisses(cfg.player.name, cfg.scene, q, stamp);
    var hello := ConnectFrame(V_1, 0, cfg.player.name, cfg.scene, stamp);
    assert [C.Joined([hello])] + [C.Joined([MovedFrame(V_1, 0, q, stamp), spawn])]
      == [C.Joined([hello]), C.Joined([MovedFrame(V_1, 0, q, stamp), spawn])];
  }

  lemma AloneMeans(cfg: Config, w: World<nat>, pose: Pose, control: SpatialComponent, stamp: u64)
    requires Alone(cfg, w, pose, control, stamp)
    ensures var hello := ConnectFrame(V_1, 0, cfg.player.name, cfg.scene, stamp);
      0 in w.peers && w.peers[0] == Peer(0, cfg.scene, V_1, [], [], [hello], [C.Joined([hello])], 0)
  {
  }
}
