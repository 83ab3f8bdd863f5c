/** Flakkari/Server/Game/GameManager as a state and its transitions: instances and waiting queues. */
module Matchmaking {
  import opened Bytes
  import opened Sequences
  import opened GameModel

  datatype Lobby = MATCHMAKING | OPEN_WORLD | OTHER

  datatype GameConfig = GameConfig(online: bool, minPlayers: nat, maxPlayers: nat, maxInstances: nat, lobby: Lobby)

  /** An instance is given by its players; C is the identity of a client object. */
  datatype Instance<C> = Instance(players: seq<C>, running: bool)

  /** What the manager keeps for one game: its instances and its waiting queue. */
  datatype Room<C> = Room(instances: seq<Instance<C>>, queue: seq<C>)

  // ---------------------------------------------------------------- addClientToGame

  /** The last instance is missing or full. */
  predicate NeedsInstance<C>(cfg: GameConfig, instances: seq<Instance<C>>) {
    instances == [] || |instances[|instances| - 1].players| >= cfg.maxPlayers
  }

  function Opened<C>(cfg: GameConfig, instances: seq<Instance<C>>): (open: seq<Instance<C>>)
    ensures open != []
  {
    if NeedsInstance(cfg, instances) then instances + [Instance([], false)] else instances
  }

  function Last<T>(s: seq<T>): T
    requires s != []
  {
    s[|s| - 1]
  }

  function Started<C>(cfg: GameConfig, i: Instance<C>): Instance<C> {
    if (cfg.lobby == MATCHMAKING && |i.players| >= cfg.minPlayers) || cfg.lobby == OPEN_WORLD
    then i.(running := true) else i
  }

  /** addPlayer on the last instance, and start if the lobby says so. */
  function JoinLast<C(==)>(cfg: GameConfig, instances: seq<Instance<C>>, c: C): seq<Instance<C>>
    requires instances != []
  {
    instances[|instances| - 1 := Started(cfg, Last(instances).(players := Last(instances).players + [c]))]
  }

  predicate Full<C>(cfg: GameConfig, r: Room<C>) {
    NeedsInstance(cfg, r.instances) && |r.instances| >= cfg.maxInstances
  }

  /** addClientToGame for an online game in the store, and what it returns. */
  function Enter<C(==)>(cfg: GameConfig, r: Room<C>, c: C, connected: set<C>): (Room<C>, bool) {
    if Full(cfg, r) then (r.(queue := r.queue + [c]), true) else
    var open := Opened(cfg, r.instances);
    if MayJoin(Last(open).players, cfg.maxPlayers, connected, c) then (r.(instances := JoinLast(cfg, open, c)), true)
    else (r.(instances := open), false)
  }

  // ---------------------------------------------------------------- removeClientFromGame

  /** The first instance the client plays in; the number of instances if there is none. */
  function Home<C(==)>(instances: seq<Instance<C>>, c: C): (i: nat)
    ensures i <= |instances|
    ensures i < |instances| ==> c in instances[i].players
    ensures forall j :: 0 <= j < i ==> c !in instances[j].players
  {
    if instances == [] then 0 else if c in instances[0].players then 0 else 1 + Home(instances[1..], c)
  }

  predicate Plays<C(==)>(r: Room<C>, c: C) {
    Home(r.instances, c) < |r.instances|
  }

  /** The players left in the instance. */
  function Left<C(==)>(r: Room<C>, c: C): seq<C>
    requires Plays(r, c)
  {
    Without(r.instances[Home(r.instances, c)].players, c)
  }

  function WithPlayers<C>(r: Room<C>, i: nat, players: seq<C>): Room<C>
    requires i < |r.instances|
  {
    r.(instances := r.instances[i := r.instances[i].(players := players)])
  }

  /** The free seat is offered to the front of the queue, who is popped unless it could not be added because it is not
      connected. */
  function OfferSeat<C(==)>(cfg: GameConfig, r: Room<C>, i: nat, connected: set<C>): Room<C>
    requires i < |r.instances| && r.queue != []
  {
    if MayJoin(r.instances[i].players, cfg.maxPlayers, connected, r.queue[0])
    then WithPlayers(r, i, r.instances[i].players + [r.queue[0]]).(queue := r.queue[1..])
    else if r.queue[0] in connected then r.(queue := r.queue[1..])
    else r
  }

  /** removeClientFromGame. An emptied instance takes the last one off the list, whichever that is. */
  function Exit<C(==)>(cfg: GameConfig, r: Room<C>, c: C, connected: set<C>): Room<C> {
    if !Plays(r, c) then r else
    var i := Home(r.instances, c);
    var vacated := WithPlayers(r, i, Left(r, c));
    if Left(r, c) == [] then vacated.(instances := vacated.instances[..|vacated.instances| - 1])
    else if |Left(r, c)| <= cfg.minPlayers || r.queue == [] then vacated
    else OfferSeat(cfg, vacated, i, connected)
  }

  /** The last player leaves an instance and the instance taken off the list never ran: its destructor joins a thread
      that was never started, which ends the process. */
  predicate EndsProcess<C(==)>(r: Room<C>, c: C) {
    Plays(r, c) && Left(r, c) == [] && !Last(r.instances).running
  }

  /** A seat came free above the minimum and nobody waits: then a game with a remove request leaves the store. */
  predicate Closes<C(==)>(cfg: GameConfig, r: Room<C>, c: C) {
    Plays(r, c) && Left(r, c) != [] && |Left(r, c)| > cfg.minPlayers && r.queue == []
  }

  // ---------------------------------------------------------------- checkDisconnect

  /** The thread of a running instance drops a player that lost its connection: off the list, and no seat is offered. */
  function Dropped<C(==)>(r: Room<C>, i: nat, c: C, connected: set<C>): Room<C> {
    if i < |r.instances| && r.instances[i].running && c in r.instances[i].players && c !in connected
    then WithPlayers(r, i, Without(r.instances[i].players, c)) else r
  }

  // ---------------------------------------------------------------- the manager

  /** `loaded` are the games in the store, `removing` those with a remove request. */
  datatype Manager<C> = Manager(loaded: set<text>, rooms: map<text, Room<C>>, removing: set<text>)

  type Catalogue = map<text, GameConfig>

  /** operator[] of the maps: a missing entry is empty. */
  function RoomOf<C>(m: Manager<C>, g: text): Room<C> {
    if g in m.rooms then m.rooms[g] else Room([], [])
  }

  function WithRoom<C>(m: Manager<C>, g: text, r: Room<C>): Manager<C> {
    m.(rooms := m.rooms[g := r])
  }

  function AddClient<C(==)>(cat: Catalogue, m: Manager<C>, g: text, c: C, connected: set<C>): (Manager<C>, bool) {
    if g !in m.loaded || g !in cat || !cat[g].online then (m, false) else
    var (r, ok) := Enter(cat[g], RoomOf(m, g), c, connected);
    (WithRoom(m, g, r), ok)
  }

  /** It returns false only if the game left the store. */
  function RemoveClient<C(==)>(cat: Catalogue, m: Manager<C>, g: text, c: C, connected: set<C>): (Manager<C>, bool) {
    if g !in m.loaded || g !in cat then (m, true) else
    var m1 := WithRoom(m, g, Exit(cat[g], RoomOf(m, g), c, connected));
    if Closes(cat[g], RoomOf(m, g), c) && g in m.removing
    then (m1.(loaded := m.loaded - {g}, removing := m.removing - {g}), false)
    else (m1, true)
  }

  /** removeClientFromGame does not return. */
  predicate Fatal<C(==)>(cat: Catalogue, m: Manager<C>, g: text, c: C) {
    g in m.loaded && g in cat && EndsProcess(RoomOf(m, g), c)
  }

  /** addGame: 1 already loaded, 3 no configuration file, 0 success. */
  function AddGame<C>(cat: Catalogue, m: Manager<C>, g: text): (Manager<C>, nat) {
    if g in m.loaded then (m, 1) else if g !in cat then (m, 3) else (m.(loaded := m.loaded + {g}), 0)
  }

  /** removeGame only notes the request. */
  function RemoveGame<C>(m: Manager<C>, g: text): (Manager<C>, nat) {
    if g !in m.loaded then (m, 1) else (m.(removing := m.removing + {g}), 0)
  }

  // ---------------------------------------------------------------- capacity

  predicate Roomy<C(==)>(cfg: GameConfig, i: Instance<C>) {
    |i.players| <= cfg.maxPlayers && Distinct(i.players)
  }

  /** At most maxInstances instances, each of at most maxPlayers distinct players. */
  ghost predicate WithinLimits<C>(cfg: GameConfig, r: Room<C>) {
    |r.instances| <= cfg.maxInstances && forall i :: 0 <= i < |r.instances| ==> Roomy(cfg, r.instances[i])
  }

  lemma EnterWithin<C>(cfg: GameConfig, r: Room<C>, c: C, connected: set<C>)
    requires WithinLimits(cfg, r)
    ensures WithinLimits(cfg, Enter(cfg, r, c, connected).0)
  {
    if !Full(cfg, r) {
      var open := Opened(cfg, r.instances);
      assert Roomy(cfg, Last(open));
    }
  }

  lemma {:induction false} WithoutLength<C>(players: seq<C>, c: C)
    requires c in players
    ensures |Without(players, c)| == |players| - 1
    decreases |players|
  {
    if players[0] != c {
      WithoutLength(players[1..], c);
    }
  }

  /** The instance left behind: one player fewer, the others in place, so there is a free seat. */
  lemma LeftRoomy<C>(cfg: GameConfig, r: Room<C>, c: C)
    requires WithinLimits(cfg, r) && Plays(r, c)
    ensures var i := Home(r.instances, c);
      && LeavesOthers(r.instances[i].players, c, Left(r, c)) && |Left(r, c)| < cfg.maxPlayers
      && WithinLimits(cfg, WithPlayers(r, i, Left(r, c)))
  {
    hide Without;
    var i := Home(r.instances, c);
    assert Roomy(cfg, r.instances[i]);
    WithoutOne(r.instances[i].players, c);
    WithoutLength(r.instances[i].players, c);
  }

  lemma OfferWithin<C>(cfg: GameConfig, r: Room<C>, i: nat, connected: set<C>)
    requires i < |r.instances| && r.queue != [] && WithinLimits(cfg, r)
    ensures WithinLimits(cfg, OfferSeat(cfg, r, i, connected))
  {
    assert Roomy(cfg, r.instances[i]);
  }

  lemma ExitWithin<C>(cfg: GameConfig, r: Room<C>, c: C, connected: set<C>)
    requires WithinLimits(cfg, r)
    ensures WithinLimits(cfg, Exit(cfg, r, c, connected))
  {
    hide Roomy, Without, OfferSeat;
    if Plays(r, c) {
      var i := Home(r.instances, c);
      LeftRoomy(cfg, r, c);
      if r.queue != [] {
        OfferWithin(cfg, WithPlayers(r, i, Left(r, c)), i, connected);
      }
    }
  }

  lemma DroppedWithin<C>(cfg: GameConfig, r: Room<C>, i: nat, c: C, connected: set<C>)
    requires WithinLimits(cfg, r)
    ensures WithinLimits(cfg, Dropped(r, i, c, connected))
  {
    hide Without;
    if Dropped(r, i, c, connected) != r {
      assert Roomy(cfg, r.instances[i]);
      WithoutOne(r.instances[i].players, c);
      WithoutLength(r.instances[i].players, c);
    }
  }

  // ---------------------------------------------------------------- one place for each client

  /** Nobody plays in two instances, plays and waits, or waits twice. */
  ghost predicate Once<C>(r: Room<C>) {
    && (forall i, j :: 0 <= i < j < |r.instances| ==> Apart(r.instances[i].players, r.instances[j].players))
    && (forall i :: 0 <= i < |r.instances| ==> Apart(r.instances[i].players, r.queue))
    && Distinct(r.queue)
  }

  ghost predicate Apart<C>(a: seq<C>, b: seq<C>) {
    forall c :: c in a ==> c !in b
  }

  predicate InRoom<C(==)>(r: Room<C>, c: C) {
    c in r.queue || Plays(r, c)
  }

  lemma PlaysAt<C>(r: Room<C>, i: nat, c: C)
    requires i < |r.instances| && c in r.instances[i].players
    ensures Plays(r, c) && Home(r.instances, c) <= i
  {
  }

  function PlayersAt<C>(r: Room<C>, i: nat): seq<C> {
    if i < |r.instances| then r.instances[i].players else []
  }

  predicate KeptOrJoined<C(==)>(r: Room<C>, r': Room<C>, i: nat, c: C) {
    PlayersAt(r', i) == PlayersAt(r, i) || (i == |r'.instances| - 1 && PlayersAt(r', i) == PlayersAt(r, i) + [c])
  }

  /** Entering adds the client to the queue or to the last instance, or nowhere. */
  lemma EnterShape<C>(cfg: GameConfig, r: Room<C>, c: C, connected: set<C>)
    ensures var r' := Enter(cfg, r, c, connected).0;
      && (r' == r.(queue := r.queue + [c]) || r'.queue == r.queue) && |r.instances| <= |r'.instances|
      && (r'.queue == r.queue ==> r'.instances != [])
      && (r'.queue == r.queue ==> forall i :: 0 <= i < |r'.instances| ==> KeptOrJoined(r, r', i, c))
  {
  }

  /** A client who is not in the room yet gets one place, or none. */
  lemma EnterOnce<C>(cfg: GameConfig, r: Room<C>, c: C, connected: set<C>)
    requires Once(r) && !InRoom(r, c)
    ensures Once(Enter(cfg, r, c, connected).0)
  {
    hide Enter;
    EnterShape(cfg, r, c, connected);
    var r' := Enter(cfg, r, c, connected).0;
    if r'.queue == r.queue {
      forall i, j | 0 <= i < j < |r'.instances|
        ensures Apart(r'.instances[i].players, r'.instances[j].players)
      {
        assert KeptOrJoined(r, r', i, c) && KeptOrJoined(r, r', j, c);
      }
      forall i | 0 <= i < |r'.instances|
        ensures Apart(r'.instances[i].players, r'.queue)
      {
        assert KeptOrJoined(r, r', i, c);
      }
    }
  }

  lemma EnterMembers<C>(cfg: GameConfig, r: Room<C>, c: C, connected: set<C>, d: C)
    requires InRoom(Enter(cfg, r, c, connected).0, d)
    ensures d == c || InRoom(r, d)
  {
    var r' := Enter(cfg, r, c, connected).0;
    if d != c && d !in r.queue {
      var i := Home(r'.instances, d);
      assert i < |r.instances| && d in r.instances[i].players;
      PlaysAt(r, i, d);
    }
  }

  lemma VacatedOnce<C>(r: Room<C>, i: nat, left: seq<C>)
    requires Once(r) && i < |r.instances| && forall d :: d in left ==> d in r.instances[i].players
    ensures Once(WithPlayers(r, i, left))
  {
    var r' := WithPlayers(r, i, left);
    forall j | 0 <= j < |r'.instances|
      ensures forall d :: d in r'.instances[j].players ==> d in r.instances[j].players
    {
    }
  }

  lemma OfferOnce<C>(cfg: GameConfig, r: Room<C>, i: nat, connected: set<C>)
    requires i < |r.instances| && r.queue != [] && Once(r)
    ensures Once(OfferSeat(cfg, r, i, connected))
  {
    var r' := OfferSeat(cfg, r, i, connected);
    var front := r.queue[0];
    DistinctTail(r.queue);
    forall j | 0 <= j < |r'.instances|
      ensures forall d :: d in r'.instances[j].players ==> d in r.instances[j].players || (j == i && d == front)
    {
    }
  }

  lemma FewerOnce<C>(r: Room<C>)
    requires Once(r) && r.instances != []
    ensures Once(r.(instances := r.instances[..|r.instances| - 1]))
  {
  }

  lemma ExitOnce<C>(cfg: GameConfig, r: Room<C>, c: C, connected: set<C>)
    requires Once(r) && WithinLimits(cfg, r)
    ensures Once(Exit(cfg, r, c, connected))
  {
    hide Once, Without, OfferSeat, WithinLimits;
    if Plays(r, c) {
      var i := Home(r.instances, c);
      LeftRoomy(cfg, r, c);
      VacatedOnce(r, i, Left(r, c));
      var vacated := WithPlayers(r, i, Left(r, c));
      FewerOnce(vacated);
      if r.queue != [] {
        OfferOnce(cfg, vacated, i, connected);
      }
    }
  }

  lemma {:induction false} WithoutFewer<C>(players: seq<C>, c: C)
    ensures forall d :: d in Without(players, c) ==> d in players
    decreases |players|
  {
    if players != [] {
      WithoutFewer(players[1..], c);
    }
  }

  /** Dropping a player gives nobody a second place and brings nobody in. */
  lemma DroppedOnce<C>(r: Room<C>, i: nat, c: C, connected: set<C>)
    requires Once(r)
    ensures Once(Dropped(r, i, c, connected))
  {
    hide Once, Without;
    if Dropped(r, i, c, connected) != r {
      WithoutFewer(r.instances[i].players, c);
      VacatedOnce(r, i, Without(r.instances[i].players, c));
    }
  }

  lemma DroppedMembers<C>(r: Room<C>, i: nat, c: C, connected: set<C>, d: C)
    requires InRoom(Dropped(r, i, c, connected), d)
    ensures InRoom(r, d)
  {
    hide Without;
    var r' := Dropped(r, i, c, connected);
    if r' != r && d !in r.queue {
      WithoutFewer(r.instances[i].players, c);
      var j := Home(r'.instances, d);
      assert d in r'.instances[j].players;
      PlaysAt(r, j, d);
    }
  }

  /** Nobody comes in by somebody's leaving. */
  lemma ExitMembers<C>(cfg: GameConfig, r: Room<C>, c: C, connected: set<C>, d: C)
    requires WithinLimits(cfg, r) && InRoom(Exit(cfg, r, c, connected), d)
    ensures InRoom(r, d)
  {
    hide WithinLimits, Without;
    if Plays(r, c) && d !in r.queue {
      LeftRoomy(cfg, r, c);
      var r' := Exit(cfg, r, c, connected);
      assert d !in r'.queue;
      var i := Home(r'.instances, d);
      assert d in r'.instances[i].players;
      PlaysAt(r, i, d);
    }
  }

  // ---------------------------------------------------------------- the waiting queue

  /** A free seat goes to the front of the queue. */
  predicate Offers<C(==)>(cfg: GameConfig, r: Room<C>, c: C) {
    Plays(r, c) && Left(r, c) != [] && |Left(r, c)| > cfg.minPlayers && r.queue != []
  }

  /** Who is admitted from the queue when c leaves. */
  function SeatedFromQueue<C(==)>(cfg: GameConfig, r: Room<C>, c: C, connected: set<C>): seq<C> {
    if Offers(cfg, r, c) && MayJoin(Left(r, c), cfg.maxPlayers, connected, r.queue[0]) then [r.queue[0]] else []
  }

  /** The queue loses its front without an admission exactly if that client is connected and plays in the very instance
      with the free seat. */
  lemma DropsOnlyDuplicates<C>(cfg: GameConfig, r: Room<C>, c: C, connected: set<C>)
    requires WithinLimits(cfg, r)
    ensures r.queue == SeatedFromQueue(cfg, r, c, connected) + Exit(cfg, r, c, connected).queue
      <==> !(Offers(cfg, r, c) && r.queue[0] in connected && r.queue[0] in Left(r, c))
  {
    hide WithinLimits, Without;
    Empty(r.queue);
    if Offers(cfg, r, c) {
      LeftRoomy(cfg, r, c);
      HeadAndTail(r.queue);
      Empty(r.queue[1..]);
    }
  }

  /** With one place for each client the queue never drops anyone: it loses exactly the client it admits. */
  lemma QueueNeverDrops<C>(cfg: GameConfig, r: Room<C>, c: C, connected: set<C>)
    requires WithinLimits(cfg, r) && Once(r)
    ensures r.queue == SeatedFromQueue(cfg, r, c, connected) + Exit(cfg, r, c, connected).queue
    ensures forall d :: d in SeatedFromQueue(cfg, r, c, connected) ==> Plays(Exit(cfg, r, c, connected), d)
  {
    hide WithinLimits, Without;
    DropsOnlyDuplicates(cfg, r, c, connected);
    if Offers(cfg, r, c) {
      var i := Home(r.instances, c);
      LeftRoomy(cfg, r, c);
      assert Apart(r.instances[i].players, r.queue);
      assert r.queue[0] in r.queue;
      var r' := Exit(cfg, r, c, connected);
      if SeatedFromQueue(cfg, r, c, connected) != [] {
        assert r.queue[0] in r'.instances[i].players;
        PlaysAt(r', i, r.queue[0]);
      }
    }
  }

  // ---------------------------------------------------------------- who is lost

  /** When a client leaves, everyone else keeps a place exactly if an emptied instance was the last one, or the last one
      had nobody in it: the list is shortened at its end. */
  lemma LeavingLosesNobodyElse<C>(cfg: GameConfig, r: Room<C>, c: C, connected: set<C>)
    requires WithinLimits(cfg, r) && Once(r) && Plays(r, c)
    ensures (forall d :: InRoom(r, d) && d != c ==> InRoom(Exit(cfg, r, c, connected), d)) <==>
      Left(r, c) != [] || Home(r.instances, c) == |r.instances| - 1 || Last(r.instances).players == []
  {
    hide WithinLimits, Without;
    var i := Home(r.instances, c);
    var r' := Exit(cfg, r, c, connected);
    LeftRoomy(cfg, r, c);
    if Left(r, c) == [] && i != |r.instances| - 1 && Last(r.instances).players != [] {
      var d := Last(r.instances).players[0];
      LastPlayerIsLost(cfg, r, c, connected, d);
    } else {
      forall d | InRoom(r, d) && d != c
        ensures InRoom(r', d)
      {
        OthersStay(cfg, r, c, connected, d);
      }
    }
  }

  lemma LastPlayerIsLost<C>(cfg: GameConfig, r: Room<C>, c: C, connected: set<C>, d: C)
    requires WithinLimits(cfg, r) && Once(r) && Plays(r, c)
    requires Left(r, c) == [] && Home(r.instances, c) != |r.instances| - 1 && d in Last(r.instances).players
    ensures InRoom(r, d) && d != c && !InRoom(Exit(cfg, r, c, connected), d)
  {
    hide WithinLimits, Without;
    var n, i := |r.instances| - 1, Home(r.instances, c);
    PlaysAt(r, n, d);
    assert Apart(r.instances[i].players, r.instances[n].players);
    var r' := Exit(cfg, r, c, connected);
    assert Apart(r.instances[n].players, r.queue);
    forall j | 0 <= j < n
      ensures d !in r'.instances[j].players
    {
      assert Apart(r.instances[j].players, r.instances[n].players);
    }
  }

  lemma OthersStay<C>(cfg: GameConfig, r: Room<C>, c: C, connected: set<C>, d: C)
    requires WithinLimits(cfg, r) && Once(r) && Plays(r, c) && InRoom(r, d) && d != c
    requires Left(r, c) != [] || Home(r.instances, c) == |r.instances| - 1 || Last(r.instances).players == []
    ensures InRoom(Exit(cfg, r, c, connected), d)
  {
    hide WithinLimits, Without;
    var i := Home(r.instances, c);
    var r' := Exit(cfg, r, c, connected);
    LeftRoomy(cfg, r, c);
    QueueNeverDrops(cfg, r, c, connected);
    if d in r.queue {
      if d !in r'.queue {
        assert d in SeatedFromQueue(cfg, r, c, connected);
      }
    } else {
      var j := Home(r.instances, d);
      assert j < |r'.instances| && d in r'.instances[j].players;
      PlaysAt(r', j, d);
    }
  }

  /** Leaving ends play, but a client that only waits cannot leave the queue. */
  lemma WaitingCannotLeave<C>(cfg: GameConfig, r: Room<C>, c: C, connected: set<C>)
    requires WithinLimits(cfg, r) && Once(r)
    ensures !Plays(Exit(cfg, r, c, connected), c)
    ensures c in r.queue ==> Exit(cfg, r, c, connected) == r
  {
    hide WithinLimits, Without;
    var i := Home(r.instances, c);
    var r' := Exit(cfg, r, c, connected);
    if Plays(r, c) {
      LeftRoomy(cfg, r, c);
      assert Apart(r.instances[i].players, r.queue);
      forall j | 0 <= j < |r'.instances|
        ensures c !in r'.instances[j].players
      {
        assert i < j ==> Apart(r.instances[i].players, r.instances[j].players);
      }
    }
  }

  // ---------------------------------------------------------------- who plays runs

  /** An instance that is not running is empty, or waits for its minimum in a matchmaking lobby; other lobbies never
      start. */
  ghost predicate StartsInTime<C>(cfg: GameConfig, r: Room<C>) {
    forall i :: 0 <= i < |r.instances| && !r.instances[i].running ==> MayIdle(cfg, r.instances[i].players)
  }

  predicate MayIdle<C>(cfg: GameConfig, players: seq<C>) {
    players == [] || cfg.lobby == OTHER || (cfg.lobby == MATCHMAKING && |players| < cfg.minPlayers)
  }

  predicate MustRun<C>(cfg: GameConfig, players: seq<C>) {
    cfg.lobby == OPEN_WORLD || (cfg.lobby == MATCHMAKING && |players| >= cfg.minPlayers)
  }

  /** Entering starts an instance in time, and none before its time. */
  lemma EnterStarts<C>(cfg: GameConfig, r: Room<C>, c: C, connected: set<C>)
    requires StartsInTime(cfg, r)
    ensures var r' := Enter(cfg, r, c, connected).0;
      && StartsInTime(cfg, r')
      && forall i :: 0 <= i < |r'.instances| && r'.instances[i].running ==>
           (i < |r.instances| && r.instances[i].running) || MustRun(cfg, r'.instances[i].players)
  {
  }

  lemma ExitStarts<C>(cfg: GameConfig, r: Room<C>, c: C, connected: set<C>)
    requires StartsInTime(cfg, r)
    ensures StartsInTime(cfg, Exit(cfg, r, c, connected))
  {
    hide Without;
    if Plays(r, c) {
      var i := Home(r.instances, c);
      WithoutLength(r.instances[i].players, c);
      assert r.instances[i].running || MayIdle(cfg, r.instances[i].players);
    }
  }
}
