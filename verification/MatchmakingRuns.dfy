/** Matchmaking over whole runs of requests. */
module MatchmakingRuns {
  import opened Bytes
  import opened Sequences
  import opened Matchmaking

  /** A request to the manager, or what the thread of instance i does when it finds that a player is lost. */
  datatype Request<C> =
    | Load(g: text)
    | Unload(g: text)
    | EnterGame(g: text, c: C)
    | ExitGame(g: text, c: C)
    | Lose(g: text, i: nat, c: C)

  /** One request, with the clients connected while it is served. */
  datatype Turn<C(==)> = Turn(request: Request<C>, connected: set<C>)

  function Step<C(==)>(cat: Catalogue, m: Manager<C>, turn: Turn<C>): Manager<C> {
    match turn.request
    case Load(g) => AddGame(cat, m, g).0
    case Unload(g) => RemoveGame(m, g).0
    case EnterGame(g, c) => AddClient(cat, m, g, c, turn.connected).0
    case ExitGame(g, c) => RemoveClient(cat, m, g, c, turn.connected).0
    case Lose(g, i, c) => WithRoom(m, g, Dropped(RoomOf(m, g), i, c, turn.connected))
  }

  function Run<C(==)>(cat: Catalogue, m: Manager<C>, turns: seq<Turn<C>>): Manager<C>
    decreases |turns|
  {
    if turns == [] then m else Run(cat, Step(cat, m, turns[0]), turns[1..])
  }

  // ---------------------------------------------------------------- one room at a time

  /** The request reaches the game: it is in the store, and online if somebody enters. */
  predicate Reaches<C(==)>(cat: Catalogue, m: Manager<C>, turn: Turn<C>, g: text) {
    match turn.request
    case EnterGame(h, _) => h == g && g in m.loaded && g in cat && cat[g].online
    case ExitGame(h, _) => h == g && g in m.loaded && g in cat
    case _ => false
  }

  function RoomAfter<C(==)>(cat: Catalogue, m: Manager<C>, turn: Turn<C>, g: text): Room<C> {
    if turn.request.Lose? && turn.request.g == g
    then Dropped(RoomOf(m, g), turn.request.i, turn.request.c, turn.connected)
    else if !Reaches(cat, m, turn, g) then RoomOf(m, g) else
    match turn.request
    case EnterGame(_, c) => Enter(cat[g], RoomOf(m, g), c, turn.connected).0
    case ExitGame(_, c) => Exit(cat[g], RoomOf(m, g), c, turn.connected)
    case _ => RoomOf(m, g)
  }

  lemma StepRoom<C>(cat: Catalogue, m: Manager<C>, turn: Turn<C>, g: text)
    ensures RoomOf(Step(cat, m, turn), g) == RoomAfter(cat, m, turn, g)
  {
    hide Enter, Exit, Closes, Dropped;
  }

  // ---------------------------------------------------------------- capacity

  ghost predicate AllWithinLimits<C>(cat: Catalogue, m: Manager<C>) {
    forall g :: g in cat ==> WithinLimits(cat[g], RoomOf(m, g))
  }

  lemma StepWithinLimits<C>(cat: Catalogue, m: Manager<C>, turn: Turn<C>)
    requires AllWithinLimits(cat, m)
    ensures AllWithinLimits(cat, Step(cat, m, turn))
  {
    hide Step, Enter, Exit, Dropped, WithinLimits, RoomOf;
    forall g | g in cat
      ensures WithinLimits(cat[g], RoomOf(Step(cat, m, turn), g))
    {
      StepRoom(cat, m, turn, g);
      match turn.request
      case EnterGame(_, c) => EnterWithin(cat[g], RoomOf(m, g), c, turn.connected);
      case ExitGame(_, c) => ExitWithin(cat[g], RoomOf(m, g), c, turn.connected);
      case Lose(_, i, c) => DroppedWithin(cat[g], RoomOf(m, g), i, c, turn.connected);
      case _ =>
    }
  }

  /** Matchmaking safety: in every reachable state each game has at most maxInstances instances, each with at most
      maxPlayers distinct players. */
  lemma {:induction false} RunWithinLimits<C>(cat: Catalogue, m: Manager<C>, turns: seq<Turn<C>>)
    requires AllWithinLimits(cat, m)
    ensures AllWithinLimits(cat, Run(cat, m, turns))
    decreases |turns|
  {
    hide Step, AllWithinLimits;
    if turns != [] {
      StepWithinLimits(cat, m, turns[0]);
      RunWithinLimits(cat, Step(cat, m, turns[0]), turns[1..]);
    }
  }

  // ---------------------------------------------------------------- every client in one place

  /** A slot of an instance, or of a waiting queue. */
  datatype Place = Seat(g: text, instance: nat, slot: nat) | Waiting(g: text, slot: nat)

  predicate At<C(==)>(m: Manager<C>, c: C, p: Place) {
    var r := RoomOf(m, p.g);
    match p
    case Seat(_, i, k) => i < |r.instances| && k < |r.instances[i].players| && r.instances[i].players[k] == c
    case Waiting(_, k) => k < |r.queue| && r.queue[k] == c
  }

  /** Every room has each client once, no two games have the same client, and all were offered. */
  ghost predicate Settled<C>(cat: Catalogue, m: Manager<C>, offered: set<C>) {
    && AllWithinLimits(cat, m)
    && (forall g :: Once(RoomOf(m, g)))
    && (forall g :: From(RoomOf(m, g), offered))
    && (forall g, c :: c in offered && InRoom(RoomOf(m, g), c) ==> g in cat)
    && forall g, h, c :: c in offered && InRoom(RoomOf(m, g), c) && InRoom(RoomOf(m, h), c) ==> g == h
  }

  /** All who play or wait in the room are among these. */
  ghost predicate From<C>(r: Room<C>, these: set<C>) {
    && (forall c :: c in r.queue ==> c in these)
    && forall i :: 0 <= i < |r.instances| ==> forall c :: c in r.instances[i].players ==> c in these
  }

  lemma FromMeans<C>(r: Room<C>, these: set<C>, c: C)
    requires From(r, these) && InRoom(r, c)
    ensures c in these
  {
  }

  function OfferedBy<C(==)>(turn: Turn<C>): set<C> {
    if turn.request.EnterGame? then {turn.request.c} else {}
  }

  /** Nobody is offered who was offered before. */
  predicate Newcomer<C(==)>(turn: Turn<C>, offered: set<C>) {
    turn.request.EnterGame? ==> turn.request.c !in offered
  }

  lemma StepOnce<C>(cat: Catalogue, m: Manager<C>, turn: Turn<C>, offered: set<C>, g: text)
    requires Settled(cat, m, offered) && Newcomer(turn, offered)
    ensures Once(RoomOf(Step(cat, m, turn), g))
  {
    hide Step, Enter, Exit, Dropped, WithinLimits, RoomOf, Once, InRoom;
    StepRoom(cat, m, turn, g);
    match turn.request
    case EnterGame(_, c) =>
      if InRoom(RoomOf(m, g), c) {
        FromMeans(RoomOf(m, g), offered, c);
      }
      if g in cat { EnterOnce(cat[g], RoomOf(m, g), c, turn.connected); }
    case ExitGame(_, c) => if g in cat { ExitOnce(cat[g], RoomOf(m, g), c, turn.connected); }
    case Lose(_, i, c) => DroppedOnce(RoomOf(m, g), i, c, turn.connected);
    case _ =>
  }

  lemma StepMembers<C>(cat: Catalogue, m: Manager<C>, turn: Turn<C>, offered: set<C>, g: text, d: C)
    requires Settled(cat, m, offered) && InRoom(RoomOf(Step(cat, m, turn), g), d)
    ensures InRoom(RoomOf(m, g), d) || (g in cat && turn.request == EnterGame(g, d))
  {
    hide Step, Enter, Exit, Dropped, WithinLimits, RoomOf, Once, InRoom;
    StepRoom(cat, m, turn, g);
    if turn.request.Lose? && turn.request.g == g {
      DroppedMembers(RoomOf(m, g), turn.request.i, turn.request.c, turn.connected, d);
    } else if Reaches(cat, m, turn, g) {
      match turn.request
      case EnterGame(_, c) => EnterMembers(cat[g], RoomOf(m, g), c, turn.connected, d);
      case ExitGame(_, c) => ExitMembers(cat[g], RoomOf(m, g), c, turn.connected, d);
      case _ =>
    }
  }

  lemma StepFrom<C>(cat: Catalogue, m: Manager<C>, turn: Turn<C>, offered: set<C>, g: text)
    requires Settled(cat, m, offered)
    ensures From(RoomOf(Step(cat, m, turn), g), offered + OfferedBy(turn))
  {
    hide Step, RoomOf, Once, AllWithinLimits;
    var r' := RoomOf(Step(cat, m, turn), g);
    forall c | c in r'.queue
      ensures c in offered + OfferedBy(turn)
    {
      MemberWasOffered(cat, m, turn, offered, g, c);
    }
    forall i, c | 0 <= i < |r'.instances| && c in r'.instances[i].players
      ensures c in offered + OfferedBy(turn)
    {
      PlaysAt(r', i, c);
      MemberWasOffered(cat, m, turn, offered, g, c);
    }
  }

  lemma MemberWasOffered<C>(cat: Catalogue, m: Manager<C>, turn: Turn<C>, offered: set<C>, g: text, c: C)
    requires Settled(cat, m, offered) && InRoom(RoomOf(Step(cat, m, turn), g), c)
    ensures c in offered + OfferedBy(turn) && g in cat
    ensures InRoom(RoomOf(m, g), c) || turn.request == EnterGame(g, c)
    ensures InRoom(RoomOf(m, g), c) ==> c in offered
  {
    hide Step, RoomOf, Once, InRoom, AllWithinLimits;
    StepMembers(cat, m, turn, offered, g, c);
    if InRoom(RoomOf(m, g), c) {
      FromMeans(RoomOf(m, g), offered, c);
    }
  }

  lemma StepSettled<C>(cat: Catalogue, m: Manager<C>, turn: Turn<C>, offered: set<C>)
    requires Settled(cat, m, offered) && Newcomer(turn, offered)
    ensures Settled(cat, Step(cat, m, turn), offered + OfferedBy(turn))
  {
    hide Step, RoomOf, Once, InRoom, AllWithinLimits, From;
    var m' := Step(cat, m, turn);
    StepWithinLimits(cat, m, turn);
    forall g
      ensures Once(RoomOf(m', g)) && From(RoomOf(m', g), offered + OfferedBy(turn))
    {
      StepOnce(cat, m, turn, offered, g);
      StepFrom(cat, m, turn, offered, g);
    }
    forall g, c | c in offered + OfferedBy(turn) && InRoom(RoomOf(m', g), c)
      ensures g in cat && (InRoom(RoomOf(m, g), c) || turn.request == EnterGame(g, c))
      ensures InRoom(RoomOf(m, g), c) ==> c in offered
    {
      MemberWasOffered(cat, m, turn, offered, g, c);
    }
  }

  predicate NewcomersOnly<C(==)>(turns: seq<Turn<C>>, offered: set<C>)
    decreases |turns|
  {
    turns == [] || (Newcomer(turns[0], offered) && NewcomersOnly(turns[1..], offered + OfferedBy(turns[0])))
  }

  function AllOffered<C(==)>(turns: seq<Turn<C>>, offered: set<C>): set<C>
    decreases |turns|
  {
    if turns == [] then offered else AllOffered(turns[1..], offered + OfferedBy(turns[0]))
  }

  lemma {:induction false} RunSettled<C>(cat: Catalogue, m: Manager<C>, turns: seq<Turn<C>>, offered: set<C>)
    requires Settled(cat, m, offered) && NewcomersOnly(turns, offered)
    ensures Settled(cat, Run(cat, m, turns), AllOffered(turns, offered))
    decreases |turns|
  {
    hide Step, Settled, Newcomer;
    if turns != [] {
      StepSettled(cat, m, turns[0], offered);
      RunSettled(cat, Step(cat, m, turns[0]), turns[1..], offered + OfferedBy(turns[0]));
    }
  }

  lemma SameInstance<C>(r: Room<C>, i: nat, j: nat, c: C)
    requires Once(r) && i < |r.instances| && j < |r.instances| && c in r.instances[i].players
      && c in r.instances[j].players
    ensures i == j
  {
    assert i < j ==> Apart(r.instances[i].players, r.instances[j].players);
    assert j < i ==> Apart(r.instances[j].players, r.instances[i].players);
  }

  /** At most one place, as long as no client is offered twice. */
  lemma PlaceIsUnique<C>(cat: Catalogue, m: Manager<C>, offered: set<C>, c: C, p: Place, q: Place)
    requires Settled(cat, m, offered) && At(m, c, p) && At(m, c, q)
    ensures p == q && c in offered
  {
    hide RoomOf, WithinLimits, Once;
    AtMeansIn(m, c, p);
    AtMeansIn(m, c, q);
    FromMeans(RoomOf(m, p.g), offered, c);
    assert p.g == q.g && p.g in cat;
    SamePlace(cat[p.g], RoomOf(m, p.g), c, p, q, m);
  }

  lemma AtMeansIn<C>(m: Manager<C>, c: C, p: Place)
    requires At(m, c, p)
    ensures InRoom(RoomOf(m, p.g), c)
  {
    if p.Seat? {
      PlaysAt(RoomOf(m, p.g), p.instance, c);
    }
  }

  lemma SamePlace<C>(cfg: GameConfig, r: Room<C>, c: C, p: Place, q: Place, m: Manager<C>)
    requires r == RoomOf(m, p.g) && p.g == q.g && Once(r) && WithinLimits(cfg, r) && At(m, c, p) && At(m, c, q)
    ensures p == q
  {
    hide RoomOf;
    assert p.Seat? ==> c in r.instances[p.instance].players && Apart(r.instances[p.instance].players, r.queue);
    assert q.Seat? ==> c in r.instances[q.instance].players && Apart(r.instances[q.instance].players, r.queue);
    assert p.Waiting? ==> c in r.queue;
    assert q.Waiting? ==> c in r.queue;
    if p.Seat? && q.Seat? {
      SameInstance(r, p.instance, q.instance, c);
      assert Roomy(cfg, r.instances[p.instance]);
    }
  }

  /** Nothing loaded, nobody anywhere. */
  function Fresh<C>(): Manager<C> {
    Manager({}, map[], {})
  }

  lemma FreshIsSettled<C>(cat: Catalogue)
    ensures Settled(cat, Fresh<C>(), {})
  {
  }

  /** In every run from the start in which each client is offered once, a client is in at most one place: one slot of
      one instance, or one waiting slot. */
  lemma EveryClientInOnePlace<C>(cat: Catalogue, turns: seq<Turn<C>>, c: C, p: Place, q: Place)
    requires NewcomersOnly(turns, {})
    requires At(Run(cat, Fresh(), turns), c, p) && At(Run(cat, Fresh(), turns), c, q)
    ensures p == q && c in AllOffered(turns, {})
  {
    hide At, Settled, Run;
    FreshIsSettled<C>(cat);
    RunSettled(cat, Fresh<C>(), turns, {});
    PlaceIsUnique(cat, Run(cat, Fresh(), turns), AllOffered(turns, {}), c, p, q);
  }

  // ---------------------------------------------------------------- the waiting queue

  /** Who joins the game's queue in this step. */
  function Queued<C(==)>(cat: Catalogue, m: Manager<C>, turn: Turn<C>, g: text): seq<C> {
    if Reaches(cat, m, turn, g) && turn.request.EnterGame? && Full(cat[g], RoomOf(m, g)) then [turn.request.c] else []
  }

  /** Who is admitted from it. */
  function Promoted<C(==)>(cat: Catalogue, m: Manager<C>, turn: Turn<C>, g: text): seq<C> {
    if Reaches(cat, m, turn, g) && turn.request.ExitGame?
    then SeatedFromQueue(cat[g], RoomOf(m, g), turn.request.c, turn.connected) else []
  }

  function AllQueued<C(==)>(cat: Catalogue, m: Manager<C>, turns: seq<Turn<C>>, g: text): seq<C>
    decreases |turns|
  {
    if turns == [] then [] else Queued(cat, m, turns[0], g) + AllQueued(cat, Step(cat, m, turns[0]), turns[1..], g)
  }

  function AllPromoted<C(==)>(cat: Catalogue, m: Manager<C>, turns: seq<Turn<C>>, g: text): seq<C>
    decreases |turns|
  {
    if turns == [] then [] else Promoted(cat, m, turns[0], g) + AllPromoted(cat, Step(cat, m, turns[0]), turns[1..], g)
  }

  lemma StepQueue<C>(cat: Catalogue, m: Manager<C>, turn: Turn<C>, offered: set<C>, g: text)
    requires Settled(cat, m, offered)
    ensures RoomOf(m, g).queue + Queued(cat, m, turn, g) == Promoted(cat, m, turn, g)
      + RoomOf(Step(cat, m, turn), g).queue
  {
    hide Step, Exit, WithinLimits, RoomOf, Once, InRoom, SeatedFromQueue;
    StepRoom(cat, m, turn, g);
    var r := RoomOf(m, g);
    Empty(r.queue);
    Empty(RoomOf(Step(cat, m, turn), g).queue);
    if Reaches(cat, m, turn, g) && turn.request.ExitGame? {
      QueueNeverDrops(cat[g], r, turn.request.c, turn.connected);
    }
  }

  /** The waiting queue never drops a client: over any run those who were waiting, followed by those who joined the
      queue, are those who were admitted, followed by those still waiting. */
  lemma {:induction false} QueueIsFifo<C>(cat: Catalogue, m: Manager<C>, turns: seq<Turn<C>>, offered: set<C>, g: text)
    requires Settled(cat, m, offered) && NewcomersOnly(turns, offered)
    ensures RoomOf(m, g).queue + AllQueued(cat, m, turns, g)
      == AllPromoted(cat, m, turns, g) + RoomOf(Run(cat, m, turns), g).queue
    decreases |turns|
  {
    hide Step, Settled, Newcomer, RoomOf, Queued, Promoted;
    if turns == [] {
      Empty(RoomOf(m, g).queue);
    } else {
      var m1 := Step(cat, m, turns[0]);
      StepSettled(cat, m, turns[0], offered);
      StepQueue(cat, m, turns[0], offered, g);
      QueueIsFifo(cat, m1, turns[1..], offered + OfferedBy(turns[0]), g);
      Reassociate(RoomOf(m, g).queue, Queued(cat, m, turns[0], g), AllQueued(cat, m1, turns[1..], g),
                  Promoted(cat, m, turns[0], g), RoomOf(m1, g).queue, AllPromoted(cat, m1, turns[1..], g),
                  RoomOf(Run(cat, m1, turns[1..]), g).queue);
    }
  }

  /** The client at the front is connected in none of these turns. */
  predicate NeverBack<C(==)>(turns: seq<Turn<C>>, c: C) {
    forall i :: 0 <= i < |turns| ==> c !in turns[i].connected
  }

  lemma StepStuck<C>(cat: Catalogue, m: Manager<C>, turn: Turn<C>, g: text)
    requires RoomOf(m, g).queue != [] && RoomOf(m, g).queue[0] !in turn.connected
    ensures Promoted(cat, m, turn, g) == [] && RoomOf(m, g).queue <= RoomOf(Step(cat, m, turn), g).queue
  {
    hide Step, RoomOf, Plays, Left;
    StepRoom(cat, m, turn, g);
  }

  /** A front that lost its connection blocks the queue: as long as it stays away nobody is admitted. */
  lemma {:induction false} LostFrontBlocks<C>(cat: Catalogue, m: Manager<C>, turns: seq<Turn<C>>, g: text)
    requires RoomOf(m, g).queue != [] && NeverBack(turns, RoomOf(m, g).queue[0])
    ensures AllPromoted(cat, m, turns, g) == [] && RoomOf(m, g).queue <= RoomOf(Run(cat, m, turns), g).queue
    decreases |turns|
  {
    hide Step, RoomOf, Promoted;
    if turns != [] {
      StepStuck(cat, m, turns[0], g);
      LostFrontBlocks(cat, Step(cat, m, turns[0]), turns[1..], g);
    }
  }
}
