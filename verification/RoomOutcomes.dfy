/** What entering and leaving a game do to its instances and its waiting queue, case by case, in terms of the players
    they hold. */
module RoomOutcomes {
  import opened Bytes
  import opened GameModel
  import opened Matchmaking

  // ---------------------------------------------------------------- entering

  /** The last instance has a free seat. */
  predicate HasSeat<C>(cfg: GameConfig, r: Room<C>) {
    r.instances != [] && |r.instances[|r.instances| - 1].players| < cfg.maxPlayers
  }

  /** The instances are the same but for the i-th. */
  predicate OnlyInstance<C(==)>(r: Room<C>, r': Room<C>, i: nat) {
    && |r'.instances| == |r.instances|
    && forall j :: 0 <= j < |r.instances| && j != i ==> r'.instances[j] == r.instances[j]
  }

  /** An instance runs if it ran before, in an open world, or in a matchmaking lobby with the minimum of players. */
  predicate RunsNow<C>(cfg: GameConfig, ran: bool, i: Instance<C>) {
    i.running <==> ran || cfg.lobby == OPEN_WORLD || (cfg.lobby == MATCHMAKING && |i.players| >= cfg.minPlayers)
  }

  /** A client waits exactly if no seat is free and no instance may be added; it plays in the last instance exactly if
      there is a free seat and in a new one exactly if there is none but one may be added, unless it is not connected,
      plays there already, or no seat exists at all: then it is turned away, and only the new instance, if any, stays.
    */
  lemma EntryGoes<C>(cfg: GameConfig, r: Room<C>, c: C, connected: set<C>)
    ensures var (r', ok) := Enter(cfg, r, c, connected);
      var n := |r.instances|;
      if HasSeat(cfg, r) then
        && r'.queue == r.queue && OnlyInstance(r, r', n - 1)
        && var last, last' := r.instances[n - 1], r'.instances[n - 1];
           ok == (c in connected && c !in last.players)
           && (if ok then last'.players == last.players + [c] && RunsNow(cfg, last.running, last') else last' == last)
      else if n >= cfg.maxInstances then ok && r' == Room(r.instances, r.queue + [c])
      else
        && r'.queue == r.queue && |r'.instances| == n + 1 && r'.instances[..n] == r.instances
        && ok == (c in connected && cfg.maxPlayers > 0)
        && (if ok then r'.instances[n].players == [c] && RunsNow(cfg, false, r'.instances[n])
            else r'.instances[n] == Instance([], false))
  {
  }

  // ---------------------------------------------------------------- leaving

  /** The client plays in the i-th instance, the first with it, behind and before these players. */
  predicate IsHome<C(==)>(r: Room<C>, c: C, i: nat, before: seq<C>, behind: seq<C>) {
    && i < |r.instances| && r.instances[i].players == before + [c] + behind && c !in before
    && forall j :: 0 <= j < i ==> c !in r.instances[j].players
  }

  lemma {:induction false} HomeIsThere<C>(r: Room<C>, c: C, i: nat, before: seq<C>, behind: seq<C>)
    requires IsHome(r, c, i, before, behind)
    ensures Plays(r, c) && Home(r.instances, c) == i && Left(r, c) == before + behind
  {
    hide Without;
    assert (before + [c] + behind)[|before|] == c;
    PlaysAt(r, i, c);
    WithoutMiddle(before, c, behind);
  }

  /** Leaving an instance keeps the order of the others. If nobody is left the last instance goes. With more players
      left than the minimum the front of the queue is seated exactly if it is connected, not seated there and there is
      room; it is off the queue exactly if it is connected. In every other case nobody comes in. */
  lemma ExitGoes<C>(cfg: GameConfig, r: Room<C>, c: C, connected: set<C>, i: nat, before: seq<C>, behind: seq<C>)
    requires IsHome(r, c, i, before, behind)
    ensures var r', n, left := Exit(cfg, r, c, connected), |r.instances|, before + behind;
      var vacated := r.instances[i := Instance(left, r.instances[i].running)];
      if left == [] then r' == Room(vacated[..n - 1], r.queue)
      else if |left| <= cfg.minPlayers || r.queue == [] then r' == Room(vacated, r.queue)
      else
        var front, queue := r.queue[0], if r.queue[0] in connected then r.queue[1..] else r.queue;
        if front in connected && front !in left && |left| < cfg.maxPlayers
        then r' == Room(r.instances[i := Instance(left + [front], r.instances[i].running)], queue)
        else r' == Room(vacated, queue)
  {
    hide Without, Home;
    HomeIsThere(r, c, i, before, behind);
  }

  /** A client that plays nowhere changes nothing by leaving. */
  lemma StrangerLeaves<C>(cfg: GameConfig, r: Room<C>, c: C, connected: set<C>)
    requires forall i :: 0 <= i < |r.instances| ==> c !in r.instances[i].players
    ensures Exit(cfg, r, c, connected) == r
  {
  }

  // ---------------------------------------------------------------- the store

  /** A game leaves the store exactly if a player leaves it, more players than the minimum stay in that instance, nobody
      waits, and its removal was asked for: the answer is then false, and otherwise true. */
  lemma StoreShrinks<C>(cat: Catalogue, m: Manager<C>, g: text, c: C, connected: set<C>, i: nat, before: seq<C>,
                        behind: seq<C>)
    requires IsHome(RoomOf(m, g), c, i, before, behind)
    ensures var (m', ok) := RemoveClient(cat, m, g, c, connected);
      var left := before + behind;
      var closes := g in m.loaded && g in cat && left != [] && |left| > cat[g].minPlayers && RoomOf(m, g).queue == []
        && g in m.removing;
      && ok == !closes
      && m'.loaded == (if closes then m.loaded - {g} else m.loaded)
      && m'.removing == (if closes then m.removing - {g} else m.removing)
      && (forall h: text :: h != g ==> RoomOf(m', h) == RoomOf(m, h))
      && (g in m.loaded && g in cat ==> RoomOf(m', g) == Exit(cat[g], RoomOf(m, g), c, connected))
  {
    hide Exit, Home, Without;
    HomeIsThere(RoomOf(m, g), c, i, before, behind);
  }

  /** addGame answers 1 for a game in the store, 3 without a configuration, and else 0 with the game in the store;
      removeGame answers 1 for a game that is not there, and else 0 with the request noted. */
  lemma StoreGrows<C>(cat: Catalogue, m: Manager<C>, g: text)
    ensures var (m', code) := AddGame(cat, m, g);
      && code == (if g in m.loaded then 1 else if g !in cat then 3 else 0)
      && m' == (if code == 0 then m.(loaded := m.loaded + {g}) else m)
    ensures var (m', code) := RemoveGame(m, g);
      && code == (if g !in m.loaded then 1 else 0)
      && m' == (if code == 0 then m.(removing := m.removing + {g}) else m)
  {
  }
}
