/** Flakkari/Server/Game/GameManager as the object it is: maps of configurations, instances, queues and requests. Each
    method is proved to make the transition Matchmaking gives. */
module GameManagers {
  import opened Bytes
  import opened GameModel
  import opened Matchmaking

  /** The same games with the same rooms; a missing map entry is an empty one. */
  ghost predicate Same<C>(m: Manager<C>, n: Manager<C>) {
    m.loaded == n.loaded && m.removing == n.removing && forall g :: RoomOf(m, g) == RoomOf(n, g)
  }

  lemma SameSelf<C>(m: Manager<C>)
    ensures Same(m, m)
  {
  }

  lemma SameTwice<C>(m: Manager<C>, a: Manager<C>, b: Manager<C>, g: text, r: Room<C>, s: Room<C>)
    requires Same(a, WithRoom(m, g, r)) && Same(b, WithRoom(a, g, s))
    ensures Same(b, WithRoom(m, g, s))
  {
    forall h
      ensures RoomOf(b, h) == RoomOf(WithRoom(m, g, s), h)
    {
      assert RoomOf(a, h) == RoomOf(WithRoom(m, g, r), h) && RoomOf(b, h) == RoomOf(WithRoom(a, g, s), h);
    }
  }

  /** Replacing a room leaves the store alone, and changing the store leaves the rooms alone. */
  lemma SameStore<C>(a: Manager<C>, m: Manager<C>, g: text, r: Room<C>)
    requires Same(a, WithRoom(m, g, r))
    ensures a.loaded == m.loaded && a.removing == m.removing
    ensures Same(a.(loaded := m.loaded - {g}, removing := m.removing - {g}),
                 WithRoom(m, g, r).(loaded := m.loaded - {g}, removing := m.removing - {g}))
  {
    var L, M := m.loaded - {g}, m.removing - {g};
    forall h
      ensures RoomOf(a.(loaded := L, removing := M), h) == RoomOf(WithRoom(m, g, r).(loaded := L, removing := M), h)
    {
      assert RoomOf(a, h) == RoomOf(WithRoom(m, g, r), h);
    }
  }

  /** Putting back the room that is there changes nothing. */
  lemma NobodyHome<C>(m: Manager<C>, g: text)
    ensures Same(m, WithRoom(m, g, RoomOf(m, g)))
  {
  }

  class GameManager<C(==)> {
    /** The configuration files, which do not change. */
    const files: Catalogue
    var gamesStore: map<text, GameConfig>
    var gamesInstances: map<text, seq<Instance<C>>>
    var waitingClients: map<text, seq<C>>
    var gamesRemoveRequest: map<text, bool>

    ghost predicate Valid()
      reads this
    {
      forall g :: g in gamesStore ==> g in files && gamesStore[g] == files[g]
    }

    ghost function Model(): Manager<C>
      reads this
    {
      Manager(gamesStore.Keys,
              map g | g in gamesInstances.Keys + waitingClients.Keys :: Room(Instances(g), Queue(g)),
              set g | g in gamesRemoveRequest && gamesRemoveRequest[g])
    }

    function Instances(g: text): seq<Instance<C>>
      reads this
    {
      if g in gamesInstances then gamesInstances[g] else []
    }

    function Queue(g: text): seq<C>
      reads this
    {
      if g in waitingClients then waitingClients[g] else []
    }

    lemma Rooms(g: text)
      ensures RoomOf(Model(), g) == Room(Instances(g), Queue(g))
      ensures g in Model().loaded <==> g in gamesStore
      ensures g in Model().removing <==> g in gamesRemoveRequest && gamesRemoveRequest[g]
    {
    }

    constructor (files: Catalogue)
      ensures Valid() && Model() == Manager({}, map[], {}) && this.files == files
    {
      this.files := files;
      gamesStore, gamesInstances, waitingClients, gamesRemoveRequest := map[], map[], map[], map[];
    }

    method AddGame(g: text) returns (code: nat)
      requires Valid()
      modifies this
      ensures Valid() && (Model(), code) == Matchmaking.AddGame(files, old(Model()), g)
    {
      if g in gamesStore {
        return 1;
      }
      if g !in files {
        return 3;
      }
      ghost var rooms := Model().rooms;
      ghost var loaded := Model().loaded;
      gamesStore := gamesStore[g := files[g]];
      assert Model().rooms == rooms && Model().loaded == loaded + {g};
      return 0;
    }

    method RemoveGame(g: text) returns (code: nat)
      requires Valid()
      modifies this
      ensures Valid() && (Model(), code) == Matchmaking.RemoveGame(old(Model()), g)
    {
      if g !in gamesStore {
        return 1;
      }
      ghost var rooms := Model().rooms;
      ghost var removing := Model().removing;
      gamesRemoveRequest := gamesRemoveRequest[g := true];
      assert Model().rooms == rooms && Model().removing == removing + {g};
      return 0;
    }

    method AddClientToGame(g: text, client: C, connected: set<C>) returns (ok: bool)
      requires Valid()
      modifies this
      ensures Valid() && ok == AddClient(files, old(Model()), g, client, connected).1
      ensures Same(Model(), AddClient(files, old(Model()), g, client, connected).0)
    {
      hide Model, RoomOf, WithRoom, Same;
      Rooms(g);
      SameSelf(Model());
      if g !in gamesStore {
        return false;
      }
      var config := gamesStore[g];
      var instances := Instances(g);
      if !config.online {
        return false;
      }
      if instances == [] || |instances[|instances| - 1].players| >= config.maxPlayers {
        if |instances| >= config.maxInstances {
          PutQueue(g, Queue(g) + [client]);
          return true;
        }
        instances := instances + [Instance([], false)];
      }
      var last := instances[|instances| - 1];
      if client !in last.players && |last.players| < config.maxPlayers && client in connected {
        last := last.(players := last.players + [client]);
        if config.lobby == MATCHMAKING && |last.players| >= config.minPlayers && !last.running {
          last := last.(running := true);
        }
        if config.lobby == OPEN_WORLD && !last.running {
          last := last.(running := true);
        }
        PutInstances(g, instances[|instances| - 1 := last]);
        return true;
      }
      PutInstances(g, instances);
      return false;
    }

    method PutInstances(g: text, instances: seq<Instance<C>>)
      modifies this`gamesInstances
      ensures Same(Model(), WithRoom(old(Model()), g, Room(instances, Queue(g))))
      ensures Instances(g) == instances && Queue(g) == old(Queue(g))
    {
      ghost var m := Model();
      gamesInstances := gamesInstances[g := instances];
      forall h
        ensures RoomOf(Model(), h) == RoomOf(WithRoom(m, g, Room(instances, Queue(g))), h)
      {
        Rooms(h);
      }
    }

    method PutQueue(g: text, queue: seq<C>)
      modifies this`waitingClients
      ensures Same(Model(), WithRoom(old(Model()), g, Room(Instances(g), queue)))
      ensures Queue(g) == queue && Instances(g) == old(Instances(g))
    {
      ghost var m := Model();
      waitingClients := waitingClients[g := queue];
      forall h
        ensures RoomOf(Model(), h) == RoomOf(WithRoom(m, g, Room(Instances(g), queue)), h)
      {
        Rooms(h);
      }
    }

    /** The loop looks for the first instance that removes the player. */
    method FindHome(g: text, client: C) returns (i: nat)
      ensures i == Home(Instances(g), client)
    {
      var instances := Instances(g);
      i := 0;
      while i < |instances| && client !in instances[i].players
        invariant i <= |instances| && Home(instances, client) == i + Home(instances[i..], client)
      {
        assert instances[i..][1..] == instances[i + 1..];
        i := i + 1;
      }
    }

    /** `alive`: the instance taken off the list, if any, could be destroyed. */
    method RemoveClientFromGame(g: text, client: C, connected: set<C>) returns (ok: bool, alive: bool)
      requires Valid()
      modifies this
      ensures alive <==> !Fatal(files, old(Model()), g, client)
      ensures Valid() && ok == RemoveClient(files, old(Model()), g, client, connected).1
      ensures Same(Model(), RemoveClient(files, old(Model()), g, client, connected).0)
    {
      hide Without, Model, RoomOf, WithRoom, Same, OfferSeat, Home;
      SameSelf(Model());
      if g !in gamesStore {
        Rooms(g);
        return true, true;
      }
      Rooms(g);
      NobodyHome(Model(), g);
      var config := gamesStore[g];
      var i := FindHome(g, client);
      var instances := Instances(g);
      if i >= |instances| {
        return true, true;
      }
      alive := true;
      var left := Without(instances[i].players, client);
      instances := instances[i := instances[i].(players := left)];
      if left == [] {
        alive := instances[|instances| - 1].running;
        PutInstances(g, instances[..|instances| - 1]);
      } else if |left| <= config.minPlayers {
        PutInstances(g, instances);
      } else if Queue(g) != [] {
        Offer(g, instances, i, connected);
      } else {
        ok := PutAndClose(g, instances);
        return;
      }
      ok := true;
    }

    /** The seat is free and nobody waits: now a remove request is honoured. */
    method PutAndClose(g: text, instances: seq<Instance<C>>) returns (ok: bool)
      requires Valid()
      modifies this
      ensures Valid() && ok == (g !in old(Model()).removing)
      ensures var m := WithRoom(old(Model()), g, Room(instances, old(Queue(g))));
        Same(Model(), if ok then m else m.(loaded := old(Model()).loaded - {g},
                                           removing := old(Model()).removing - {g}))
    {
      hide Model, RoomOf, WithRoom, Same;
      ghost var m := Model();
      Rooms(g);
      PutInstances(g, instances);
      SameStore(Model(), m, g, Room(instances, Queue(g)));
      ok := Close(g);
    }

    method Close(g: text) returns (ok: bool)
      requires Valid()
      modifies this`gamesStore, this`gamesRemoveRequest
      ensures Valid() && ok == (g !in old(Model()).removing)
      ensures Model() == if ok then old(Model()) else
        old(Model()).(loaded := old(Model()).loaded - {g}, removing := old(Model()).removing - {g})
    {
      ghost var m := Model();
      ok := !(g in gamesRemoveRequest && gamesRemoveRequest[g]);
      if !ok {
        gamesStore := gamesStore - {g};
        gamesRemoveRequest := gamesRemoveRequest - {g};
        assert Model().loaded == m.loaded - {g} && Model().removing == m.removing - {g};
      }
      assert Model().rooms == m.rooms;
    }

    /** The free seat of instance i goes to the front of the queue. */
    method Offer(g: text, vacated: seq<Instance<C>>, i: nat, connected: set<C>)
      requires Valid() && g in gamesStore && i < |vacated| && Queue(g) != []
      modifies this`gamesInstances, this`waitingClients
      ensures Same(Model(), WithRoom(old(Model()), g,
                                     OfferSeat(gamesStore[g], Room(vacated, old(Queue(g))), i, connected)))
    {
      hide Model, RoomOf, WithRoom, Same;
      var config := gamesStore[g];
      var waitingClient := Queue(g)[0];
      if waitingClient !in vacated[i].players && |vacated[i].players| < config.maxPlayers
        && waitingClient in connected {
        PutBoth(g, vacated[i := vacated[i].(players := vacated[i].players + [waitingClient])], Queue(g)[1..]);
      } else if waitingClient in connected {
        PutBoth(g, vacated, Queue(g)[1..]);
      } else {
        PutInstances(g, vacated);
      }
    }

    method PutBoth(g: text, instances: seq<Instance<C>>, queue: seq<C>)
      modifies this`gamesInstances, this`waitingClients
      ensures Same(Model(), WithRoom(old(Model()), g, Room(instances, queue)))
    {
      hide Model, RoomOf, WithRoom, Same;
      ghost var m := Model();
      PutInstances(g, instances);
      ghost var m1 := Model();
      PutQueue(g, queue);
      SameTwice(m, m1, Model(), g, Room(instances, old(Queue(g))), Room(instances, queue));
    }

    /** Despite its name: true if the game is unknown or nobody waits. */
    method IsClientWaiting(g: text) returns (b: bool)
      ensures b <==> g !in Model().loaded || RoomOf(Model(), g).queue == []
    {
      Rooms(g);
      b := g !in gamesStore || Queue(g) == [];
    }

    /** The first position of the client in the queue, found by emptying a copy; -1 if it does not wait or the game is
        unknown. */
    method GetIndexInWaitingQueue(g: text, client: C) returns (index: int)
      ensures index == -1 <==> g !in Model().loaded || client !in RoomOf(Model(), g).queue
      ensures index != -1 ==> 0 <= index < |RoomOf(Model(), g).queue| && RoomOf(Model(), g).queue[index] == client
      ensures index != -1 ==> client !in RoomOf(Model(), g).queue[..index]
    {
      Rooms(g);
      if g !in gamesStore {
        return -1;
      }
      var tmpQueue := Queue(g);
      var i := 0;
      while tmpQueue != []
        invariant 0 <= i <= |Queue(g)| && tmpQueue == Queue(g)[i..] && client !in Queue(g)[..i]
        decreases |tmpQueue|
      {
        if tmpQueue[0] == client {
          return i;
        }
        assert Queue(g)[..i + 1] == Queue(g)[..i] + [tmpQueue[0]];
        tmpQueue := tmpQueue[1..];
        i := i + 1;
      }
      assert Queue(g)[..i] == Queue(g);
      return -1;
    }
  }
}
