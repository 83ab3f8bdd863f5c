/** Flakkari/Server/Client/ClientManager as the object it is: a map of client objects and a list of banned addresses.
    Each method is proved to make the transition Sessions gives. */
module ClientManagers {
  import opened Wrappers
  import opened Bytes
  import opened Packets
  import opened GameModel
  import opened Clients
  import S = Sessions

  ghost function Data(c: Client): S.ClientData
    reads c
  {
    S.ClientData(c.address, c.gameName, c.lastActivity, c.warningCount)
  }

  /** What addClient returns: no value, an empty name with no client, or a game name with the new client; or it
      throws. */
  datatype Answer = Nothing | Existing | Created(game: text, client: Client) | Exception

  /** The answer to each outcome of the screening. */
  predicate Answers(answer: Answer, screening: S.Screening) {
    match screening
    case Rejected => answer.Nothing?
    case Known => answer.Existing?
    case Garbled => answer.Exception?
    case Welcome(game, _) => answer.Created? && answer.game == game
  }

  /** What receivePacketFromClient returns. */
  function Departure(r: S.Receipt<Client>): Option<(text, Client)> {
    match r
    case Leaving(game, c) => Some((game, c))
    case _ => None
  }

  /** The client's record after a receipt. */
  ghost function Fed(p: Peer, r: S.Receipt<Client>, c: Client): Peer {
    if r.Queued? && r.c == c then Accept(p, r.f) else p
  }

  class ClientManager {
    var clients: map<Address, Client>
    var bannedClients: seq<text>
    /** Every client object made here; the source leaves them to its shared pointers. */
    var created: set<Client>

    ghost predicate Valid()
      reads this
    {
      forall a :: a in clients ==> clients[a] in created && clients[a].address == a
    }

    ghost function Model(): S.Sessions<Client>
      reads this, created
    {
      S.Sessions(clients, bannedClients, map c | c in created :: Data(c))
    }

    lemma ObjectsAreCreated()
      ensures Model().objects.Keys == created
    {
    }

    constructor ()
      ensures Valid() && created == {} && Model() == S.Sessions(map[], [], map[])
    {
      clients, bannedClients, created := map[], [], {};
    }

    method IsBanned(address: Address) returns (b: bool)
      ensures b == S.IsBanned(Model(), address)
    {
      b := address.ip in bannedClients;
    }

    /** addClient */
    method AddClient(address: Address, buffer: seq<byte>, now: int) returns (answer: Answer)
      requires Valid()
      modifies this, created`lastActivity
      ensures Valid() && answer.Created? == S.Screen(old(Model()), address, buffer, now).1.Welcome?
      ensures Answers(answer, S.Screen(old(Model()), address, buffer, now).1)
      ensures answer.Created? ==> fresh(answer.client) && created == old(created) + {answer.client}
      ensures answer.Created? ==>
        Model() == S.Registered(S.Screen(old(Model()), address, buffer, now).0, address, answer.client, answer.game,
                                now)
      ensures !answer.Created? ==> created == old(created) && Model() == S.Screen(old(Model()), address, buffer, now).0
    {
      hide Seconds, Deserialized, TakeString, Client.Record;
      var banned := IsBanned(address);
      if banned {
        return Nothing;
      }
      if address in clients {
        KeepAlive(address, now);
        return Existing;
      }
      var packet := new Packet(LOW, V_1, REQ_CONNECT, 0);
      var accepted := packet.Deserialize(buffer);
      if !accepted || packet.header.command != REQ_CONNECT {
        bannedClients := bannedClients + [address.ip];
        return Nothing;
      }
      var apiVersion := packet.header.api;
      var name := packet.ExtractString();
      if !name.Got? {
        return Exception;
      }
      var client := Enlist(address, name.value, apiVersion, now);
      return Created(name.value, client);
    }

    /** `_clients[name]->keepAlive()` */
    method KeepAlive(address: Address, now: int)
      requires Valid() && address in clients
      modifies created`lastActivity
      ensures Valid() && Model() == S.Touched(old(Model()), clients[address], now)
    {
      clients[address].KeepAlive(now);
      assert Model().objects == old(Model()).objects[clients[address] := Data(clients[address])];
    }

    /** The new client object takes its place in the map. */
    method Enlist(address: Address, game: text, apiVersion: nibble, now: int) returns (client: Client)
      requires Valid()
      modifies this`clients, this`created
      ensures Valid() && fresh(client) && created == old(created) + {client}
      ensures client.Record() == Peer(0, [], apiVersion, [], [], [], [], 0)
      ensures Model() == S.Registered(old(Model()), address, client, game, now)
    {
      ghost var m := Model();
      client := new Client(address, game, apiVersion, now);
      clients := clients[address := client];
      created := created + {client};
      assert Model().objects == m.objects[client := S.ClientData(address, game, now, 0)];
    }

    /** removeClient */
    method RemoveClient(address: Address)
      requires Valid()
      modifies this`clients
      ensures Valid() && Model() == S.Removed(old(Model()), address)
    {
      if address !in clients {
        assert clients - {address} == clients;
        return;
      }
      clients := clients - {address};
    }

    /** checkInactiveClients: the loop erases as it goes, in whatever order the table yields the entries. */
    method CheckInactiveClients(now: int)
      requires Valid()
      modifies this`clients
      ensures Valid() && Model() == S.Checked(old(Model()), now)
    {
      hide Seconds;
      ghost var m := Model();
      var todo := clients.Keys;
      while todo != {}
        invariant Valid() && todo <= clients.Keys <= m.clients.Keys
        invariant forall a :: a in clients ==> clients[a] == m.clients[a]
        invariant forall a :: a in m.clients && a !in todo ==> (a in clients <==> S.Alive(m, m.clients[a], now))
        decreases todo
      {
        var address :| address in todo;
        todo := todo - {address};
        assert m.objects[clients[address]] == Data(clients[address]);
        var connected := clients[address].IsConnected(now);
        if !connected {
          clients := clients - {address};
        }
      }
      assert clients == S.Checked(m, now).clients;
    }

    /** receivePacketFromClient: a game name and client if the client is to leave its game. A packet that is accepted
        goes to the client's receive queue. */
    method ReceivePacketFromClient(address: Address, buffer: seq<byte>) returns (answer: Option<(text, Client)>)
      requires Valid()
      modifies this`bannedClients, created`warningCount, created`apiVersion, created`receiveQueue
      ensures Valid() && Model() == S.Receive(old(Model()), address, buffer).0
      ensures answer == Departure(S.Receive(old(Model()), address, buffer).1)
      ensures forall c :: c in created ==>
        c.Record() == Fed(old(c.Record()), S.Receive(old(Model()), address, buffer).1, c)
    {
      hide Deserialized, Accept, Seconds, Client.Record, S.Delivered, S.Warned, Fed, Departure, Data;
      NotFed();
      var banned := IsBanned(address);
      if banned || address !in clients {
        return None;
      }
      var packet := new Packet(LOW, V_1, REQ_CONNECT, 0);
      var accepted := packet.Deserialize(buffer);
      if accepted {
        answer := TakeIn(clients[address], packet.Value());
      } else {
        answer := WarnOrBan(address);
      }
    }

    lemma NotFed()
      ensures Departure(S.Ignored) == None
      ensures forall c :: c in created ==> Fed(c.Record(), S.Ignored, c) == c.Record()
    {
    }

    method TakeIn(client: Client, f: Frame) returns (answer: Option<(text, Client)>)
      requires Valid() && client in created && client in Model().objects
      modifies created`apiVersion, created`receiveQueue
      ensures Valid() && Model() == old(Model())
      ensures answer == Departure(S.Delivered(old(Model()), client, f))
      ensures forall c :: c in created ==> c.Record() == Fed(old(c.Record()), S.Delivered(old(Model()), client, f), c)
    {
      hide Accept, Client.Record;
      if f.header.command == REQ_DISCONNECT {
        return Some((client.gameName, client));
      }
      Feed(client, f);
      return None;
    }

    method WarnOrBan(address: Address) returns (answer: Option<(text, Client)>)
      requires Valid() && address in clients && clients[address] in Model().objects
      modifies this`bannedClients, created`warningCount
      ensures Valid() && Model() == S.Warned(old(Model()), address, old(clients)[address]).0
      ensures answer == Departure(S.Warned(old(Model()), address, old(clients)[address]).1)
      ensures forall c :: c in created ==>
        c.Record() == Fed(old(c.Record()), S.Warned(old(Model()), address, old(clients)[address]).1, c)
    {
      hide Client.Record;
      var client := clients[address];
      var tooMany := Warn(client);
      if tooMany {
        bannedClients := bannedClients + [address.ip];
        return Some((client.gameName, client));
      }
      return None;
    }

    method Feed(client: Client, f: Frame)
      requires Valid() && client in created
      modifies created`apiVersion, created`receiveQueue
      ensures Valid() && Model() == old(Model())
      ensures forall c :: c in created ==>
        c.Record() == if c == client then Accept(old(c.Record()), f) else old(c.Record())
    {
      hide Accept, Client.Record;
      client.AddPacketToReceiveQueue(f);
      assert Model().objects == old(Model()).objects;
    }

    method Warn(client: Client) returns (tooMany: bool)
      requires Valid() && client in created
      modifies created`warningCount
      ensures Valid() && clients == old(clients)
      ensures Model() == old(Model()).(objects := old(Model()).objects[client := Data(client)])
      ensures Data(client) == old(Data(client)).(warnings := (old(client.warningCount) + 1) % 0x1_0000)
      ensures tooMany <==> client.warningCount >= MAX_WARNING_COUNT
      ensures forall c :: c in created ==> c.Record() == old(c.Record())
    {
      ghost var m := Model();
      tooMany := client.IncrementWarningCount();
      assert Model().objects == m.objects[client := Data(client)];
    }
  }
}
