/** Flakkari/Server/UDPServer as the object it is: handlePacket calls the two managers in their order, and has the
    effect of the step in Server. */
module UDPServers {
  import opened Wrappers
  import opened Bytes
  import opened Clients
  import opened ClientManagers
  import opened GameManagers
  import opened Servers
  import S = Sessions
  import M = Matchmaking

  /** The same sessions and, up to missing map entries, the same matchmaking. */
  ghost predicate Agree(a: Server<Client>, b: Server<Client>) {
    a.sessions == b.sessions && Same(a.manager, b.manager)
  }

  class UDPServer {
    const clientManager: ClientManager
    const gameManager: GameManager<Client>

    ghost predicate Valid()
      reads clientManager, gameManager, clientManager.created
    {
      clientManager.Valid() && gameManager.Valid() && S.Sane(clientManager.Model())
    }

    ghost function State(): Server<Client>
      reads clientManager, gameManager, clientManager.created
    {
      Server(clientManager.Model(), gameManager.Model())
    }

    constructor (files: M.Catalogue)
      ensures Valid() && State() == Idle() && gameManager.files == files
    {
      var clients := new ClientManager();
      var games := new GameManager(files);
      clientManager, gameManager := clients, games;
    }

    /** isConnected of every client object. */
    method ConnectedNow(now: int) returns (connected: set<Client>)
      ensures connected == Connected(clientManager.Model(), now)
    {
      connected := set c | c in clientManager.created && c.IsConnected(now);
      assert connected == Connected(clientManager.Model(), now);
    }

    /** handleTimeout for a wait that timed out. */
    method HandleTimeout(event: int, now: int) returns (handled: bool)
      requires Valid()
      modifies clientManager
      ensures Valid() && handled == (event == 0)
      ensures State() == if handled then Swept(old(State()), now) else old(State())
    {
      if event != 0 {
        return false;
      }
      CheckedSane(clientManager.Model(), now);
      clientManager.CheckInactiveClients(now);
      return true;
    }

    /** handlePacket; false: an exception, or the end of the process. */
    method HandlePacket(address: Address, buffer: seq<byte>, now: int)
        returns (alive: bool, ghost newcomer: Option<Client>)
      requires Valid()
      modifies clientManager, gameManager, clientManager.created
      ensures Valid()
      ensures newcomer.Some? ==> fresh(newcomer.value)
      ensures match S.Screen(old(clientManager.Model()), address, buffer, now).1
        case Welcome(game, _) =>
          && newcomer.Some? && newcomer.value !in old(State()).sessions.objects
          && var r := HandleWelcome(gameManager.files, old(State()), address, buffer, newcomer.value, game, now);
             alive == r.Some? && (alive ==> Agree(State(), r.value))
        case _ =>
          var r := HandleOther(gameManager.files, old(State()), address, buffer, now);
          alive == r.Some? && (alive ==> Agree(State(), r.value))
    {
      hide S.Screen, S.Registered, S.Checked, S.Sane, S.Removed, ClientManager.Model, GameManager.Model,
           ClientManager.Valid, GameManager.Valid, HandleReceipt, ReceiptIsFatal, Offered, Same;
      ghost var sv := State();
      clientManager.ObjectsAreCreated();
      S.SaneAt(sv.sessions, address);
      ScreenSane(sv.sessions, address, buffer, now);
      SameSelf(sv.manager);
      newcomer := None;
      var answer := clientManager.AddClient(address, buffer, now);
      match answer {
        case Nothing => return true, None;
        case Exception => return false, None;
        case Existing =>
          alive := Receive(address, buffer, now);
          return alive, None;
        case Created(game, client) =>
          NewcomerSane(S.Screen(sv.sessions, address, buffer, now).0, address, client, game, now);
          if game != [] {
            Offer(address, game, client, now);
            alive := true;
          } else {
            alive := Receive(address, buffer, now);
          }
          return alive, Some(client);
      }
    }

    /** The part of handlePacket behind checkInactiveClients, for a client treated as known. */
    method Receive(address: Address, buffer: seq<byte>, now: int) returns (alive: bool)
      requires Valid()
      modifies clientManager, gameManager, clientManager.created
      ensures Valid()
      ensures S.Sane(Swept(old(State()), now).sessions)
      ensures var swept := Swept(old(State()), now);
        && (address in swept.sessions.clients ==> swept.sessions.clients[address] in swept.sessions.objects)
        && alive == !ReceiptIsFatal(gameManager.files, swept, address, buffer)
        && Agree(State(), HandleReceipt(gameManager.files, swept, address, buffer, now))
    {
      hide S.Checked, S.Sane, S.Receive, ClientManager.Model, GameManager.Model, ClientManager.Valid,
           GameManager.Valid, Same, Fed, M.RemoveClient, M.Fatal, Connected;
      ghost var sv := State();
      CheckedSane(sv.sessions, now);
      clientManager.CheckInactiveClients(now);
      ghost var swept := State();
      S.SaneAt(swept.sessions, address);
      ReceiptSane(gameManager.files, swept, address, buffer, now);
      SameSelf(swept.manager);
      var answer := clientManager.ReceivePacketFromClient(address, buffer);
      if answer.Some? {
        var connected := ConnectedNow(now);
        var kept;
        kept, alive := gameManager.RemoveClientFromGame(answer.value.0, answer.value.1, connected);
      } else {
        alive := true;
      }
    }

    /** The part of handlePacket that offers a new client to its game, and checkInactiveClients. */
    method Offer(address: Address, game: text, client: Client, now: int)
      requires Valid() && S.Sane(S.Removed(State().sessions, address))
      modifies clientManager, gameManager
      ensures Valid() && clientManager.created == old(clientManager.created)
      ensures S.Sane(Offered(gameManager.files, old(State()), address, client, game, now).sessions)
      ensures Agree(State(), Swept(Offered(gameManager.files, old(State()), address, client, game, now), now))
    {
      hide S.Checked, S.Sane, S.Removed, ClientManager.Model, GameManager.Model, ClientManager.Valid,
           GameManager.Valid, Same, M.AddClient, Connected;
      var connected := ConnectedNow(now);
      var result := gameManager.AddClientToGame(game, client, connected);
      if !result {
        clientManager.RemoveClient(address);
      }
      ghost var offered := clientManager.Model();
      CheckedSane(offered, now);
      clientManager.CheckInactiveClients(now);
    }
  }
}
