/** Flakkari/Server/Client/ClientManager as a state: who is known, who is banned, when sessions end. */
module Sessions {
  import opened Wrappers
  import opened Bytes
  import opened Sequences
  import opened Packets
  import opened PayloadStreams
  import opened Clients
  import opened GameModel
  import ClientApi

  /** The part of a client object that sessions depend on. */
  datatype ClientData = ClientData(address: Address, game: text, lastActivity: int, warnings: nat)

  /** `clients` are the registered ones; `objects` all ever created, which games may still hold. C is the identity of a
      client object; times are milliseconds of a steady clock. */
  datatype Sessions<C(==)> = Sessions(clients: map<Address, C>, banned: seq<text>, objects: map<C, ClientData>)

  /** Registered clients are objects, each under its own address. */
  ghost predicate Sane<C>(s: Sessions<C>) {
    forall a :: a in s.clients ==> s.clients[a] in s.objects && s.objects[s.clients[a]].address == a
  }

  predicate IsBanned<C>(s: Sessions<C>, a: Address) {
    a.ip in s.banned
  }

  function Banned<C>(s: Sessions<C>, a: Address): Sessions<C> {
    s.(banned := s.banned + [a.ip])
  }

  predicate Alive<C(==)>(s: Sessions<C>, c: C, now: int)
    requires c in s.objects
  {
    Seconds(now - s.objects[c].lastActivity) < TIMEOUT
  }

  function Touched<C(==)>(s: Sessions<C>, c: C, now: int): Sessions<C>
    requires c in s.objects
  {
    s.(objects := s.objects[c := s.objects[c].(lastActivity := now)])
  }

  // ---------------------------------------------------------------- addClient

  /** Welcome: a new client of this game is to be created. Garbled: its game name does not extract, by an exception or
      by reading too far. */
  datatype Screening = Rejected | Known | Garbled | Welcome(game: text, api: nibble)

  /** addClient up to the creation of the client object. */
  function Screen<C(==)>(s: Sessions<C>, a: Address, buffer: seq<byte>, now: int): (Sessions<C>, Screening)
    requires a in s.clients ==> s.clients[a] in s.objects
  {
    if IsBanned(s, a) then (s, Rejected)
    else if a in s.clients then (Touched(s, s.clients[a], now), Known)
    else
      match Deserialized(buffer)
      case Failure(_) => (Banned(s, a), Rejected)
      case Success(f) =>
        if f.header.command != REQ_CONNECT then (Banned(s, a), Rejected)
        else if !TakeString(f).Got? then (s, Garbled)
        else (s, Welcome(TakeString(f).value, f.header.api))
  }

  function Registered<C(==)>(s: Sessions<C>, a: Address, c: C, game: text, now: int): Sessions<C> {
    s.(clients := s.clients[a := c], objects := s.objects[c := ClientData(a, game, now, 0)])
  }

  /** A connection request is welcomed exactly if its sender is neither banned nor known, its version is one of the
      protocol's, and the packet fits the receive buffer. */
  lemma ConnectIsWelcomed<C>(s: Sessions<C>, a: Address, api: nibble, game: text, stamp: u64, now: int)
    requires a in s.clients ==> s.clients[a] in s.objects
    ensures var request := PutString(Blank(api, REQ_CONNECT, stamp), game);
      Screen(s, a, Received(Serialized(request)), now).1 == Welcome(game, api) <==>
        !IsBanned(s, a) && a !in s.clients && api < MAX_VERSION && HEADER_SIZE + 4 + |game| <= RECEIVE_SIZE
  {
    hide Deserialized, EncodedHeader, DecodedHeader, TakeString, Received;
    var blank := Blank(api, REQ_CONNECT, stamp);
    var request := PutString(blank, game);
    var buffer := Received(Serialized(request));
    ReceivedRoundTrip(request);
    StringRoundTrip(blank, game);
    AcceptedFits(buffer);
    if Deserialized(buffer).Success? {
      StringFits(Deserialized(buffer).value);
    }
  }

  /** The C# client's ReqConnect sends the bare name without a length prefix, so no such request is ever welcomed under
      the name it carries. */
  lemma BareNameIsNotWelcomed<C>(s: Sessions<C>, a: Address, game: text, stamp: u64, now: int)
    requires a in s.clients ==> s.clients[a] in s.objects
    ensures Screen(s, a, Received(Serialized(ClientApi.Written(HIGH, REQ_CONNECT, game, stamp))), now).1
      != Welcome(game, V_1)
  {
    hide EncodedHeader, DecodedHeader, TakeString, Received;
    var request := ClientApi.Written(HIGH, REQ_CONNECT, game, stamp);
    var buffer := Received(Serialized(request));
    ReceivedHeader(request);
    if Deserialized(buffer).Success? {
      StringFits(Deserialized(buffer).value);
    }
  }

  lemma StringFits(f: Frame)
    ensures TakeString(f).Got? ==> 4 + |TakeString(f).value| <= |f.payload|
  {
  }

  // ---------------------------------------------------------------- the other operations

  function Removed<C(==)>(s: Sessions<C>, a: Address): Sessions<C> {
    s.(clients := s.clients - {a})
  }

  /** checkInactiveClients */
  function Checked<C(==)>(s: Sessions<C>, now: int): Sessions<C>
    requires Sane(s)
  {
    s.(clients := map a | a in s.clients && Alive(s, s.clients[a], now) :: s.clients[a])
  }

  /** Queued: the packet goes to the client's receive queue. Leaving: the client is to leave its game. */
  datatype Receipt<C> = Ignored | Queued(c: C, f: Frame) | Leaving(game: text, c: C)

  /** An accepted packet either asks to leave or is queued. */
  function Delivered<C(==)>(s: Sessions<C>, c: C, f: Frame): Receipt<C>
    requires c in s.objects
  {
    if f.header.command == REQ_DISCONNECT then Leaving(s.objects[c].game, c) else Queued(c, f)
  }

  /** Any other packet is a warning, and the fifth warning a ban. */
  function Warned<C(==)>(s: Sessions<C>, a: Address, c: C): (Sessions<C>, Receipt<C>)
    requires c in s.objects
  {
    var warned := s.(objects := s.objects[c := s.objects[c].(warnings := (s.objects[c].warnings + 1) % 0x1_0000)]);
    if warned.objects[c].warnings < MAX_WARNING_COUNT then (warned, Ignored)
    else (Banned(warned, a), Leaving(s.objects[c].game, c))
  }

  /** receivePacketFromClient. Neither a disconnect request nor a ban removes the entry. */
  function Receive<C(==)>(s: Sessions<C>, a: Address, buffer: seq<byte>): (Sessions<C>, Receipt<C>)
    requires a in s.clients ==> s.clients[a] in s.objects
  {
    if IsBanned(s, a) || a !in s.clients then (s, Ignored) else
    match Deserialized(buffer)
    case Success(f) => (s, Delivered(s, s.clients[a], f))
    case Failure(_) => Warned(s, a, s.clients[a])
  }

  // ---------------------------------------------------------------- runs

  /** A packet handled by addClient, with the object it creates if it does (not one created before); an inactivity
      check; a packet handled by receivePacketFromClient; a removal. */
  datatype Event<C> =
    | Connects(a: Address, buffer: seq<byte>, newcomer: C, now: int)
    | Check(now: int)
    | Receives(a: Address, buffer: seq<byte>)
    | Removal(a: Address)

  function Step<C(==)>(s: Sessions<C>, e: Event<C>): (s': Sessions<C>)
    requires Sane(s)
  {
    match e
    case Connects(a, buffer, c, now) =>
      var (s1, answer) := Screen(s, a, buffer, now);
      if answer.Welcome? && c !in s.objects then Registered(s1, a, c, answer.game, now) else s1
    case Check(now) => Checked(s, now)
    case Receives(a, buffer) => Receive(s, a, buffer).0
    case Removal(a) => Removed(s, a)
  }

  lemma StepSane<C>(s: Sessions<C>, e: Event<C>)
    requires Sane(s)
    ensures Sane(Step(s, e))
  {
    hide Deserialized, TakeString, Seconds;
  }

  ghost function Run<C>(s: Sessions<C>, es: seq<Event<C>>): (s': Sessions<C>)
    requires Sane(s)
    ensures Sane(s')
    decreases |es|
  {
    if es == [] then s else
    StepSane(s, es[0]);
    Run(Step(s, es[0]), es[1..])
  }

  lemma {:induction false} RunAppend<C>(s: Sessions<C>, a: seq<Event<C>>, b: seq<Event<C>>)
    requires Sane(s)
    ensures Run(s, a + b) == Run(Run(s, a), b)
    decreases |a|
  {
    hide Step, Sane;
    if a == [] {
      Empty(b);
    } else {
      HeadOfSum(a, b);
      StepSane(s, a[0]);
      RunAppend(Step(s, a[0]), a[1..], b);
    }
  }

  lemma RunOne<C>(s: Sessions<C>, e: Event<C>)
    requires Sane(s)
    ensures Sane(Step(s, e)) && Run(s, [e]) == Step(s, e)
  {
    hide Step, Sane;
    StepSane(s, e);
    assert [e][1..] == [];
  }

  // ---------------------------------------------------------------- bans

  lemma StepBans<C>(s: Sessions<C>, e: Event<C>)
    requires Sane(s)
    ensures s.banned <= Step(s, e).banned
  {
    hide Deserialized, TakeString, Seconds;
  }

  /** Bans are permanent. */
  lemma {:induction false} BansArePermanent<C>(s: Sessions<C>, es: seq<Event<C>>)
    requires Sane(s)
    ensures s.banned <= Run(s, es).banned
    decreases |es|
  {
    hide Step, Sane;
    if es != [] {
      StepSane(s, es[0]);
      StepBans(s, es[0]);
      BansArePermanent(Step(s, es[0]), es[1..]);
    }
  }

  /** The entry is gone, or the same client is still there with the same last activity. */
  predicate GoneOrIdle<C(==)>(s: Sessions<C>, s': Sessions<C>, a: Address) {
    a in s'.clients ==>
      && a in s.clients && s'.clients[a] == s.clients[a]
      && s.clients[a] in s.objects && s.clients[a] in s'.objects
      && s'.objects[s.clients[a]].lastActivity == s.objects[s.clients[a]].lastActivity
  }

  lemma StepOfBanned<C>(s: Sessions<C>, e: Event<C>, a: Address)
    requires Sane(s) && IsBanned(s, a)
    ensures GoneOrIdle(s, Step(s, e), a)
  {
    hide Deserialized, TakeString, Seconds;
  }

  /** Bans are effective: after a ban no client of the address is added, kept alive or replaced. */
  lemma {:induction false} BansAreEffective<C>(s: Sessions<C>, es: seq<Event<C>>, a: Address)
    requires Sane(s) && IsBanned(s, a)
    ensures IsBanned(Run(s, es), a) && GoneOrIdle(s, Run(s, es), a)
    decreases |es|
  {
    hide Step, Sane;
    if es == [] {
      SaneAt(s, a);
    } else {
      StepSane(s, es[0]);
      StepBans(s, es[0]);
      StepOfBanned(s, es[0], a);
      BansAreEffective(Step(s, es[0]), es[1..], a);
    }
  }

  lemma SaneAt<C>(s: Sessions<C>, a: Address)
    requires Sane(s)
    ensures GoneOrIdle(s, s, a)
    ensures a in s.clients ==> s.clients[a] in s.objects
  {
  }

  /** Some inactivity check comes at least five seconds after `last`. */
  predicate CheckedAfter<C>(es: seq<Event<C>>, last: int)
  {
    es != [] && ((es[0].Check? && es[0].now >= last + 5000) || CheckedAfter(es[1..], last))
  }

  /** A banned client's entry is gone for good after the first inactivity check five seconds past its last activity. */
  lemma {:induction false} BannedEntriesExpire<C>(s: Sessions<C>, es: seq<Event<C>>, a: Address)
    requires Sane(s) && IsBanned(s, a)
    requires a in s.clients ==> CheckedAfter(es, s.objects[s.clients[a]].lastActivity)
    ensures a !in Run(s, es).clients
    decreases |es|
  {
    hide Step, Sane;
    if a !in s.clients {
      BansAreEffective(s, es, a);
    } else {
      SaneAt(s, a);
      var last := s.objects[s.clients[a]].lastActivity;
      StepSane(s, es[0]);
      StepBans(s, es[0]);
      StepOfBanned(s, es[0], a);
      if es[0].Check? && es[0].now >= last + 5000 {
        CheckDrops(s, es[0].now, a);
      }
      BannedEntriesExpire(Step(s, es[0]), es[1..], a);
    }
  }

  /** An inactivity check drops exactly the clients silent for five seconds or more. */
  lemma CheckDrops<C>(s: Sessions<C>, now: int, a: Address)
    requires Sane(s) && a in s.clients
    ensures a in Step(s, Check(now)).clients <==> now < s.objects[s.clients[a]].lastActivity + 5000
  {
    SilenceInMilliseconds(s.objects[s.clients[a]].lastActivity, now);
  }

  // ---------------------------------------------------------------- warnings

  /** Fewer than five warnings, unless the address is banned; five at most in any case. */
  ghost predicate Tolerated<C>(s: Sessions<C>) {
    && Sane(s)
    && (forall c :: c in s.objects ==> s.objects[c].warnings <= MAX_WARNING_COUNT)
    && forall a :: a in s.clients && !IsBanned(s, a) ==> s.objects[s.clients[a]].warnings < MAX_WARNING_COUNT
  }

  lemma OneAddress<C>(s: Sessions<C>, a: Address, b: Address)
    requires Sane(s) && a in s.clients && b in s.clients && s.clients[a] == s.clients[b]
    ensures a == b
  {
    assert s.objects[s.clients[a]].address == a && s.objects[s.clients[b]].address == b;
  }

  lemma ConnectTolerated<C>(s: Sessions<C>, a: Address, buffer: seq<byte>, c: C, now: int)
    requires Tolerated(s)
    ensures Tolerated(Step(s, Connects(a, buffer, c, now)))
  {
    hide Deserialized, TakeString;
    StepSane(s, Connects(a, buffer, c, now));
  }

  lemma ReceiveTolerated<C>(s: Sessions<C>, a: Address, buffer: seq<byte>)
    requires Tolerated(s)
    ensures Tolerated(Step(s, Receives(a, buffer)))
  {
    hide Deserialized;
    StepSane(s, Receives(a, buffer));
    var s' := Step(s, Receives(a, buffer));
    forall b | b in s'.clients && !IsBanned(s', b)
      ensures s'.objects[s'.clients[b]].warnings < MAX_WARNING_COUNT
    {
      assert b in s.clients && !IsBanned(s, b);
      if a in s.clients && s.clients[a] == s.clients[b] {
        OneAddress(s, a, b);
      }
    }
  }

  lemma StepTolerated<C>(s: Sessions<C>, e: Event<C>)
    requires Tolerated(s)
    ensures Tolerated(Step(s, e))
  {
    match e
    case Connects(a, buffer, c, now) => ConnectTolerated(s, a, buffer, c, now);
    case Check(now) => StepSane(s, e);
    case Receives(a, buffer) => ReceiveTolerated(s, a, buffer);
    case Removal(a) => StepSane(s, e);
  }

  /** In every run each registered client whose address is not banned has fewer than five warnings. */
  lemma {:induction false} WarningsStayBelowFive<C>(s: Sessions<C>, es: seq<Event<C>>)
    requires Tolerated(s)
    ensures Tolerated(Run(s, es))
    decreases |es|
  {
    hide Step;
    if es != [] {
      StepTolerated(s, es[0]);
      WarningsStayBelowFive(Step(s, es[0]), es[1..]);
    }
  }
}
