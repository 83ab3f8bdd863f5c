/** Which packets end in a ban and which in a client's receive queue, over whole runs of the client manager. */
module SessionRuns {
  import opened Wrappers
  import opened Bytes
  import opened Sequences
  import opened Packets
  import opened Clients
  import opened S = Sessions

  /** The buffer begins with this packet, whatever follows it. */
  predicate IsFront(buffer: seq<byte>, f: Frame) {
    Framed(f) && Serialized(f) <= buffer
  }

  lemma FrontIsRead(buffer: seq<byte>, f: Frame)
    ensures Deserialized(buffer) == Success(f) <==> IsFront(buffer, f)
  {
    hide Deserialized, Serialized, Framed;
    DeserializeThenSerialize(buffer);
    if Serialized(f) <= buffer {
      SerializeThenDeserialize(f, buffer[|Serialized(f)|..]);
      assert Serialized(f) + buffer[|Serialized(f)|..] == buffer;
    }
  }

  ghost predicate IsUnreadable(buffer: seq<byte>) {
    !exists f :: IsFront(buffer, f)
  }

  lemma UnreadableIsRefused(buffer: seq<byte>)
    ensures IsUnreadable(buffer) <==> Deserialized(buffer).Failure?
  {
    hide Deserialized, IsFront;
    if Deserialized(buffer).Success? {
      FrontIsRead(buffer, Deserialized(buffer).value);
    } else if !IsUnreadable(buffer) {
      var f :| IsFront(buffer, f);
      FrontIsRead(buffer, f);
    }
  }

  // ---------------------------------------------------------------- the first packet of an address

  ghost predicate BeginsWithRequest(buffer: seq<byte>) {
    exists f :: Framed(f) && f.header.command == REQ_CONNECT && Serialized(f) <= buffer
  }

  lemma RequestIsRead(buffer: seq<byte>)
    ensures BeginsWithRequest(buffer) <==>
      Deserialized(buffer).Success? && Deserialized(buffer).value.header.command == REQ_CONNECT
  {
    hide Deserialized, Serialized, Framed;
    if Deserialized(buffer).Success? {
      FrontIsRead(buffer, Deserialized(buffer).value);
    }
    if BeginsWithRequest(buffer) {
      var f :| Framed(f) && f.header.command == REQ_CONNECT && Serialized(f) <= buffer;
      FrontIsRead(buffer, f);
    }
  }

  /** addClient bans exactly the addresses it does not know whose packet is no connection request, by one more entry at
      the end of the list, and bans nobody else. */
  lemma StrangersAreBanned<C>(s: Sessions<C>, a: Address, buffer: seq<byte>, c: C, now: int)
    requires Sane(s)
    ensures Step(s, Connects(a, buffer, c, now)).banned ==
      s.banned + if a.ip !in s.banned && a !in s.clients && !BeginsWithRequest(buffer) then [a.ip] else []
  {
    hide Deserialized, TakeString, BeginsWithRequest, Sane;
    SaneAt(s, a);
    RequestIsRead(buffer);
    Empty(s.banned);
  }

  /** A known sender that is not banned counts as active now, and nothing else changes. */
  lemma KnownAreKeptAlive<C>(s: Sessions<C>, a: Address, buffer: seq<byte>, c: C, now: int)
    requires Sane(s) && a in s.clients
    ensures var s' := Step(s, Connects(a, buffer, c, now));
      && s'.clients == s.clients && s'.banned == s.banned && s'.objects.Keys == s.objects.Keys
      && forall o :: o in s.objects ==>
        s'.objects[o] == (if o == s.clients[a] && a.ip !in s.banned
                          then ClientData(s.objects[o].address, s.objects[o].game, now, s.objects[o].warnings)
                          else s.objects[o])
  {
  }

  /** The buffer begins with a connection request whose payload begins with this name. */
  ghost predicate AsksFor(buffer: seq<byte>, game: text) {
    exists f :: Framed(f) && f.header.command == REQ_CONNECT && Serialized(f) <= buffer && Names(f, game)
  }

  predicate Names(f: Frame, game: text) {
    |game| <= INT_MAX && ToLE(4, |game|) + game <= f.payload
  }

  lemma NameIsTaken(f: Frame, game: text)
    ensures Names(f, game) <==> TakeString(f).Got? && TakeString(f).value == game
  {
    hide FromLE, ToLE;
    if Names(f, game) {
      assert f.payload[..4 + |game|] == ToLE(4, |game|) + game;
      assert f.payload[..4] == ToLE(4, |game|) && f.payload[4..4 + |game|] == game;
      ReadBack32(|game|);
    }
    if TakeString(f).Got? {
      WriteBack(f.payload[..4]);
      var n := FromLE(f.payload[..4]);
      assert f.payload[..4] + f.payload[4..4 + n] == f.payload[..4 + n];
    }
  }

  lemma NameIsRead(buffer: seq<byte>, game: text)
    ensures AsksFor(buffer, game) <==>
      && Deserialized(buffer).Success? && Deserialized(buffer).value.header.command == REQ_CONNECT
      && TakeString(Deserialized(buffer).value).Got? && TakeString(Deserialized(buffer).value).value == game
  {
    hide Deserialized, Serialized, Framed, Names, TakeString;
    if Deserialized(buffer).Success? {
      FrontIsRead(buffer, Deserialized(buffer).value);
      NameIsTaken(Deserialized(buffer).value, game);
    }
    if AsksFor(buffer, game) {
      var f :| Framed(f) && f.header.command == REQ_CONNECT && Serialized(f) <= buffer && Names(f, game);
      FrontIsRead(buffer, f);
      NameIsTaken(f, game);
    }
  }

  /** A new object is registered under this game exactly if its sender is neither banned nor known and asks for the
      game; it has no warnings, is active now, and nobody else is touched. */
  lemma RequestRegisters<C>(s: Sessions<C>, a: Address, buffer: seq<byte>, c: C, now: int, game: text)
    requires Sane(s) && c !in s.objects
    ensures var s' := Step(s, Connects(a, buffer, c, now));
      (c in s'.objects && s'.objects[c].game == game) <==>
        a.ip !in s.banned && a !in s.clients && AsksFor(buffer, game)
    ensures var s' := Step(s, Connects(a, buffer, c, now));
      c in s'.objects ==>
        && s'.clients == s.clients[a := c] && s'.objects[c].address == a
        && s'.objects[c].lastActivity == now && s'.objects[c].warnings == 0
        && forall o :: o in s.objects ==> o in s'.objects && s'.objects[o] == s.objects[o]
    ensures var s' := Step(s, Connects(a, buffer, c, now));
      a !in s.clients && c !in s'.objects ==> s'.clients == s.clients && s'.objects == s.objects
  {
    hide Deserialized, TakeString, AsksFor, Sane;
    SaneAt(s, a);
    NameIsRead(buffer, game);
  }

  // ---------------------------------------------------------------- the fifth unreadable packet

  /** This event is an unreadable packet of client c, not banned. */
  ghost predicate IsGarbageOf<C>(s: Sessions<C>, e: Event<C>, c: C) {
    e.Receives? && e.a.ip !in s.banned && e.a in s.clients && s.clients[e.a] == c && IsUnreadable(e.buffer)
  }

  /** The number of them in a run. */
  ghost function Garbage<C>(s: Sessions<C>, es: seq<Event<C>>, c: C): nat
    requires Sane(s)
    decreases |es|
  {
    if es == [] then 0 else
    StepSane(s, es[0]);
    (if IsGarbageOf(s, es[0], c) then 1 else 0) + Garbage(Step(s, es[0]), es[1..], c)
  }

  function WarningsOf<C(==)>(s: Sessions<C>, c: C): nat {
    if c in s.objects then s.objects[c].warnings else 0
  }

  lemma StepWarnings<C>(s: Sessions<C>, e: Event<C>, c: C)
    requires Tolerated(s)
    ensures WarningsOf(Step(s, e), c) == WarningsOf(s, c) + if IsGarbageOf(s, e, c) then 1 else 0
  {
    hide Deserialized, TakeString, IsUnreadable, Seconds;
    if e.Receives? {
      UnreadableIsRefused(e.buffer);
    }
  }

  lemma {:induction false} WarningsAreCounted<C>(s: Sessions<C>, es: seq<Event<C>>, c: C)
    requires Tolerated(s)
    ensures WarningsOf(Run(s, es), c) == WarningsOf(s, c) + Garbage(s, es, c)
    decreases |es|
  {
    hide Step, WarningsOf, IsGarbageOf, Tolerated;
    ToleratedIsSane(s);
    if es != [] {
      StepTolerated(s, es[0]);
      StepWarnings(s, es[0], c);
      WarningsAreCounted(Step(s, es[0]), es[1..], c);
    }
  }

  lemma ToleratedIsSane<C>(s: Sessions<C>)
    requires Tolerated(s)
    ensures Sane(s)
  {
  }

  lemma ReceiveBans<C>(s: Sessions<C>, a: Address, buffer: seq<byte>)
    requires Tolerated(s)
    ensures Step(s, Receives(a, buffer)).banned == s.banned +
      if a.ip !in s.banned && a in s.clients && IsUnreadable(buffer) && WarningsOf(s, s.clients[a]) == 4
      then [a.ip] else []
  {
    hide Deserialized, IsUnreadable;
    UnreadableIsRefused(buffer);
    Empty(s.banned);
  }

  /** From the start of the server on, receivePacketFromClient bans an address exactly by the fifth unreadable packet of
      its client. */
  lemma FifthUnreadableIsBanned<C>(es: seq<Event<C>>, a: Address, buffer: seq<byte>)
    ensures var start: Sessions<C> := S.Sessions(map[], [], map[]);
      && Sane(start) && Sane(Run(start, es))
      && var s := Run(start, es);
         Step(s, Receives(a, buffer)).banned == s.banned +
           if a.ip !in s.banned && a in s.clients && IsUnreadable(buffer) && Garbage(start, es, s.clients[a]) == 4
           then [a.ip] else []
  {
    hide Step, IsUnreadable, Garbage;
    var start: Sessions<C> := S.Sessions(map[], [], map[]);
    WarningsStayBelowFive(start, es);
    var s := Run(start, es);
    ReceiveBans(s, a, buffer);
    if a in s.clients {
      WarningsAreCounted(start, es, s.clients[a]);
    }
  }

  // ---------------------------------------------------------------- accepted packets

  /** A packet reaches the receive queue of its sender's client exactly if the sender is registered and not banned, and
      the packet is framed, fits the receive buffer and is no request to leave; such a request is answered with the
      client's game. */
  lemma PacketIsQueued<C>(s: Sessions<C>, a: Address, f: Frame)
    requires a in s.clients ==> s.clients[a] in s.objects
    ensures var r := Receive(s, a, Received(Serialized(f)));
      var framed := f.header.priority < 4 && f.header.api < 2 && f.header.command < 60
        && f.header.contentLength == |f.payload|;
      var arrives := a in s.clients && a.ip !in s.banned && framed && 12 + |f.payload| <= 4096;
      && (a in s.clients && r.1 == Queued(s.clients[a], f) <==> arrives && f.header.command != REQ_DISCONNECT)
      && (arrives && f.header.command == REQ_DISCONNECT ==> r.1 == Leaving(s.objects[s.clients[a]].game, s.clients[a]))
      && (arrives ==> r.0 == s)
  {
    hide Deserialized, Received, Serialized;
    ReceivedRoundTrip(f);
  }

  /** This event is a packet of client c, registered and not banned, other than a request to leave. */
  predicate IsPacketOf<C(==)>(s: Sessions<C>, e: Event<C>, c: C, f: Frame) {
    && e.Receives? && e.a.ip !in s.banned && e.a in s.clients && s.clients[e.a] == c
    && IsFront(e.buffer, f) && f.header.command != REQ_DISCONNECT
  }

  /** What one event queues to the client. */
  function QueuedBy<C(==)>(s: Sessions<C>, e: Event<C>, c: C): seq<Frame>
    requires Sane(s)
  {
    if !e.Receives? then [] else
    var r := Receive(s, e.a, e.buffer).1;
    if r.Queued? && r.c == c then [r.f] else []
  }

  ghost function QueuedTo<C>(s: Sessions<C>, es: seq<Event<C>>, c: C): seq<Frame>
    requires Sane(s)
    decreases |es|
  {
    if es == [] then [] else
    StepSane(s, es[0]);
    QueuedBy(s, es[0], c) + QueuedTo(Step(s, es[0]), es[1..], c)
  }

  /** These are the packets of client c in the run, in order. */
  ghost predicate ArePackets<C>(s: Sessions<C>, es: seq<Event<C>>, c: C, fs: seq<Frame>)
    requires Sane(s)
    decreases |es|
  {
    if es == [] then fs == [] else
    StepSane(s, es[0]);
    if exists f :: IsPacketOf(s, es[0], c, f)
    then fs != [] && IsPacketOf(s, es[0], c, fs[0]) && ArePackets(Step(s, es[0]), es[1..], c, fs[1..])
    else ArePackets(Step(s, es[0]), es[1..], c, fs)
  }

  lemma PacketOfOne<C>(s: Sessions<C>, e: Event<C>, c: C, f: Frame)
    requires Sane(s)
    ensures QueuedBy(s, e, c) == [f] <==> IsPacketOf(s, e, c, f)
    ensures |QueuedBy(s, e, c)| <= 1
  {
    hide Deserialized, IsFront, Sane;
    if e.Receives? {
      SaneAt(s, e.a);
      FrontIsRead(e.buffer, f);
      assert QueuedBy(s, e, c) == [f] ==> Deserialized(e.buffer).Success?;
    }
  }

  lemma PacketOrNothing<C>(s: Sessions<C>, e: Event<C>, c: C)
    requires Sane(s)
    ensures QueuedBy(s, e, c) == [] <==> !exists f :: IsPacketOf(s, e, c, f)
    ensures QueuedBy(s, e, c) == [] || QueuedBy(s, e, c) == [QueuedBy(s, e, c)[0]]
  {
    hide IsPacketOf, QueuedBy;
    var fs := QueuedBy(s, e, c);
    if fs == [] {
      forall f
        ensures !IsPacketOf(s, e, c, f)
      {
        PacketOfOne(s, e, c, f);
      }
    } else {
      PacketOfOne(s, e, c, fs[0]);
      assert fs == [fs[0]];
    }
  }

  /** Over any run exactly the packets accepted from its address are queued to a client, in order; requests to leave are
      not. */
  lemma {:induction false} QueuedIsAccepted<C>(s: Sessions<C>, es: seq<Event<C>>, c: C, fs: seq<Frame>)
    requires Sane(s)
    ensures fs == QueuedTo(s, es, c) <==> ArePackets(s, es, c, fs)
    decreases |es|
  {
    hide IsPacketOf, QueuedBy, Step, Sane;
    if es != [] {
      StepSane(s, es[0]);
      PacketOrNothing(s, es[0], c);
      var now, later := QueuedBy(s, es[0], c), QueuedTo(Step(s, es[0]), es[1..], c);
      if now == [] {
        Empty(later);
        QueuedIsAccepted(Step(s, es[0]), es[1..], c, fs);
      } else if fs != [] {
        PacketOfOne(s, es[0], c, fs[0]);
        QueuedIsAccepted(Step(s, es[0]), es[1..], c, fs[1..]);
        HeadAndTail(fs);
        EqualSums([fs[0]], fs[1..], now, later);
      }
    }
  }
}
