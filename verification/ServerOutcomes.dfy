/** What one packet or one timeout does to the server's clients: who is swept out because of its silence, who stays, and
    who comes in. */
module ServerOutcomes {
  import opened Bytes
  import opened Packets
  import opened Clients
  import opened Servers
  import S = Sessions
  import SR = SessionRuns
  import M = Matchmaking

  /** Less than five seconds have gone by since the client at this address was active. */
  predicate IsFresh<C(==)>(s: S.Sessions<C>, a: Address, now: int) {
    a in s.clients && s.clients[a] in s.objects && now < s.objects[s.clients[a]].lastActivity + 5000
  }

  /** Exactly the entries at other addresses stay that were active in the last five seconds. */
  ghost predicate OthersSwept<C>(s: S.Sessions<C>, s': S.Sessions<C>, a: Address, now: int) {
    forall b :: b != a ==>
      (b in s'.clients <==> IsFresh(s, b, now)) && (b in s'.clients ==> s'.clients[b] == s.clients[b])
  }

  lemma CheckedEntries<C>(s: S.Sessions<C>, now: int, b: Address)
    requires S.Sane(s)
    ensures b in S.Checked(s, now).clients <==> IsFresh(s, b, now)
    ensures b in S.Checked(s, now).clients ==> S.Checked(s, now).clients[b] == s.clients[b]
  {
    hide Seconds;
    if b in s.clients {
      SilenceInMilliseconds(s.objects[s.clients[b]].lastActivity, now);
    }
  }

  /** A timeout drops exactly the clients silent for five seconds. */
  lemma TimeoutSweeps<C>(cat: M.Catalogue, sv: Server<C>, now: int)
    requires S.Sane(sv.sessions)
    ensures var r := Step(cat, sv, Timeout(now));
      && r.Some? && r.value.manager == sv.manager && r.value.sessions.banned == sv.sessions.banned
      && r.value.sessions.objects == sv.sessions.objects
      && forall b :: (b in r.value.sessions.clients <==> IsFresh(sv.sessions, b, now))
                     && (b in r.value.sessions.clients ==> r.value.sessions.clients[b] == sv.sessions.clients[b])
  {
    hide S.Checked, S.Sane;
    var r := Step(cat, sv, Timeout(now));
    CheckedSane(sv.sessions, now);
    forall b
      ensures (b in r.value.sessions.clients <==> IsFresh(sv.sessions, b, now))
      ensures b in r.value.sessions.clients ==> r.value.sessions.clients[b] == sv.sessions.clients[b]
    {
      S.SaneAt(sv.sessions, b);
      CheckedEntries(sv.sessions, now, b);
    }
    BansStay(sv.sessions, now);
  }

  lemma BansStay<C>(s: S.Sessions<C>, now: int)
    requires S.Sane(s)
    ensures S.Checked(s, now).banned == s.banned
  {
  }

  /** A packet from a banned IP, or from an unknown address that is no connection request, sweeps nobody out and leaves
      the games alone. */
  lemma StrangersSweepNobody<C>(cat: M.Catalogue, sv: Server<C>, a: Address, buffer: seq<byte>, c: C, now: int)
    requires S.Sane(sv.sessions) && c !in sv.sessions.objects
    requires a.ip in sv.sessions.banned || (a !in sv.sessions.clients && !SR.BeginsWithRequest(buffer))
    ensures var r := Step(cat, sv, Packet(a, buffer, c, now));
      && r.Some? && r.value.manager == sv.manager && r.value.sessions.clients == sv.sessions.clients
      && r.value.sessions.objects == sv.sessions.objects
  {
    hide Deserialized, TakeString, S.Sane;
    SR.RequestIsRead(buffer);
    S.SaneAt(sv.sessions, a);
  }

  /** A packet of a known client, if it is survived, keeps that client and sweeps the others. */
  lemma KnownSweeps<C>(cat: M.Catalogue, sv: Server<C>, a: Address, buffer: seq<byte>, c: C, now: int)
    requires S.Sane(sv.sessions) && c !in sv.sessions.objects && a.ip !in sv.sessions.banned && a in sv.sessions.clients
    ensures var r := Step(cat, sv, Packet(a, buffer, c, now));
      r.Some? ==>
        && OthersSwept(sv.sessions, r.value.sessions, a, now)
        && a in r.value.sessions.clients && r.value.sessions.clients[a] == sv.sessions.clients[a]
  {
    hide Deserialized, TakeString, S.Checked, M.RemoveClient, S.Receive;
    var s := S.Touched(sv.sessions, sv.sessions.clients[a], now);
    ScreenSane(sv.sessions, a, buffer, now);
    CheckedSane(s, now);
    ReceiptKeepsClients(S.Checked(s, now), a, buffer);
    CheckedEntries(s, now, a);
    forall b | b != a
      ensures b in S.Checked(s, now).clients <==> IsFresh(sv.sessions, b, now)
      ensures b in S.Checked(s, now).clients ==> S.Checked(s, now).clients[b] == sv.sessions.clients[b]
    {
      CheckedEntries(s, now, b);
      if b in sv.sessions.clients && sv.sessions.clients[b] == sv.sessions.clients[a] {
        S.OneAddress(sv.sessions, a, b);
      }
    }
  }

  lemma ReceiptKeepsClients<C>(s: S.Sessions<C>, a: Address, buffer: seq<byte>)
    requires S.Sane(s)
    ensures a in s.clients ==> s.clients[a] in s.objects
    ensures S.Receive(s, a, buffer).0.clients == s.clients
  {
    hide Deserialized;
  }

  /** Connected are the objects active in the last five seconds. */
  lemma ConnectedMeans<C>(s: S.Sessions<C>, now: int, c: C)
    ensures c in Connected(s, now) <==> c in s.objects && now < s.objects[c].lastActivity + 5000
  {
    hide Seconds;
    if c in s.objects {
      SilenceInMilliseconds(s.objects[c].lastActivity, now);
    }
  }

  /** An unknown sender that asks for a game is offered to it, connected like those that were; it stays exactly if the
      game takes it, and the others are swept. */
  lemma NewcomerSweeps<C>(cat: M.Catalogue, sv: Server<C>, a: Address, buffer: seq<byte>, c: C, now: int, game: text)
    requires S.Sane(sv.sessions) && c !in sv.sessions.objects && a.ip !in sv.sessions.banned
    requires a !in sv.sessions.clients && SR.AsksFor(buffer, game) && game != []
    ensures var r := Step(cat, sv, Packet(a, buffer, c, now));
      var (m, ok) := M.AddClient(cat, sv.manager, game, c, Connected(sv.sessions, now) + {c});
      && r.Some? && r.value.manager == m && OthersSwept(sv.sessions, r.value.sessions, a, now)
      && (a in r.value.sessions.clients <==> ok) && (ok ==> r.value.sessions.clients[a] == c)
  {
    hide Deserialized, TakeString, S.Checked, M.AddClient, Connected, SR.AsksFor;
    SR.NameIsRead(buffer, game);
    var s := S.Registered(sv.sessions, a, c, game, now);
    NewcomerSane(sv.sessions, a, c, game, now);
    NewcomerConnected(sv.sessions, a, c, game, now);
    var ok := M.AddClient(cat, sv.manager, game, c, Connected(s, now)).1;
    var kept := if ok then s else S.Removed(s, a);
    CheckedEntries(kept, now, a);
    forall b | b != a
      ensures b in S.Checked(kept, now).clients <==> IsFresh(sv.sessions, b, now)
      ensures b in S.Checked(kept, now).clients ==> S.Checked(kept, now).clients[b] == sv.sessions.clients[b]
    {
      CheckedEntries(kept, now, b);
    }
  }

  lemma NewcomerConnected<C>(s: S.Sessions<C>, a: Address, c: C, game: text, now: int)
    requires c !in s.objects
    ensures Connected(S.Registered(s, a, c, game, now), now) == Connected(s, now) + {c}
  {
    var s' := S.Registered(s, a, c, game, now);
    assert S.Alive(s', c, now);
    assert forall d :: d in s.objects ==> S.Alive(s', d, now) == S.Alive(s, d, now);
  }
}
