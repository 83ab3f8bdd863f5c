/** What leaves a send queue is what the client splits out of the datagrams, heartbeat by heartbeat. */
module Transport {
  import opened Wrappers
  import opened Bytes
  import opened Sequences
  import opened Packets
  import opened PayloadStreams
  import opened Components
  import opened ComponentStreams
  import opened GameModel
  import opened Synchronizers
  import opened Replication
  import C = ClientApi

  // ---------------------------------------------------------------- datagrams

  function Flattened(batches: seq<seq<Frame>>): seq<Frame> {
    if batches == [] then [] else batches[0] + Flattened(batches[1..])
  }

  /** The client's splitter on each datagram in turn. */
  function Recovered(datagrams: seq<seq<byte>>): Result<seq<Frame>, RejectReason> {
    if datagrams == [] then Success([]) else
    match C.Split(datagrams[0])
    case Failure(e) => Failure(e)
    case Success(ps) => C.After(ps, Recovered(datagrams[1..]))
  }

  predicate Batch(datagram: seq<byte>, batch: seq<Frame>) {
    0 < |batch| <= MAX_MESSAGES && datagram == C.Joined(batch)
  }

  predicate Carries(datagrams: seq<seq<byte>>, batches: seq<seq<Frame>>) {
    |batches| == |datagrams| && forall i :: 0 <= i < |datagrams| ==> Batch(datagrams[i], batches[i])
  }

  /** The packets sent so far went out in order, one to twenty in each datagram. */
  ghost predicate Carried(p: Peer) {
    exists batches :: Carries(p.datagrams, batches) && Flattened(batches) == p.sent
  }

  lemma {:induction false} FlattenedAppend(batches: seq<seq<Frame>>, batch: seq<Frame>)
    ensures Flattened(batches + [batch]) == Flattened(batches) + batch
    decreases |batches|
  {
    if batches == [] {
      assert [batch][1..] == [];
      Empty([batch]);
      Empty(batch);
    } else {
      FlattenedAppend(batches[1..], batch);
      HeadOfSum(batches, [batch]);
      Associative(batches[0], Flattened(batches[1..]), batch);
    }
  }

  lemma CarriesMore(datagrams: seq<seq<byte>>, batches: seq<seq<Frame>>, batch: seq<Frame>)
    requires Carries(datagrams, batches) && 0 < |batch| <= MAX_MESSAGES
    ensures Carries(datagrams + [C.Joined(batch)], batches + [batch])
  {
    hide C.Joined;
  }

  lemma FlushedCarries(p: Peer)
    requires Carried(p)
    ensures Carried(Flushed(p))
  {
    hide C.Joined, Flattened, Carries;
    var batches :| Carries(p.datagrams, batches) && Flattened(batches) == p.sent;
    var n := if |p.queue| < MAX_MESSAGES then |p.queue| else MAX_MESSAGES;
    if n > 0 {
      FlattenedAppend(batches, p.queue[..n]);
      CarriesMore(p.datagrams, batches, p.queue[..n]);
    }
  }

  lemma {:induction false} RecoveredOfBatches(datagrams: seq<seq<byte>>, batches: seq<seq<Frame>>)
    requires Carries(datagrams, batches)
    ensures C.AllReadable(Flattened(batches)) ==> Recovered(datagrams) == Success(Flattened(batches))
    decreases |datagrams|
  {
    hide C.Split, C.Joined, C.Readable;
    if datagrams != [] && C.AllReadable(Flattened(batches)) {
      assert Batch(datagrams[0], batches[0]);
      C.SplitOfJoined(batches[0]);
      RecoveredOfBatches(datagrams[1..], batches[1..]);
    }
  }

  lemma {:induction false} RecoveredIsReadable(datagrams: seq<seq<byte>>)
    ensures Recovered(datagrams).Success? ==> C.AllReadable(Recovered(datagrams).value)
    decreases |datagrams|
  {
    hide C.Split, C.Joined, C.Readable;
    if datagrams != [] && C.Split(datagrams[0]).Success? {
      C.JoinedOfSplit(datagrams[0]);
      RecoveredIsReadable(datagrams[1..]);
    }
  }

  /** The client recovers exactly the packets sent, in order, exactly when each of them is readable. */
  lemma RecoversWhatWasSent(p: Peer)
    requires Carried(p)
    ensures Recovered(p.datagrams) == Success(p.sent) <==> C.AllReadable(p.sent)
  {
    hide C.AllReadable, Recovered;
    var batches :| Carries(p.datagrams, batches) && Flattened(batches) == p.sent;
    RecoveredOfBatches(p.datagrams, batches);
    RecoveredIsReadable(p.datagrams);
  }

  // ---------------------------------------------------------------- the packets a game queues

  /** Built by the packet operators under a command of the protocol. */
  predicate Regular(f: Frame) {
    Consistent(f) && f.header.command < MAX_COMMAND_ID
  }

  /** Such a packet of version 1 is readable unless its payload is too long for the 16-bit length. */
  lemma RegularIsReadable(f: Frame)
    requires Regular(f)
    ensures C.Readable(f) <==> f.header.api == V_1 && |f.payload| < 0x1_0000
  {
  }

  /** What the game tells players, other than heartbeat replies. */
  predicate News(f: Frame) {
    Regular(f) && f.header.command != REP_HEARTBEAT
  }

  lemma NewsOf(api: nibble, command: byte, stamp: u64, fields: seq<Field>)
    requires command < MAX_COMMAND_ID && command != REP_HEARTBEAT
    ensures News(WriteAll(Blank(api, command, stamp), fields))
      && WriteAll(Blank(api, command, stamp), fields).header.api == api
  {
    hide WriteAll, EncodedAll;
    FrameOf(api, command, stamp, fields);
    WriteAllAppends(Blank(api, command, stamp), fields);
  }

  lemma SpawnNews(api: nibble, e: nat, name: text, entity: Entity, stamp: u64)
    ensures News(SpawnFrame(api, e, name, entity, stamp)) && SpawnFrame(api, e, name, entity, stamp).header.api == api
  {
    hide WriteAll, StreamFields;
    NewsOf(api, REQ_ENTITY_SPAWN, stamp, [IdField(e), Str(name)] + StreamFields(ORDER, entity));
  }

  lemma ConnectNews(api: nibble, e: nat, name: text, scene: text, stamp: u64)
    ensures News(ConnectFrame(api, e, name, scene, stamp)) && ConnectFrame(api, e, name, scene, stamp).header.api == api
  {
    hide WriteAll;
    NewsOf(api, REP_CONNECT, stamp, [IdField(e), Str(name), Str(scene)]);
  }

  lemma DestroyNews(api: nibble, e: nat, stamp: u64)
    ensures News(DestroyFrame(api, e, stamp))
  {
    hide WriteAll;
    NewsOf(api, REQ_ENTITY_DESTROY, stamp, [IdField(e)]);
  }

  lemma MovedNews(api: nibble, e: nat, p: Pose, stamp: u64)
    requires IsPose(p)
    ensures News(MovedFrame(api, e, p, stamp))
  {
    hide WriteAll, Floats;
    var (o, r, s) := (p.transform.position, p.transform.rotation, p.transform.scale);
    var (v, a) := (p.movable.velocity, p.movable.acceleration);
    NewsOf(api, REQ_ENTITY_MOVED, stamp,
           [IdField(e)] + Floats([o.x, o.y, o.z, r.x, r.y, r.z, r.w, s.x, s.y, s.z, v.x, v.y, v.z, a.x, a.y, a.z]));
  }

  lemma {:induction false} VisibleNews(t: Scene, n: nat, self: nat, api: nibble, stamp: u64)
    ensures forall f :: f in VisibleFrames(t, n, self, api, stamp) ==> News(f) && f.header.api == api
    decreases n
  {
    hide SpawnFrame, News, EntityOf, IsVisible;
    if n > 0 {
      VisibleNews(t, n - 1, self, api, stamp);
      if IsVisible(t, n - 1) {
        TagOfVisible(t, n - 1);
        SpawnNews(api, n - 1, TagOf(t.cells[(TAG, n - 1)]), EntityOf(t, n - 1), stamp);
      }
    }
  }

  lemma TagOfVisible(t: Scene, e: nat)
    requires IsVisible(t, e)
    ensures (TAG, e) in t.cells
  {
  }

  // ---------------------------------------------------------------- heartbeats

  /** The versions of the packets with this command, in order. */
  function Apis(fs: seq<Frame>, command: byte): seq<nibble> {
    if fs == [] then [] else
    (if fs[0].header.command == command then [fs[0].header.api] else []) + Apis(fs[1..], command)
  }

  lemma {:induction false} ApisAppend(a: seq<Frame>, b: seq<Frame>, command: byte)
    ensures Apis(a + b, command) == Apis(a, command) + Apis(b, command)
    decreases |a|
  {
    if a == [] {
      Empty(b);
      Empty(Apis(b, command));
    } else {
      ApisAppend(a[1..], b, command);
      HeadOfSum(a, b);
      Associative(if a[0].header.command == command then [a[0].header.api] else [], Apis(a[1..], command),
                  Apis(b, command));
    }
  }

  lemma {:induction false} NoApis(fs: seq<Frame>, command: byte)
    requires forall f :: f in fs ==> f.header.command != command
    ensures Apis(fs, command) == []
    decreases |fs|
  {
    if fs != [] {
      assert fs[0] in fs;
      NoApis(fs[1..], command);
    }
  }

  /** Heartbeats answered so far, then heartbeats still waiting. */
  function Beats(p: Peer): seq<nibble> {
    Apis(Log(p), REP_HEARTBEAT) + Apis(p.inbox, REQ_HEARTBEAT)
  }

  // ---------------------------------------------------------------- a player of version 1

  predicate OfVersion1(fs: seq<Frame>) {
    forall f :: f in fs ==> f.header.api == V_1
  }

  predicate AllRegular(fs: seq<Frame>) {
    forall f :: f in fs ==> Regular(f)
  }

  ghost predicate Tidy(p: Peer) {
    && p.api == V_1 && OfVersion1(p.inbox) && OfVersion1(p.sent) && OfVersion1(p.queue)
    && AllRegular(p.sent) && AllRegular(p.queue) && Carried(p)
  }

  /** For a player of version 1 only a payload beyond 16 bits can get lost in the batches. */
  lemma TidyIsRecovered(p: Peer)
    requires Tidy(p)
    ensures Recovered(p.datagrams) == Success(p.sent) <==> forall f :: f in p.sent ==> |f.payload| < 0x1_0000
  {
    hide Carried, Recovered, C.Readable, Regular;
    RecoversWhatWasSent(p);
    forall f | f in p.sent
      ensures C.Readable(f) <==> |f.payload| < 0x1_0000
    {
      RegularIsReadable(f);
    }
  }

  /** p' is p with news queued in the player's own version. */
  predicate Grew(p: Peer, p': Peer) {
    && p' == p.(queue := p'.queue) && |p.queue| <= |p'.queue| && p'.queue[..|p.queue|] == p.queue
    && forall f :: f in p'.queue[|p.queue|..] ==> News(f) && f.header.api == p.api
  }

  /** Order, versions and lengths are as they should be still, and no heartbeat is lost, added or reordered. */
  ghost predicate Kept(p: Peer, p': Peer) {
    (Carried(p) ==> Carried(p')) && (Tidy(p) ==> Tidy(p')) && Beats(p') == Beats(p)
  }

  lemma GrewTwice(a: Peer, b: Peer, c: Peer)
    requires Grew(a, b) && Grew(b, c)
    ensures Grew(a, c)
  {
    hide News;
    var n, m := |a.queue|, |b.queue|;
    assert c.queue[n..] == b.queue[n..] + c.queue[m..];
    assert c.queue[..n] == b.queue[..n];
  }

  lemma GrewIsKept(p: Peer, p': Peer)
    requires Grew(p, p')
    ensures Kept(p, p')
  {
    hide News;
    var more := p'.queue[|p.queue|..];
    assert p'.queue == p.queue + more;
    Associative(p.sent, p.queue, more);
    ApisAppend(Log(p), more, REP_HEARTBEAT);
    NewsMeans(more);
    NoApis(more, REP_HEARTBEAT);
    Empty(Apis(Log(p), REP_HEARTBEAT));
  }

  lemma NewsMeans(fs: seq<Frame>)
    requires forall f :: f in fs ==> News(f)
    ensures AllRegular(fs) && forall f :: f in fs ==> f.header.command != REP_HEARTBEAT
  {
  }

  lemma DeliverGrew(p: Peer, f: Frame)
    requires News(f) && f.header.api == p.api
    ensures Grew(p, Deliver(p, f))
  {
    hide News;
    PartsOfSum(p.queue, [f]);
  }

  lemma BroadcastGrew<K>(w: World<K>, connected: set<K>, scene: text, f: Frame, except: Option<K>, c: K)
    requires c in w.peers && News(f)
    ensures c in Broadcast(w, connected, scene, f, except).peers
    ensures Grew(w.peers[c], Broadcast(w, connected, scene, f, except).peers[c])
  {
    hide Hears, Grew;
    VersionKeepsNews(f, w.peers[c].api);
    DeliverGrew(w.peers[c], WithApi(f, w.peers[c].api));
    GrewNothing(w.peers[c]);
  }

  lemma VersionKeepsNews(f: Frame, api: nibble)
    requires News(f)
    ensures News(WithApi(f, api))
  {
  }

  lemma GrewNothing(p: Peer)
    ensures Grew(p, p) && Kept(p, p)
  {
  }
}
