/** What the game's packets say, read back from their bytes at the offsets of the layout. */
module PacketContents {
  import opened Wrappers
  import opened Bytes
  import opened Sequences
  import opened Packets
  import opened PayloadStreams
  import opened Components
  import opened ComponentStreams
  import opened StreamReaders
  import opened GameModel
  import opened Synchronizers
  import R = Registries

  // ---------------------------------------------------------------- poses

  /** The packet tells a client of this version the pose of entity e: its id, position, rotation, scale, velocity and
      acceleration, as they follow each other in its 72 bytes. */
  predicate TellsPose(f: Frame, api: nibble, e: nat, p: Pose, stamp: u64) {
    && IsPose(p) && f.header == Header(LOW, api, 26, 72, stamp) && |f.payload| == 72
    && (e <= R.SIZE_MAX ==> WordNo(f.payload, 0) == e)
    && Vec3At(f.payload, 2) == p.transform.position && QuatAt(f.payload, 5) == p.transform.rotation
    && Vec3At(f.payload, 9) == p.transform.scale
    && Vec3At(f.payload, 12) == p.movable.velocity && Vec3At(f.payload, 15) == p.movable.acceleration
  }

  /** Behind eight bytes the floats of a list are two places on. */
  lemma FloatsBehind(id: seq<byte>, xs: seq<f32>)
    requires |id| == 8
    ensures var b := id + EncodedAll(Floats(xs));
      |b| == 8 + 4 * |xs| && forall i: nat :: 2 <= i < |xs| + 2 ==> FloatNo(b, i) == xs[i - 2]
  {
    hide EncodedAll, Floats, FromLE;
    var all := EncodedAll(Floats(xs));
    FloatsAt(xs, []);
    Empty(all);
    forall i: nat | 2 <= i < |xs| + 2
      ensures FloatNo(id + all, i) == xs[i - 2]
    {
      SliceOfSum(id, all, 4 * i, 4 * i + 4);
      assert FloatNo(all, i - 2) == xs[i - 2];
    }
  }

  lemma IdBefore(e: nat, rest: seq<byte>)
    ensures e <= R.SIZE_MAX ==> WordNo(ToLE(8, e) + rest, 0) == e
  {
    hide ToLE, FromLE;
    PartsOfSum(ToLE(8, e), rest);
    assert (ToLE(8, e) + rest)[8 * 0..8 * 0 + 8] == ToLE(8, e);
    if e <= R.SIZE_MAX {
      ReadBack64(e);
    }
  }

  lemma IdThenMore(e: nat, fields: seq<Field>)
    ensures EncodedAll([IdField(e)] + fields) == ToLE(8, e) + EncodedAll(fields)
  {
    HeadOfSum([IdField(e)], fields);
    Empty(fields);
  }

  lemma MovedTells(api: nibble, e: nat, p: Pose, stamp: u64)
    requires IsPose(p)
    ensures TellsPose(WithApi(MovedFrame(V_1, e, p, stamp), api), api, e, p, stamp)
  {
    hide WriteAll, EncodedAll, Floats, FloatNo, WordNo, ToLE;
    var (o, r, s) := (p.transform.position, p.transform.rotation, p.transform.scale);
    var (v, a) := (p.movable.velocity, p.movable.acceleration);
    var xs := [o.x, o.y, o.z, r.x, r.y, r.z, r.w, s.x, s.y, s.z, v.x, v.y, v.z, a.x, a.y, a.z];
    FrameOf(V_1, REQ_ENTITY_MOVED, stamp, [IdField(e)] + Floats(xs));
    IdThenMore(e, Floats(xs));
    FloatsBehind(ToLE(8, e), xs);
    IdBefore(e, EncodedAll(Floats(xs)));
  }

  // ---------------------------------------------------------------- entities

  /** The packet tells of entity e under this name, with exactly these components, each with all its sent members. */
  predicate TellsSpawn(f: Frame, api: nibble, e: nat, name: text, sent: seq<Component>, stamp: u64) {
    && f.header == Header(LOW, api, 20, |f.payload| % 0x1_0000, stamp) && |f.payload| >= 8
    && WordNo(f.payload, 0) == e
    && match ReadText(f.payload[8..])
       case Short => false
       case Found(read, rest) => read == name && ReadStream(rest) == Some(sent)
  }

  /** The packet tells a newcomer its entity, its template and its scene. */
  predicate TellsConnect(f: Frame, api: nibble, e: nat, blueprint: text, scene: text, stamp: u64) {
    && f.header == Header(LOW, api, 1, |f.payload| % 0x1_0000, stamp) && |f.payload| >= 8
    && WordNo(f.payload, 0) == e
    && match ReadText(f.payload[8..])
       case Short => false
       case Found(read, rest) => read == blueprint && ReadText(rest) == Found(scene, [])
  }

  predicate TellsDestroy(f: Frame, api: nibble, e: nat, stamp: u64) {
    f.header == Header(LOW, api, 24, 8, stamp) && |f.payload| == 8 && WordNo(f.payload, 0) == e
  }

  lemma SpawnTells(api: nibble, e: nat, name: text, entity: Entity, stamp: u64)
    requires e <= R.SIZE_MAX && |name| <= INT_MAX && WellTyped(entity)
    ensures TellsSpawn(SpawnFrame(api, e, name, entity, stamp), api, e, name, SentOf(SENT, entity), stamp)
  {
    hide WriteAll, EncodedAll, StreamFields, WordNo, ToLE, ReadText, ReadStream, SentOf, WellTyped, FromLE;
    var stream := StreamFields(ORDER, entity);
    var named := [Str(name)] + stream;
    Associative([IdField(e)], [Str(name)], stream);
    assert [IdField(e)] + [Str(name)] == [IdField(e), Str(name)];
    FrameOf(api, REQ_ENTITY_SPAWN, stamp, [IdField(e)] + named);
    IdThenMore(e, named);
    IdBefore(e, EncodedAll(named));
    EncodedAllAppend([Str(name)], stream);
    PartsOfSum(ToLE(8, e), EncodedAll(named));
    TextAt(name, EncodedAll(stream));
    EntityReads(entity);
  }

  lemma ConnectTells(api: nibble, e: nat, blueprint: text, scene: text, stamp: u64)
    requires e <= R.SIZE_MAX && |blueprint| <= INT_MAX && |scene| <= INT_MAX
    ensures TellsConnect(ConnectFrame(api, e, blueprint, scene, stamp), api, e, blueprint, scene, stamp)
  {
    hide WriteAll, EncodedAll, WordNo, ToLE, ReadText, FromLE;
    var named := [Str(blueprint), Str(scene)];
    assert [IdField(e)] + named == [IdField(e), Str(blueprint), Str(scene)];
    FrameOf(api, REP_CONNECT, stamp, [IdField(e)] + named);
    IdThenMore(e, named);
    IdBefore(e, EncodedAll(named));
    assert [Str(blueprint)] + [Str(scene)] == named;
    EncodedAllAppend([Str(blueprint)], [Str(scene)]);
    PartsOfSum(ToLE(8, e), EncodedAll(named));
    TextAt(blueprint, EncodedAll([Str(scene)]));
    Empty(EncodedAll([Str(scene)]));
    TextAt(scene, []);
  }

  lemma ConnectVersion(api: nibble, e: nat, blueprint: text, scene: text, stamp: u64)
    ensures ConnectFrame(api, e, blueprint, scene, stamp).header.api == api
  {
    hide WriteAll, EncodedAll;
    FrameOf(api, REP_CONNECT, stamp, [IdField(e), Str(blueprint), Str(scene)]);
  }

  lemma DestroyTells(api: nibble, e: nat, stamp: u64)
    requires e <= R.SIZE_MAX
    ensures TellsDestroy(DestroyFrame(api, e, stamp), api, e, stamp)
  {
    hide WriteAll, EncodedAll, WordNo, ToLE, FromLE;
    FrameOf(api, REQ_ENTITY_DESTROY, stamp, [IdField(e)]);
    Empty([IdField(e)]);
    IdThenMore(e, []);
    NoFieldsNoBytes();
    Empty(ToLE(8, e));
    IdBefore(e, []);
  }

  // ---------------------------------------------------------------- who is told

  function Newest(p: Peer): Frame
    requires p.queue != []
  {
    p.queue[|p.queue| - 1]
  }

  /** One more packet waits for the client; nothing else about it changed. */
  predicate OneMore(p: Peer, p': Peer) {
    p'.queue != [] && p' == p.(queue := p.queue + [Newest(p')])
  }

  /** Each connected player of the scene, without the one left out, got exactly one packet, of its own version, and it
      tells what it should; nobody else got any. */
  ghost predicate HearersTold<C>(w: World<C>, w': World<C>, connected: set<C>, scene: text, except: Option<C>,
                                 tells: (Frame, nibble) -> bool) {
    && w'.players == w.players && w'.live == w.live && w'.table == w.table && w'.peers.Keys == w.peers.Keys
    && forall d :: d in w.peers ==>
         if d in w.players && d in connected && w.peers[d].scene == scene && except != Some(d)
         then OneMore(w.peers[d], w'.peers[d]) && tells(Newest(w'.peers[d]), w.peers[d].api)
         else w'.peers[d] == w.peers[d]
  }

  lemma BroadcastTells<C>(w: World<C>, connected: set<C>, scene: text, f: Frame, except: Option<C>,
                          tells: (Frame, nibble) -> bool)
    requires forall api: nibble :: tells(WithApi(f, api), api)
    ensures HearersTold(w, Broadcast(w, connected, scene, f, except), connected, scene, except, tells)
  {
    hide WithApi;
    forall d | d in w.peers
      ensures Deliver(w.peers[d], WithApi(f, w.peers[d].api)).queue != []
      ensures Newest(Deliver(w.peers[d], WithApi(f, w.peers[d].api))) == WithApi(f, w.peers[d].api)
      ensures OneMore(w.peers[d], Deliver(w.peers[d], WithApi(f, w.peers[d].api)))
    {
      OwnVersion(f, w.peers[d].api);
    }
  }

  lemma OwnVersion(f: Frame, api: nibble)
    ensures WithApi(f, api).header.api == api
  {
  }

  /** The components of an entity, slot by slot. */
  ghost predicate Holds(t: Scene, e: nat, entity: Entity) {
    forall k: Kind :: R.Lookup(t, k, e) == if k in entity then Some(entity[k]) else None
  }

  lemma HoldsEntity(t: Scene, e: nat)
    ensures Holds(t, e, EntityOf(t, e))
    ensures forall entity :: Holds(t, e, entity) ==> entity == EntityOf(t, e)
  {
    forall entity | Holds(t, e, entity)
      ensures entity == EntityOf(t, e)
    {
      forall k: Kind
        ensures (k in entity <==> k in EntityOf(t, e)) && (k in entity ==> entity[k] == EntityOf(t, e)[k])
      {
        assert R.Lookup(t, k, e) == if k in entity then Some(entity[k]) else None;
      }
    }
  }

  function SpawnOf(e: nat, name: text, entity: Entity, stamp: u64): (Frame, nibble) -> bool {
    (f: Frame, api: nibble) => TellsSpawn(f, api, e, name, SentOf(SENT, entity), stamp)
  }

  lemma SpawnVersions(from: nibble, api: nibble, e: nat, name: text, entity: Entity, stamp: u64)
    requires e <= R.SIZE_MAX && |name| <= INT_MAX && WellTyped(entity)
    ensures var f := SpawnFrame(from, e, name, entity, stamp); SpawnOf(e, name, entity, stamp)(WithApi(f, api), api)
  {
    hide SpawnFrame, ReadText, ReadStream, SentOf, WordNo, WellTyped;
    SpawnTells(from, e, name, entity, stamp);
  }

  function DestroyOf(e: nat, stamp: u64): (Frame, nibble) -> bool {
    (f: Frame, api: nibble) => TellsDestroy(f, api, e, stamp)
  }

  lemma DestroyVersions(from: nibble, api: nibble, e: nat, stamp: u64)
    requires e <= R.SIZE_MAX
    ensures DestroyOf(e, stamp)(WithApi(DestroyFrame(from, e, stamp), api), api)
  {
    hide DestroyFrame, WordNo;
    DestroyTells(from, e, stamp);
  }
}
