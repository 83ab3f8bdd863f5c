/** The Unity client's Synchronizer: which entities it knows after the packets it received. */
module Synchronizers {
  import opened Wrappers
  import opened Bytes
  import opened Sequences
  import opened Packets
  import opened PayloadStreams
  import opened Components
  import opened ComponentStreams
  import opened GameModel
  import R = Registries

  /** The id that ReqEntitySpawn and ResConnect read, with the name after it; None if they throw. */
  function SpawnId(payload: seq<byte>): Option<nat> {
    if |payload| < 12 || 12 + FromLE(payload[8..12]) > |payload| then None else Some(FromLE(payload[..8]))
  }

  function EntityId(payload: seq<byte>): Option<nat> {
    if |payload| < 8 then None else Some(FromLE(payload[..8]))
  }

  /** How far ReqEntityMoved reads: an id and eighteen floats. */
  const MOVED_READ_SIZE := 80

  /** The known entities after one packet, None if handling it throws. AddEntity ignores a known id, RemoveEntity an
      unknown one; an update or a move of an unknown one throws, and so does a move that ends before its last float. */
  function Apply(known: set<nat>, f: Frame): Option<set<nat>> {
    if f.header.command == REP_CONNECT || f.header.command == REQ_ENTITY_SPAWN then
      match SpawnId(f.payload)
      case None => None
      case Some(e) => Some(known + {e})
    else if f.header.command == REQ_ENTITY_DESTROY then
      match EntityId(f.payload)
      case None => None
      case Some(e) => Some(known - {e})
    else if f.header.command == REQ_ENTITY_UPDATE || f.header.command == REQ_ENTITY_MOVED then
      match EntityId(f.payload)
      case None => None
      case Some(e) => if e in known && (IsMoved(f) ==> |f.payload| >= MOVED_READ_SIZE) then Some(known) else None
    else Some(known)
  }

  predicate IsMoved(f: Frame) {
    f.header.command == REQ_ENTITY_MOVED
  }

  /** Handling the packets until one throws. */
  function Replay(known: set<nat>, fs: seq<Frame>): Option<set<nat>>
    decreases |fs|
  {
    if fs == [] then Some(known) else
    match Apply(known, fs[0])
    case None => None
    case Some(k) => Replay(k, fs[1..])
  }

  /** An exception leaves the known entities alone. */
  function Handled(known: set<nat>, f: Frame): set<nat> {
    match Apply(known, f)
    case None => known
    case Some(k) => k
  }

  /** What is known once all packets are dequeued: an exception ends one Update, and the next one goes on behind it. */
  function Drained(known: set<nat>, fs: seq<Frame>): set<nat>
    decreases |fs|
  {
    if fs == [] then known else Drained(Handled(known, fs[0]), fs[1..])
  }

  // ---------------------------------------------------------------- exceptions

  /** The packet throws exactly if it is a move, and a move is of a known entity: only its length can throw. */
  predicate OnlyMoveThrows(known: set<nat>, f: Frame) {
    && (Apply(known, f).None? <==> IsMoved(f))
    && (IsMoved(f) ==> EntityId(f.payload).Some? && EntityId(f.payload).value in known)
  }

  /** So for each packet in turn. */
  predicate OnlyMovesThrow(known: set<nat>, fs: seq<Frame>)
    decreases |fs|
  {
    fs == [] || (OnlyMoveThrows(known, fs[0]) && OnlyMovesThrow(Handled(known, fs[0]), fs[1..]))
  }

  /** From these known entities the packet leads to those, with no exception but a move's. */
  predicate Follows(known: set<nat>, f: Frame, v: set<nat>) {
    Handled(known, f) == v && OnlyMoveThrows(known, f)
  }

  predicate Rebuilds(known: set<nat>, fs: seq<Frame>, v: set<nat>) {
    Drained(known, fs) == v && OnlyMovesThrow(known, fs)
  }

  lemma {:induction false} RebuildsAppend(known: set<nat>, a: seq<Frame>, u: set<nat>, b: seq<Frame>, v: set<nat>)
    requires Rebuilds(known, a, u)
    ensures Rebuilds(known, a + b, v) <==> Rebuilds(u, b, v)
    decreases |a|
  {
    hide Apply, Handled, OnlyMoveThrows;
    if a == [] {
      Empty(b);
    } else {
      HeadOfSum(a, b);
      RebuildsAppend(Handled(known, a[0]), a[1..], u, b, v);
    }
  }

  lemma {:induction false} ReplayAppend(known: set<nat>, a: seq<Frame>, b: seq<Frame>)
    ensures Replay(known, a + b) == match Replay(known, a) case None => None case Some(k) => Replay(k, b)
    decreases |a|
  {
    hide Apply;
    if a == [] {
      Empty(b);
    } else {
      HeadOfSum(a, b);
      if Apply(known, a[0]).Some? {
        ReplayAppend(Apply(known, a[0]).value, a[1..], b);
      }
    }
  }

  lemma ReplayOne(known: set<nat>, f: Frame)
    ensures Replay(known, [f]) == Apply(known, f)
  {
    assert [f][1..] == [];
  }

  lemma RebuildsOne(known: set<nat>, f: Frame, v: set<nat>)
    ensures Rebuilds(known, [f], v) <==> Follows(known, f, v)
  {
    hide Handled, OnlyMoveThrows;
    assert Drained(Handled(known, f), []) == Handled(known, f) && OnlyMovesThrow(Handled(known, f), []);
    assert [f][1..] == [];
  }

  /** The packet at i is handled after those before it. */
  lemma {:induction false} ThrowsAt(known: set<nat>, fs: seq<Frame>, i: nat)
    requires OnlyMovesThrow(known, fs) && i < |fs|
    ensures OnlyMoveThrows(Drained(known, fs[..i]), fs[i])
    decreases i
  {
    hide Handled, OnlyMoveThrows;
    if i > 0 {
      ThrowsAt(Handled(known, fs[0]), fs[1..], i - 1);
      assert fs[1..][..i - 1] == fs[..i][1..];
    }
  }

  /** So without a single exception exactly if nothing moved. */
  lemma {:induction false} ReplayNeedsStillness(known: set<nat>, fs: seq<Frame>)
    requires OnlyMovesThrow(known, fs)
    ensures Replay(known, fs) == if exists f :: f in fs && IsMoved(f) then None else Some(Drained(known, fs))
    decreases |fs|
  {
    hide Apply, IsMoved;
    if fs != [] {
      assert fs[0] in fs;
      assert forall f :: f in fs <==> f == fs[0] || f in fs[1..];
      if Apply(known, fs[0]).Some? {
        ReplayNeedsStillness(Handled(known, fs[0]), fs[1..]);
      }
    }
  }

  /** What a client makes of these packets: handling them all, each exception ending one Update, it knows exactly v;
      exactly the moves throw, each of them of an entity known by then; and so it gets there without an exception
      exactly if nothing moved. */
  ghost predicate ReplaysTo(fs: seq<Frame>, v: set<nat>) {
    && Drained({}, fs) == v
    && (forall i :: 0 <= i < |fs| ==> OnlyMoveThrows(Drained({}, fs[..i]), fs[i]))
    && Replay({}, fs) == if exists f :: f in fs && IsMoved(f) then None else Some(v)
  }

  lemma RebuildsMeans(fs: seq<Frame>, v: set<nat>)
    requires Rebuilds({}, fs, v)
    ensures ReplaysTo(fs, v)
  {
    hide OnlyMoveThrows, Drained, Replay, IsMoved;
    ReplayNeedsStillness({}, fs);
    forall i | 0 <= i < |fs|
      ensures OnlyMoveThrows(Drained({}, fs[..i]), fs[i])
    {
      ThrowsAt({}, fs, i);
    }
  }

  // ---------------------------------------------------------------- what the game's packets do

  lemma VersionIsIgnored(known: set<nat>, f: Frame, api: nibble, v: set<nat>)
    ensures Follows(known, WithApi(f, api), v) <==> Follows(known, f, v)
  {
  }

  lemma FrameOf(api: nibble, command: byte, stamp: u64, fields: seq<Field>)
    ensures var f := WriteAll(Blank(api, command, stamp), fields);
      && f.payload == EncodedAll(fields)
      && f.header == Header(LOW, api, command, |f.payload| % 0x1_0000, stamp)
  {
    hide WriteAll, EncodedAll;
    WriteAllAppends(Blank(api, command, stamp), fields);
    Empty(EncodedAll(fields));
  }

  lemma IdReadsBack(e: nat, rest: seq<Field>)
    requires e <= R.SIZE_MAX
    ensures var p := EncodedAll([IdField(e)] + rest); |p| >= 8 && FromLE(p[..8]) == e
  {
    HeadOfSum([IdField(e)], rest);
    Empty(rest);
    PartsOfSum(ToLE(8, e), EncodedAll(rest));
    ReadBack64(e);
  }

  lemma NameReadsBack(e: nat, name: text, rest: seq<Field>)
    requires e <= R.SIZE_MAX && |name| <= INT_MAX
    ensures SpawnId(EncodedAll([IdField(e), Str(name)] + rest)) == Some(e)
  {
    var tail := [Str(name)] + rest;
    assert [IdField(e), Str(name)] + rest == [IdField(e)] + tail;
    IdReadsBack(e, tail);
    NamePart(e, name, rest);
    ReadBack32(|name|);
  }

  lemma NamePart(e: nat, name: text, rest: seq<Field>)
    ensures var p := EncodedAll([IdField(e)] + ([Str(name)] + rest));
      |p| >= 12 + |name| && p[8..12] == ToLE(4, |name|)
  {
    HeadOfSum([IdField(e)], [Str(name)] + rest);
    Empty([Str(name)] + rest);
    HeadOfSum([Str(name)], rest);
    Empty(rest);
    var n, s, r := ToLE(8, e), ToLE(4, |name|) + name, EncodedAll(rest);
    assert (n + (s + r))[8..12] == s[..4] == ToLE(4, |name|);
  }

  lemma SpawnAdds(known: set<nat>, api: nibble, e: nat, name: text, entity: Entity, stamp: u64)
    requires e <= R.SIZE_MAX && |name| <= INT_MAX
    ensures Apply(known, SpawnFrame(api, e, name, entity, stamp)) == Some(known + {e})
    ensures Follows(known, SpawnFrame(api, e, name, entity, stamp), known + {e})
  {
    hide WriteAll, EncodedAll, StreamFields, SpawnId, EntityId;
    FrameOf(api, REQ_ENTITY_SPAWN, stamp, [IdField(e), Str(name)] + StreamFields(ORDER, entity));
    NameReadsBack(e, name, StreamFields(ORDER, entity));
  }

  lemma ConnectAdds(known: set<nat>, api: nibble, e: nat, name: text, scene: text, stamp: u64)
    requires e <= R.SIZE_MAX && |name| <= INT_MAX
    ensures Apply(known, ConnectFrame(api, e, name, scene, stamp)) == Some(known + {e})
    ensures Follows(known, ConnectFrame(api, e, name, scene, stamp), known + {e})
  {
    hide WriteAll, EncodedAll, SpawnId, EntityId;
    assert [IdField(e), Str(name), Str(scene)] == [IdField(e), Str(name)] + [Str(scene)];
    FrameOf(api, REP_CONNECT, stamp, [IdField(e), Str(name), Str(scene)]);
    NameReadsBack(e, name, [Str(scene)]);
  }

  lemma DestroyRemoves(known: set<nat>, api: nibble, e: nat, stamp: u64)
    requires e <= R.SIZE_MAX
    ensures Apply(known, DestroyFrame(api, e, stamp)) == Some(known - {e})
    ensures Follows(known, DestroyFrame(api, e, stamp), known - {e})
  {
    hide WriteAll, EncodedAll;
    FrameOf(api, REQ_ENTITY_DESTROY, stamp, [IdField(e)]);
    Empty([IdField(e)]);
    IdReadsBack(e, []);
  }

  lemma HeartbeatIsIgnored(known: set<nat>, request: Frame, stamp: u64)
    ensures Follows(known, HeartbeatReply(request, stamp), known)
  {
  }

  /** The server's MOVED packet carries sixteen floats, so a reader of eighteen always runs past its end. */
  lemma MovedIsTooShort(api: nibble, e: nat, p: Pose, stamp: u64)
    requires IsPose(p)
    ensures |MovedFrame(api, e, p, stamp).payload| == 72 < MOVED_READ_SIZE
  {
    hide WriteAll, EncodedAll, Floats;
    var (o, r, s) := (p.transform.position, p.transform.rotation, p.transform.scale);
    var (v, a) := (p.movable.velocity, p.movable.acceleration);
    var xs := [o.x, o.y, o.z, r.x, r.y, r.z, r.w, s.x, s.y, s.z, v.x, v.y, v.z, a.x, a.y, a.z];
    FrameOf(api, REQ_ENTITY_MOVED, stamp, [IdField(e)] + Floats(xs));
    IdPart(e, Floats(xs));
    FloatsSize(xs);
  }

  /** So it always throws, on a known entity for its length alone. */
  lemma MovedThrows(known: set<nat>, api: nibble, e: nat, p: Pose, stamp: u64)
    requires e <= R.SIZE_MAX && IsPose(p)
    ensures Apply(known, MovedFrame(api, e, p, stamp)) == None
    ensures Follows(known, MovedFrame(api, e, p, stamp), known) <==> e in known
  {
    hide WriteAll, EncodedAll, Floats;
    var (o, r, s) := (p.transform.position, p.transform.rotation, p.transform.scale);
    var (v, a) := (p.movable.velocity, p.movable.acceleration);
    var floats := Floats([o.x, o.y, o.z, r.x, r.y, r.z, r.w, s.x, s.y, s.z, v.x, v.y, v.z, a.x, a.y, a.z]);
    FrameOf(api, REQ_ENTITY_MOVED, stamp, [IdField(e)] + floats);
    IdReadsBack(e, floats);
    MovedIsTooShort(api, e, p, stamp);
  }

  lemma IdPart(e: nat, rest: seq<Field>)
    ensures |EncodedAll([IdField(e)] + rest)| == 8 + |EncodedAll(rest)|
  {
    HeadOfSum([IdField(e)], rest);
    Empty(rest);
  }

  lemma {:induction false} FloatsSize(xs: seq<f32>)
    ensures |EncodedAll(Floats(xs))| == 4 * |xs|
    decreases |xs|
  {
    if xs != [] {
      FloatsSize(xs[1..]);
      assert Floats(xs)[1..] == Floats(xs[1..]);
    }
  }
}
