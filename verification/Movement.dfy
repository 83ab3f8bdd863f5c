/** What one event of a player does, cell by cell and packet by packet, and what many do. */
module Movements {
  import opened Wrappers
  import opened Bytes
  import opened Sequences
  import opened Packets
  import opened Components
  import opened GameModel
  import opened PacketContents
  import opened UserEvents
  import R = Registries

  // ---------------------------------------------------------------- one update

  /** The movable and the transform of this entity are those of p; every other cell is what it was. */
  ghost predicate PosedAt(t: Scene, t': Scene, e: nat, p: Pose) {
    && t'.dead == t.dead && t'.next == t.next
    && forall k: Kind, x: nat :: R.Lookup(t', k, x) ==
         if x == e && k == MOVABLE_3D then Some(Spatial(p.movable))
         else if x == e && k == TRANSFORM_3D then Some(Spatial(p.transform))
         else R.Lookup(t, k, x)
  }

  function PoseOf(e: nat, p: Pose, stamp: u64): (Frame, nibble) -> bool {
    (f: Frame, api: nibble) => TellsPose(f, api, e, p, stamp)
  }

  /** Each connected player of the scene got exactly one packet, which tells this pose, and nobody else got any. */
  ghost predicate AllTold<C>(w: World<C>, w': World<C>, scene: text, e: nat, p: Pose, connected: set<C>, stamp: u64) {
    HearersTold(w.(table := w'.table), w', connected, scene, None, PoseOf(e, p, stamp))
  }

  lemma MoveTells<C>(w: World<C>, c: C, p: Pose, connected: set<C>, stamp: u64)
    requires c in w.peers && IsPose(p)
    ensures var w', e := Move(w, c, p, connected, stamp), w.peers[c].entity;
      PosedAt(w.table, w'.table, e, p) && AllTold(w, w', w.peers[c].scene, e, p, connected, stamp)
  {
    hide MovedFrame, Told, HearersTold, TellsPose, WithApi, IsPose;
    var w', e := Move(w, c, p, connected, stamp), w.peers[c].entity;
    var f := MovedFrame(V_1, e, p, stamp);
    forall api: nibble
      ensures TellsPose(WithApi(f, api), api, e, p, stamp)
    {
      MovedTells(api, e, p, stamp);
    }
    BroadcastTells(w.(table := w'.table), connected, w.peers[c].scene, f, None,
                   PoseOf(e, p, stamp));
  }

  // ---------------------------------------------------------------- one event

  /** The entity of this player has these three components. */
  ghost predicate Has<C>(w: World<C>, c: C, control: SpatialComponent, p: Pose) {
    && c in w.peers && control.Control? && IsPose(p)
    && R.Lookup(w.table, CONTROL_3D, w.peers[c].entity) == Some(Spatial(control))
    && R.Lookup(w.table, MOVABLE_3D, w.peers[c].entity) == Some(Spatial(p.movable))
    && R.Lookup(w.table, TRANSFORM_3D, w.peers[c].entity) == Some(Spatial(p.transform))
  }

  lemma HasMeans<C>(w: World<C>, c: C, control: SpatialComponent, p: Pose)
    requires Has(w, c, control, p)
    ensures c in w.peers && control.Control? && IsPose(p)
    ensures Controllable(w.table, w.peers[c].entity) == Some((control, p))
  {
  }

  /** The permission that goes with each direction: 0 left, 1 right, 2 up, 3 down, 4 front, 5 back. */
  predicate Permits(control: SpatialComponent, direction: nat)
    requires control.Control? && direction <= 5
  {
    [control.moveLeft, control.moveRight, control.moveUp, control.moveDown, control.moveFront,
     control.moveBack][direction]
  }

  /** One event in a packet: its count, its id and state, and no axis event. */
  function OneEvent(id: byte, state: byte): seq<byte> {
    [1, 0, id, state, 0, 0]
  }

  lemma OneEventWalked(id: byte, state: byte)
    ensures Walked(OneEvent(id, state)) == Some(([Event(id, state)], []))
  {
    var b := OneEvent(id, state);
    assert FromLE(b[..2]) == 1 by { assert b[..2][1..] == [0] && [0][1..] == []; }
    assert FromLE(b[4..6]) == 0 by { assert b[4..6][1..] == [0] && [0][1..] == []; }
    assert EventsAt(b, 2, 1) == [Event(id, state)];
    assert AxesAt(b, 6, 0) == [];
  }

  /** A move of a direction the player's control permits puts the pose that the physics gives it into the two cells; one
      it does not permit leaves the pose. Either way everyone who hears is told once. Other events do nothing. */
  lemma OneEventDoes<C>(ph: Physics, w: World<C>, c: C, control: SpatialComponent, pose: Pose, id: byte, state: byte,
                        connected: set<C>, stamp: u64)
    requires Has(w, c, control, pose)
    ensures var w', e := HandleEvents(ph, w, c, OneEvent(id, state), connected, stamp), w.peers[c].entity;
      var moved := ph.move(pose, Event(id, state));
      if id > 5 then w' == w
      else
        var p := if Permits(control, id) && IsPose(moved) then moved else pose;
        PosedAt(w.table, w'.table, e, p) && AllTold(w, w', w.peers[c].scene, e, p, connected, stamp)
  {
    hide Walked, Move, PosedAt, AllTold, Controllable, OneEvent, Has;
    HasMeans(w, c, control, pose);
    OneEventWalked(id, state);
    var e := Event(id, state);
    assert [e][1..] == [];
    assert LookPoses(ph, control, pose, []) == [];
    if id <= 5 {
      var p := if MayMove(control, e) then PoseKept(pose, ph.move(pose, e)) else pose;
      assert [p][1..] == [] && [p] + [] == [p];
      assert MovePoses(ph, control, pose, [e]) == [p];
      assert LookPoses(ph, control, p, []) == [];
      assert Moves(Move(w, c, p, connected, stamp), c, [], connected, stamp) == Move(w, c, p, connected, stamp);
      MoveTells(w, c, p, connected, stamp);
    } else {
      assert MovePoses(ph, control, pose, [e]) == [];
      Empty<Pose>([]);
    }
  }

  /** A player whose entity lacks one of the three components moves nothing, whatever it sends. */
  lemma NothingToMove<C>(ph: Physics, w: World<C>, c: C, payload: seq<byte>, connected: set<C>, stamp: u64)
    requires c in w.peers
    requires var e := w.peers[c].entity;
      R.Lookup(w.table, CONTROL_3D, e).None? || R.Lookup(w.table, MOVABLE_3D, e).None?
      || R.Lookup(w.table, TRANSFORM_3D, e).None?
    ensures HandleEvents(ph, w, c, payload, connected, stamp) == w
  {
  }

  /** One axis event in a packet. */
  function OneAxis(id: byte, value: u32): seq<byte> {
    [0, 0, 1, 0, id] + ToLE(4, value)
  }

  lemma OneAxisWalked(id: byte, value: u32)
    ensures Walked(OneAxis(id, value)) == Some(([], [EventAxis(id, value)]))
  {
    var b := OneAxis(id, value);
    hide ToLE;
    assert FromLE(b[..2]) == 0 by { assert b[..2][1..] == [0] && [0][1..] == []; }
    assert FromLE(b[2..4]) == 1 by { assert b[2..4][1..] == [0] && [0][1..] == []; }
    assert EventsAt(b, 2, 0) == [];
    assert b[5..9] == ToLE(4, value);
    ReadBack32(value);
    assert AxesAt(b, 4, 1) == [EventAxis(id, value)];
  }

  /** A look to the right (7) or up (8) that the control permits is one update with the pose the physics gives; any
      other axis event does nothing. */
  lemma OneAxisDoes<C>(ph: Physics, w: World<C>, c: C, control: SpatialComponent, pose: Pose, id: byte, value: u32,
                       connected: set<C>, stamp: u64)
    requires Has(w, c, control, pose)
    ensures control.Control? && IsPose(pose) && c in w.peers
    ensures var w', e := HandleEvents(ph, w, c, OneAxis(id, value), connected, stamp), w.peers[c].entity;
      var looked := ph.look(pose, EventAxis(id, value));
      if (id == 7 && control.lookRight) || (id == 8 && control.lookUp) then
        var p := if IsPose(looked) then looked else pose;
        PosedAt(w.table, w'.table, e, p) && AllTold(w, w', w.peers[c].scene, e, p, connected, stamp)
      else w' == w
  {
    hide Walked, Move, PosedAt, AllTold, Controllable, OneAxis, Has;
    HasMeans(w, c, control, pose);
    OneAxisWalked(id, value);
    var x := EventAxis(id, value);
    assert [x][1..] == [];
    assert MovePoses(ph, control, pose, []) == [];
    Empty(LookPoses(ph, control, pose, [x]));
    assert LookPoses(ph, control, pose, []) == [];
    if MayLook(control, x) {
      var p := PoseKept(pose, ph.look(pose, x));
      assert LookPoses(ph, control, p, []) == [];
      assert LookPoses(ph, control, pose, [x]) == [p] && [p][1..] == [];
      assert Moves(Move(w, c, p, connected, stamp), c, [], connected, stamp) == Move(w, c, p, connected, stamp);
      MoveTells(w, c, p, connected, stamp);
    }
  }

  // ---------------------------------------------------------------- many events

  lemma PosedHas<C>(w: World<C>, c: C, control: SpatialComponent, p: Pose, q: Pose, connected: set<C>, stamp: u64)
    requires Has(w, c, control, p) && IsPose(q)
    ensures c in w.peers && Has(Move(w, c, q, connected, stamp), c, control, q)
  {
    hide MovedFrame, Hears, WithApi;
  }

  lemma Sequel<C>(w: World<C>, c: C, p: Pose, more: seq<Pose>, connected: set<C>, stamp: u64)
    requires c in w.peers && IsPose(p) && forall q :: q in more ==> IsPose(q)
    ensures Moves(w, c, [p] + more, connected, stamp)
      == Moves(Move(w, c, p, connected, stamp), c, more, connected, stamp)
    ensures Moves(w, c, [p], connected, stamp) == Move(w, c, p, connected, stamp)
  {
    hide Move, IsPose;
    HeadOfSum([p], more);
    assert [p][1..] == [] && ([p] + more)[1..] == more;
    assert Moves(Move(w, c, p, connected, stamp), c, [], connected, stamp) == Move(w, c, p, connected, stamp);
  }

  /** What both kinds of events do to a controllable player. */
  lemma Handled<C>(ph: Physics, w: World<C>, c: C, control: SpatialComponent, pose: Pose, es: seq<Event>,
                   xs: seq<EventAxis>, connected: set<C>, stamp: u64)
    requires Has(w, c, control, pose) && |es| < 0x1_0000 && |xs| < 0x1_0000
    ensures c in w.peers && control.Control? && IsPose(pose)
    ensures var moves := MovePoses(ph, control, pose, es);
      && IsPose(LastPose(pose, moves))
      && HandleEvents(ph, w, c, UpdatePayload(es, xs), connected, stamp)
         == Moves(w, c, moves + LookPoses(ph, control, LastPose(pose, moves), xs), connected, stamp)
  {
    hide Walked, UpdatePayload, Moves, MovePoses, LookPoses, Controllable, Has;
    HasMeans(w, c, control, pose);
    WalkReadsBack(es, xs);
    LastIsPose(pose, MovePoses(ph, control, pose, es));
  }

  /** A packet of many events does what its first event does alone, and then what the rest do. */
  lemma EventsInTurn<C>(ph: Physics, w: World<C>, c: C, e: Event, es: seq<Event>, xs: seq<EventAxis>,
                        connected: set<C>, stamp: u64)
    requires c in w.peers && |es| + 1 < 0x1_0000 && |xs| < 0x1_0000
    ensures HandleEvents(ph, w, c, UpdatePayload([e] + es, xs), connected, stamp)
      == HandleEvents(ph, HandleEvents(ph, w, c, UpdatePayload([e], []), connected, stamp), c,
                      UpdatePayload(es, xs), connected, stamp)
  {
    hide UpdatePayload, Has, HandleEvents, Controllable;
    var r := Controllable(w.table, w.peers[c].entity);
    if r.None? {
      Uncontrollable(ph, w, c, UpdatePayload([e] + es, xs), connected, stamp);
      Uncontrollable(ph, w, c, UpdatePayload([e], []), connected, stamp);
      Uncontrollable(ph, w, c, UpdatePayload(es, xs), connected, stamp);
    } else {
      ControllableHas(w, c);
      ControlledInTurn(ph, w, c, r.value.0, r.value.1, e, es, xs, connected, stamp);
    }
  }

  /** Where one move event takes the player. */
  function Moved(ph: Physics, control: SpatialComponent, pose: Pose, e: Event): (q: Pose)
    requires control.Control? && IsPose(pose)
    ensures IsPose(q)
  {
    if MayMove(control, e) then PoseKept(pose, ph.move(pose, e)) else pose
  }

  lemma MoreMoves(ph: Physics, control: SpatialComponent, pose: Pose, e: Event, es: seq<Event>)
    requires control.Control? && IsPose(pose)
    ensures var q := Moved(ph, control, pose, e);
      && MovePoses(ph, control, pose, [e] + es)
         == (if IsMove(e) then [q] + MovePoses(ph, control, q, es) else MovePoses(ph, control, pose, es))
      && MovePoses(ph, control, pose, [e]) == (if IsMove(e) then [q] else [])
  {
    hide MayMove, IsMove, IsPose;
    var q := Moved(ph, control, pose, e);
    assert ([e] + es)[1..] == es && [e][1..] == [];
    assert MovePoses(ph, control, q, []) == [] && MovePoses(ph, control, pose, []) == [];
    Empty([q]);
  }

  lemma ControlledInTurn<C>(ph: Physics, w: World<C>, c: C, control: SpatialComponent, pose: Pose, e: Event,
                            es: seq<Event>, xs: seq<EventAxis>, connected: set<C>, stamp: u64)
    requires c in w.peers && Has(w, c, control, pose) && |es| + 1 < 0x1_0000 && |xs| < 0x1_0000
    ensures HandleEvents(ph, w, c, UpdatePayload([e] + es, xs), connected, stamp)
      == HandleEvents(ph, HandleEvents(ph, w, c, UpdatePayload([e], []), connected, stamp), c,
                      UpdatePayload(es, xs), connected, stamp)
  {
    hide Moves, Move, MovePoses, LookPoses, UpdatePayload, Has, HandleEvents, LastPose, Moved, IsMove;
    Handled(ph, w, c, control, pose, [e] + es, xs, connected, stamp);
    Handled(ph, w, c, control, pose, [e], [], connected, stamp);
    MoreMoves(ph, control, pose, e, es);
    if IsMove(e) {
      var q := Moved(ph, control, pose, e);
      var moves := MovePoses(ph, control, q, es);
      PosedHas(w, c, control, pose, q, connected, stamp);
      Handled(ph, Move(w, c, q, connected, stamp), c, control, q, es, xs, connected, stamp);
      var looks := LookPoses(ph, control, LastPose(q, moves), xs);
      LastOfMore(pose, q, moves);
      NoLooks(ph, control, LastPose(pose, [q]));
      Empty([q]);
      Associative([q], moves, looks);
      Sequel(w, c, q, moves + looks, connected, stamp);
    } else {
      Handled(ph, w, c, control, pose, es, xs, connected, stamp);
      NoLooks(ph, control, LastPose(pose, []));
      Empty<Pose>([]);
      NoMoves(w, c, connected, stamp);
    }
  }

  lemma Uncontrollable<C>(ph: Physics, w: World<C>, c: C, payload: seq<byte>, connected: set<C>, stamp: u64)
    requires c in w.peers && Controllable(w.table, w.peers[c].entity).None?
    ensures HandleEvents(ph, w, c, payload, connected, stamp) == w
  {
  }

  lemma ControllableHas<C>(w: World<C>, c: C)
    requires c in w.peers && Controllable(w.table, w.peers[c].entity).Some?
    ensures var r := Controllable(w.table, w.peers[c].entity).value; Has(w, c, r.0, r.1)
  {
  }

  lemma LastOfMore(p: Pose, q: Pose, ps: seq<Pose>)
    ensures LastPose(p, [q] + ps) == LastPose(q, ps) && LastPose(p, []) == p
  {
  }

  lemma NoLooks(ph: Physics, control: SpatialComponent, p: Pose)
    requires control.Control? && IsPose(p)
    ensures LookPoses(ph, control, p, []) == []
  {
  }

  lemma NoMoves<C>(w: World<C>, c: C, connected: set<C>, stamp: u64)
    requires c in w.peers
    ensures Moves(w, c, [], connected, stamp) == w
  {
  }

  /** The axis events come behind the other events, and one by one too. */
  lemma AxesInTurn<C>(ph: Physics, w: World<C>, c: C, x: EventAxis, xs: seq<EventAxis>, connected: set<C>, stamp: u64)
    requires c in w.peers && |xs| + 1 < 0x1_0000
    ensures HandleEvents(ph, w, c, UpdatePayload([], [x] + xs), connected, stamp)
      == HandleEvents(ph, HandleEvents(ph, w, c, UpdatePayload([], [x]), connected, stamp), c,
                      UpdatePayload([], xs), connected, stamp)
  {
    hide Moves, Move, UpdatePayload, Walked, Has, HandleEvents, Controllable, MayLook;
    var r := Controllable(w.table, w.peers[c].entity);
    if r.None? {
      Uncontrollable(ph, w, c, UpdatePayload([], [x] + xs), connected, stamp);
      Uncontrollable(ph, w, c, UpdatePayload([], [x]), connected, stamp);
      Uncontrollable(ph, w, c, UpdatePayload([], xs), connected, stamp);
    } else {
      var (control, pose) := r.value;
      ControllableHas(w, c);
      Handled(ph, w, c, control, pose, [], [x] + xs, connected, stamp);
      Handled(ph, w, c, control, pose, [], [x], connected, stamp);
      assert ([x] + xs)[1..] == xs && [x][1..] == [];
      Empty(LookPoses(ph, control, pose, [x] + xs));
      Empty(LookPoses(ph, control, pose, [x]));
      NoLooks(ph, control, pose);
      if MayLook(control, x) {
        var q := PoseKept(pose, ph.look(pose, x));
        PosedHas(w, c, control, pose, q, connected, stamp);
        Handled(ph, Move(w, c, q, connected, stamp), c, control, q, [], xs, connected, stamp);
        var looks := LookPoses(ph, control, q, xs);
        Empty(looks);
        NoLooks(ph, control, q);
        Empty([q]);
        Sequel(w, c, q, looks, connected, stamp);
      } else {
        Handled(ph, w, c, control, pose, [], xs, connected, stamp);
        Empty(LookPoses(ph, control, pose, xs));
        NoMoves(w, c, connected, stamp);
      }
    }
  }

  // ---------------------------------------------------------------- one packet off the receive queue

  /** A packet of events is taken off its player's queue and handled; a heartbeat is answered in its own version by an
      empty packet; any other packet is taken off and forgotten. */
  lemma OneConsumed<C>(ph: Physics, w: World<C>, c: C, f: Frame, rest: seq<Frame>, connected: set<C>, stamp: u64)
    requires c in w.peers && w.peers[c].inbox == [f] + rest
    ensures var p := w.peers[c].(inbox := rest);
      var taken, w' := w.(peers := w.peers[c := p]), Consume(ph, w, c, connected, stamp);
      if f.header.command == 30 then w' == HandleEvents(ph, taken, c, f.payload, connected, stamp)
      else if f.header.command == 4 then
        var reply := Frame(Header(LOW, f.header.api, 5, 0, stamp), []);
        w' == w.(peers := w.peers[c := p.(api := f.header.api, queue := p.queue + [reply])])
      else w' == taken
  {
    hide HandleEvents;
    HeadOfSum([f], rest);
    Empty(rest);
  }
}
