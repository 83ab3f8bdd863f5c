/** What addPlayer and removePlayer do to a scene, cell by cell, and what each client is told of it. */
module PlayerChanges {
  import opened Wrappers
  import opened Bytes
  import opened Sequences
  import opened Packets
  import opened Components
  import opened ComponentStreams
  import opened StreamReaders
  import opened GameModel
  import opened SceneFacts
  import opened PacketContents
  import R = Registries

  // ---------------------------------------------------------------- the scene for a newcomer

  /** A transform, and a tag that is not the skybox's. */
  ghost predicate IsShown(t: Scene, e: nat) {
    && R.Lookup(t, TRANSFORM_3D, e).Some? && R.Lookup(t, TAG, e).Some?
    && R.Lookup(t, TAG, e) != Some(Common(Tag([83, 107, 121, 98, 111, 120])))
  }

  /** The packet tells of entity e under its tag, with all its components. */
  ghost predicate TellsEntity(t: Scene, f: Frame, api: nibble, e: nat, stamp: u64) {
    forall tag, entity ::
      R.Lookup(t, TAG, e) == Some(Common(Tag(tag))) && Holds(t, e, entity) && |tag| <= INT_MAX && WellTyped(entity)
      ==> TellsSpawn(f, api, e, tag, SentOf(SENT, entity), stamp)
  }

  /** One packet for each of these entities, in this order. */
  ghost predicate TellEach(t: Scene, fs: seq<Frame>, api: nibble, ids: seq<nat>, stamp: u64) {
    |fs| == |ids| && forall i :: 0 <= i < |ids| ==> TellsEntity(t, fs[i], api, ids[i], stamp)
  }

  /** The entities shown below n, without the player's own, from the lowest id to the highest. */
  ghost predicate AreShown(t: Scene, n: nat, self: nat, ids: seq<nat>) {
    && (forall i, j :: 0 <= i < j < |ids| ==> ids[i] < ids[j])
    && forall e: nat :: e in ids <==> e < n && e != self && IsShown(t, e)
  }

  lemma FrameTells(t: Scene, e: nat, api: nibble, stamp: u64)
    requires IsShown(t, e) && e <= R.SIZE_MAX
    ensures (TAG, e) in t.cells
    ensures TellsEntity(t, SpawnFrame(api, e, TagOf(t.cells[(TAG, e)]), EntityOf(t, e), stamp), api, e, stamp)
  {
    hide SpawnFrame, TellsSpawn, SentOf, EntityOf, WellTyped, Holds;
    var f := SpawnFrame(api, e, TagOf(t.cells[(TAG, e)]), EntityOf(t, e), stamp);
    forall tag, entity | R.Lookup(t, TAG, e) == Some(Common(Tag(tag))) && Holds(t, e, entity) && |tag| <= INT_MAX
                         && WellTyped(entity)
      ensures TellsSpawn(f, api, e, tag, SentOf(SENT, entity), stamp)
    {
      HoldsEntity(t, e);
      SpawnTells(api, e, tag, entity, stamp);
    }
  }

  lemma ShownIsVisible(t: Scene, e: nat)
    ensures IsShown(t, e) <==> IsVisible(t, e)
  {
  }

  lemma NothingShown(t: Scene, self: nat, api: nibble, stamp: u64)
    ensures AreShown(t, 0, self, []) && TellEach(t, [], api, [], stamp)
  {
  }

  lemma ShownMore(t: Scene, n: nat, self: nat, ids: seq<nat>)
    requires AreShown(t, n, self, ids)
    ensures AreShown(t, n + 1, self, if IsShown(t, n) && n != self then ids + [n] else ids)
  {
    hide IsShown;
    assert forall i :: 0 <= i < |ids| ==> ids[i] in ids;
    forall e: nat
      ensures e in ids + [n] <==> e in ids || e == n
    {
    }
  }

  lemma TellMore(t: Scene, fs: seq<Frame>, api: nibble, ids: seq<nat>, stamp: u64, f: Frame, e: nat)
    requires TellEach(t, fs, api, ids, stamp) && TellsEntity(t, f, api, e, stamp)
    ensures TellEach(t, fs + [f], api, ids + [e], stamp)
  {
    hide TellsEntity;
  }

  /** A newcomer is sent one packet for each entity that is shown, without its own, in order of id. */
  lemma {:induction false} SceneIsTold(t: Scene, n: nat, self: nat, api: nibble, stamp: u64) returns (ids: seq<nat>)
    requires n <= R.SIZE_MAX + 1
    ensures AreShown(t, n, self, ids) && TellEach(t, VisibleFrames(t, n, self, api, stamp), api, ids, stamp)
    decreases n
  {
    hide SpawnFrame, EntityOf, TellsEntity, IsShown, IsVisible, TagOf, AreShown, TellEach;
    if n == 0 {
      NothingShown(t, self, api, stamp);
      ids := [];
    } else {
      ids := SceneIsTold(t, n - 1, self, api, stamp);
      ShownIsVisible(t, n - 1);
      ShownMore(t, n - 1, self, ids);
      var fs := VisibleFrames(t, n - 1, self, api, stamp);
      if IsShown(t, n - 1) && n - 1 != self {
        FrameTells(t, n - 1, api, stamp);
        TellMore(t, fs, api, ids, stamp, SpawnFrame(api, n - 1, TagOf(t.cells[(TAG, n - 1)]), EntityOf(t, n - 1),
                                                    stamp),
                 n - 1);
        ids := ids + [n - 1];
      } else {
        Empty(fs);
      }
    }
  }

  // ---------------------------------------------------------------- joining

  /** On the new entity sits the last component of each kind of the template; every other cell is what it was. */
  ghost predicate OnlyEquipped(t: Scene, t': Scene, e: nat, template: seq<Component>) {
    && (forall k: Kind, c: Component :: IsLast(template, k, c) ==> R.Lookup(t', k, e) == Some(c))
    && (forall k: Kind :: (forall i :: 0 <= i < |template| ==> KindOf(template[i]) != k) ==> R.Lookup(t', k, e) == None)
    && forall k: Kind, x: nat :: x != e ==> R.Lookup(t', k, x) == R.Lookup(t, k, x)
  }

  lemma EquippedCells(t: Scene, base: Scene, e: nat, template: seq<Component>)
    requires base.cells == t.cells && forall k: Kind :: (k, e) !in base.cells
    ensures OnlyEquipped(t, Equip(base, e, template), e, template)
  {
    hide Equip, LastOf, KindOf, IsLast;
    var t' := Equip(base, e, template);
    forall k: Kind, x: nat | x != e
      ensures R.Lookup(t', k, x) == R.Lookup(t, k, x)
    {
      EquipCell(base, e, template, k, x);
    }
    forall k: Kind, c: Component | IsLast(template, k, c)
      ensures R.Lookup(t', k, e) == Some(c)
    {
      OneLast(template, k, c);
      EquipCell(base, e, template, k, e);
    }
    forall k: Kind | forall i :: 0 <= i < |template| ==> KindOf(template[i]) != k
      ensures R.Lookup(t', k, e) == None
    {
      LastOfIsLast(template, k);
      EquipCell(base, e, template, k, e);
    }
  }

  /** The newcomer's record: its entity and scene, and behind what waited one CONNECT and the scene. */
  ghost predicate IsGreeted(cfg: Config, peer: Peer, p: Peer, t: Scene, e: nat, ids: seq<nat>, stamp: u64) {
    var n := |peer.queue|;
    && |p.queue| > n && p.queue[..n] == peer.queue
    && p == peer.(entity := e, scene := cfg.scene, joined := |Log(peer)|, queue := p.queue)
    && (e <= R.SIZE_MAX && |cfg.player.name| <= INT_MAX && |cfg.scene| <= INT_MAX ==>
          TellsConnect(p.queue[n], peer.api, e, cfg.player.name, cfg.scene, stamp))
    && TellEach(t, p.queue[n + 1..], peer.api, ids, stamp)
  }

  lemma GreetedRecord(cfg: Config, peer: Peer, t: Scene, e: nat, ids: seq<nat>, all: seq<Frame>, stamp: u64)
    requires TellEach(t, all, peer.api, ids, stamp)
    ensures var greeted := Greeted(cfg, peer, e, stamp);
      IsGreeted(cfg, peer, greeted.(queue := greeted.queue + all), t, e, ids, stamp)
  {
    hide ConnectFrame, TellsConnect, TellEach, Log;
    var hello := ConnectFrame(peer.api, e, cfg.player.name, cfg.scene, stamp);
    ConnectVersion(peer.api, e, cfg.player.name, cfg.scene, stamp);
    if e <= R.SIZE_MAX && |cfg.player.name| <= INT_MAX && |cfg.scene| <= INT_MAX {
      ConnectTells(peer.api, e, cfg.player.name, cfg.scene, stamp);
    }
    var queue, n := (peer.queue + [hello]) + all, |peer.queue|;
    assert queue[..n] == peer.queue && queue[n] == hello && queue[n + 1..] == all;
  }

  /** Without components there is nothing to get wrong. */
  lemma NewcomerVersions(from: nibble, api: nibble, e: nat, name: text, stamp: u64)
    requires e <= R.SIZE_MAX && |name| <= INT_MAX
    ensures SpawnOf(e, name, map[], stamp)(WithApi(SpawnFrame(from, e, name, map[], stamp), api), api)
  {
    hide SpawnFrame, SpawnOf, WithApi;
    SpawnVersions(from, api, e, name, map[], stamp);
  }

  /** addPlayer refuses a client that plays already, that finds the game full, or that is not connected, and throws
      without an id left. Else the client is the last player, on the id that is next, with the last component of each
      kind of the player template; every other cell stays; it is sent its CONNECT and then the scene, and each other
      connected player of the scene is told once of the new entity, by name and without components. */
  lemma PlayerJoins<C>(cfg: Config, w: World<C>, c: C, peer: Peer, connected: set<C>, stamp: u64)
      returns (ids: seq<nat>)
    requires R.Allocated(w.table, w.live) && w.table.next <= R.SIZE_MAX && (c in w.peers ==> c in w.players)
    ensures var r, e := AddPlayer(cfg, w, c, peer, connected, stamp), FreshId(w.table);
      if c in w.players || |w.players| >= cfg.maxPlayers || c !in connected then r.Refused?
      else if w.table.dead == [] && w.table.next == R.SIZE_MAX then r.Thrown?
      else
        && r.Admitted? && c in r.w.peers && OnlyEquipped(w.table, r.w.table, e, cfg.player.components)
        && r.w.players == w.players + [c] && r.w.live == w.live + {e}
        && AreShown(r.w.table, r.w.table.next, e, ids)
        && IsGreeted(cfg, peer, r.w.peers[c], r.w.table, e, ids, stamp)
        && (|cfg.player.name| <= INT_MAX ==>
              HearersTold(r.w.(peers := w.peers[c := r.w.peers[c]]), r.w, connected, cfg.scene, Some(c),
                          SpawnOf(e, cfg.player.name, map[], stamp)))
  {
    hide Equip, SpawnFrame, Greeted, VisibleFrames, HearersTold, SpawnOf, TellEach, AreShown, IsGreeted, OnlyEquipped,
         R.Allocated, WithApi, Told;
    ids := [];
    if MayJoin(w.players, cfg.maxPlayers, connected, c) && R.Allocate(w.table).Some? {
      var (base, e) := R.Allocate(w.table).value;
      R.SpawnIsFresh(w.table, w.live);
      EquippedCells(w.table, base, e, cfg.player.components);
      EquipCell(base, e, cfg.player.components, TAG, e);
      var table := Equip(base, e, cfg.player.components);
      ids := SceneIsTold(table, table.next, e, peer.api, stamp);
      var all := VisibleFrames(table, table.next, e, peer.api, stamp);
      GreetedRecord(cfg, peer, table, e, ids, all, stamp);
      TheOthersAreTold(cfg, w, c, peer, connected, stamp, base, e);
    }
  }

  lemma TheOthersAreTold<C>(cfg: Config, w: World<C>, c: C, peer: Peer, connected: set<C>, stamp: u64, base: Scene,
                            e: nat)
    requires c !in w.players && c !in w.peers && e <= R.SIZE_MAX
    ensures var w' := WithPlayer(cfg, w, c, peer, connected, stamp, base, e);
      var table := Equip(base, e, cfg.player.components);
      var greeted := Greeted(cfg, peer, e, stamp);
      && c in w'.peers && w'.table == table && w'.live == w.live + {e} && w'.players == w.players + [c]
      && w'.peers[c] ==
           greeted.(queue := greeted.queue + VisibleFrames(table, table.next, e, peer.api, stamp))
      && (|cfg.player.name| <= INT_MAX ==>
            HearersTold(w'.(peers := w.peers[c := w'.peers[c]]), w', connected, cfg.scene, Some(c),
                        SpawnOf(e, cfg.player.name, map[], stamp)))
  {
    hide Equip, SpawnFrame, Greeted, VisibleFrames, SpawnOf, WithApi, Deliver, OneMore;
    var table := Equip(base, e, cfg.player.components);
    var w1 := World(table, w.live + {e}, w.players + [c], w.peers[c := Greeted(cfg, peer, e, stamp)]);
    var f, tells := SpawnFrame(peer.api, e, cfg.player.name, map[], stamp), SpawnOf(e, cfg.player.name, map[], stamp);
    if |cfg.player.name| <= INT_MAX {
      forall api: nibble
        ensures tells(WithApi(f, api), api)
      {
        NewcomerVersions(peer.api, api, e, cfg.player.name, stamp);
      }
      BroadcastTells(w1, connected, cfg.scene, f, Some(c), tells);
    }
  }

  // ---------------------------------------------------------------- leaving

  /** The entity's cells are empty, and its id waits at the end of the dead; every other cell is what it was. */
  ghost predicate OnlyRetired(t: Scene, t': Scene, e: nat) {
    && t'.dead == t.dead + [e] && t'.next == t.next
    && forall k: Kind, x: nat :: R.Lookup(t', k, x) == if x == e then None else R.Lookup(t, k, x)
  }

  /** removePlayer does nothing for a stranger. Else the player is off the list, which keeps its order, its entity is
      gone, and each other connected player of its scene is told once of that. */
  lemma PlayerLeaves<C>(w: World<C>, c: C, connected: set<C>, stamp: u64, before: seq<C>, behind: seq<C>)
    requires c in w.players ==> c in w.peers && w.players == before + [c] + behind && c !in before && c !in behind
    ensures var r := RemovePlayer(w, c, connected, stamp);
      if c !in w.players then r.None?
      else
        var e := w.peers[c].entity;
        && r.Some? && OnlyRetired(w.table, r.value.table, e)
        && r.value.players == before + behind && r.value.live == w.live - {e}
        && r.value.peers.Keys == w.peers.Keys - {c}
        && (e <= R.SIZE_MAX ==>
              HearersTold(r.value.(peers := w.peers - {c}), r.value, connected, w.peers[c].scene, None,
                          DestroyOf(e, stamp)))
  {
    hide DestroyFrame, HearersTold, DestroyOf, WithApi, Told;
    if c in w.players {
      var e, scene := w.peers[c].entity, w.peers[c].scene;
      WithoutMiddle(before, c, behind);
      var w1 := World(R.Retire(w.table, e), w.live - {e}, Without(w.players, c), w.peers - {c});
      if e <= R.SIZE_MAX {
        var f, tells := DestroyFrame(V_1, e, stamp), DestroyOf(e, stamp);
        forall api: nibble
          ensures tells(WithApi(f, api), api)
        {
          DestroyVersions(V_1, api, e, stamp);
        }
        BroadcastTells(w1, connected, scene, f, None, tells);
      }
    }
  }
}
