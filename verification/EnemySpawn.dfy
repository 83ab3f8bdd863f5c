/** What spawn_enemy does to a scene, cell by cell, and what the players are told of it. */
module EnemySpawns {
  import opened Wrappers
  import opened Bytes
  import opened Packets
  import opened PayloadStreams
  import opened Components
  import opened ComponentStreams
  import opened GameModel
  import opened SceneFacts
  import opened PacketContents
  import R = Registries

  /** The entity is a skybox with a transform, a box, this timer and this template. */
  ghost predicate Drives(t: Scene, e: nat, timer: CommonComponent, template: CommonComponent) {
    && timer.Timer? && template.Template?
    && R.Lookup(t, TRANSFORM_3D, e).Some? && R.Lookup(t, BOXCOLLIDER, e).Some?
    && R.Lookup(t, TAG, e) == Some(Common(Tag([83, 107, 121, 98, 111, 120])))
    && R.Lookup(t, TIMER, e) == Some(Common(timer)) && R.Lookup(t, TEMPLATE, e) == Some(Common(template))
  }

  /** These are the entities whose tag is "Enemy". */
  ghost predicate AreEnemies(t: Scene, enemies: set<nat>) {
    forall e: nat :: e in enemies <==> R.Lookup(t, TAG, e) == Some(Common(Tag([69, 110, 101, 109, 121])))
  }

  lemma DrivesIsSpawner(t: Scene, e: nat)
    ensures IsSpawner(t, e) <==> exists timer, template :: Drives(t, e, timer, template)
  {
    if IsSpawner(t, e) {
      assert Drives(t, e, R.Lookup(t, TIMER, e).value.common, R.Lookup(t, TEMPLATE, e).value.common);
    }
  }

  lemma CountsEnemies(t: Scene, enemies: set<nat>)
    requires AreEnemies(t, enemies)
    ensures Enemies(t) == enemies
  {
    forall e: nat
      ensures e in Enemies(t) <==> e in enemies
    {
      if e in enemies {
        assert (TAG, e) in t.cells && (TAG, e).1 == e;
      }
    }
  }

  /** Some entity drives the system, and none below it. */
  ghost predicate IsFirst(t: Scene, e: nat) {
    IsSpawner(t, e) && forall i: nat :: i < e ==> !IsSpawner(t, i)
  }

  lemma {:induction false} FirstIsFound(t: Scene, n: nat)
    ensures FirstSpawner(t, n).None? <==> forall i: nat :: i < n ==> !IsSpawner(t, i)
    ensures FirstSpawner(t, n).Some? ==> IsFirst(t, FirstSpawner(t, n).value)
    decreases n
  {
    hide IsSpawner;
    if n > 0 {
      FirstIsFound(t, n - 1);
    }
  }

  // ---------------------------------------------------------------- cells

  /** The timer of the spawner starts again now, with its old span; every other cell is what it was. */
  ghost predicate OnlyRewound(t: Scene, t': Scene, spawner: nat, timer: CommonComponent, now: u64)
    requires timer.Timer?
  {
    forall k: Kind, x: nat :: R.Lookup(t', k, x) ==
      if x == spawner && k == TIMER then Some(Common(Timer(now, timer.maxTime))) else R.Lookup(t, k, x)
  }

  /** Where a component of the template goes: a transform to this position, its rotation and scale kept. */
  function Placed(c: Component, position: Vec3): Component {
    match c
    case Spatial(Transform(_, rotation, scale)) => Spatial(SpatialComponent.Transform(position, rotation, scale))
    case _ => c
  }

  /** On the new entity sits the last component of each kind of its template; the spawner's timer starts again; every
      other cell is what it was. */
  ghost predicate OnlySpawned(t: Scene, t': Scene, e: nat, content: seq<Component>, position: Vec3, spawner: nat,
                              timer: CommonComponent, now: u64)
    requires timer.Timer?
  {
    && (forall k: Kind, c: Component :: IsLast(content, k, c) ==> R.Lookup(t', k, e) == Some(Placed(c, position)))
    && (forall k: Kind :: (forall i :: 0 <= i < |content| ==> KindOf(content[i]) != k) ==> R.Lookup(t', k, e) == None)
    && forall k: Kind, x: nat :: x != e ==>
         (R.Lookup(t', k, x) ==
          if x == spawner && k == TIMER then Some(Common(Timer(now, timer.maxTime))) else R.Lookup(t, k, x))
  }

  lemma RewoundCells(t: Scene, spawner: nat, timer: CommonComponent, template: CommonComponent, now: u64)
    requires Drives(t, spawner, timer, template)
    ensures IsSpawner(t, spawner) && OnlyRewound(t, Rewound(t, spawner, now), spawner, timer, now)
    ensures var t' := Rewound(t, spawner, now);
      t'.dead == t.dead && t'.next == t.next && Drives(t', spawner, Timer(now, timer.maxTime), template)
  {
    DrivesIsSpawner(t, spawner);
  }

  lemma PlacedCell(t: Scene, e: nat, position: Vec3, k: Kind, x: nat)
    ensures var c: Option<Component> := R.Lookup(t, k, x);
      R.Lookup(PlacedAt(t, e, position), k, x) ==
        if x == e && k == TRANSFORM_3D && c.Some? then Some(Placed(c.value, position)) else c
  {
  }

  lemma PutElsewhere(c: Component, position: Vec3)
    ensures KindOf(c) != TRANSFORM_3D ==> Placed(c, position) == c
  {
  }

  lemma SpawnedCell(base: Scene, e: nat, content: seq<Component>, position: Vec3, k: Kind, x: nat)
    ensures R.Lookup(PlacedAt(Equip(base, e, content), e, position), k, x) ==
      if x == e && LastOf(content, k).Some? then Some(Placed(LastOf(content, k).value, position))
      else if x == e && k == TRANSFORM_3D && R.Lookup(base, k, x).Some?
      then Some(Placed(R.Lookup(base, k, x).value, position))
      else R.Lookup(base, k, x)
  {
    hide PlacedAt, Equip, LastOf, Placed, KindOf;
    EquipCell(base, e, content, k, x);
    PlacedCell(Equip(base, e, content), e, position, k, x);
    LastOfIsLast(content, k);
    if LastOf(content, k).Some? {
      PutElsewhere(LastOf(content, k).value, position);
    }
  }

  lemma SpawnedCells(t: Scene, t1: Scene, base: Scene, e: nat, content: seq<Component>, position: Vec3, spawner: nat,
                     timer: CommonComponent, now: u64)
    requires timer.Timer? && OnlyRewound(t, t1, spawner, timer, now)
    requires base.cells == t1.cells && forall k: Kind :: (k, e) !in base.cells
    ensures OnlySpawned(t, PlacedAt(Equip(base, e, content), e, position), e, content, position, spawner, timer, now)
  {
    hide PlacedAt, Equip, LastOf, Placed, KindOf, IsLast;
    var t' := PlacedAt(Equip(base, e, content), e, position);
    forall k: Kind, x: nat | x != e
      ensures R.Lookup(t', k, x) == R.Lookup(t1, k, x)
    {
      SpawnedCell(base, e, content, position, k, x);
    }
    forall k: Kind, c: Component | IsLast(content, k, c)
      ensures R.Lookup(t', k, e) == Some(Placed(c, position))
    {
      OneLast(content, k, c);
      SpawnedCell(base, e, content, position, k, e);
    }
    forall k: Kind | forall i :: 0 <= i < |content| ==> KindOf(content[i]) != k
      ensures R.Lookup(t', k, e) == None
    {
      LastOfIsLast(content, k);
      SpawnedCell(base, e, content, position, k, e);
    }
  }

  // ---------------------------------------------------------------- the packet

  /** Strings that can be sent. */
  ghost predicate Sendable(name: text, content: seq<Component>) {
    |name| <= INT_MAX && forall c :: c in content ==> forall f :: f in Wire(c) ==> ValidField(f)
  }

  lemma PutSendable(c: Component, position: Vec3)
    requires forall f :: f in Wire(c) ==> ValidField(f)
    ensures KindOf(Placed(c, position)) == KindOf(c)
    ensures forall f :: f in Wire(Placed(c, position)) ==> ValidField(f)
  {
    if Placed(c, position) != c {
      FloatsAreValid(Placed(c, position));
    }
  }

  lemma FloatsAreValid(c: Component)
    requires c.Spatial? && c.spatial.Transform?
    ensures forall f :: f in Wire(c) ==> ValidField(f)
  {
  }

  lemma SpawnedIsTyped(t: Scene, t': Scene, e: nat, content: seq<Component>, position: Vec3, spawner: nat,
                       timer: CommonComponent, now: u64, name: text)
    requires timer.Timer? && OnlySpawned(t, t', e, content, position, spawner, timer, now) && Sendable(name, content)
    ensures WellTyped(EntityOf(t', e))
  {
    hide LastOf, KindOf, Wire, Placed, ValidField;
    var entity := EntityOf(t', e);
    HoldsEntity(t', e);
    forall k | k in entity
      ensures KindOf(entity[k]) == k && forall f :: f in Wire(entity[k]) ==> ValidField(f)
    {
      assert R.Lookup(t', k, e) == Some(entity[k]);
      LastOfIsLast(content, k);
      var c := LastOf(content, k).value;
      assert IsLast(content, k, c) && c in content;
      PutSendable(c, position);
    }
  }

  // ---------------------------------------------------------------- the whole step

  /** The system is ready, this entity is the first that drives it, and its time has come. */
  ghost predicate IsTriggered(t: Scene, ready: bool, due: bool, spawner: nat, timer: CommonComponent,
                              template: CommonComponent) {
    && ready && due && spawner < t.next && Drives(t, spawner, timer, template)
    && forall i: nat, a, b :: i < spawner ==> !Drives(t, i, a, b)
  }

  lemma TriggeredIsFirst(t: Scene, ready: bool, due: bool, spawner: nat, timer: CommonComponent,
                         template: CommonComponent)
    requires IsTriggered(t, ready, due, spawner, timer, template)
    ensures FirstSpawner(t, t.next) == Some(spawner)
  {
    hide IsSpawner, Drives, FirstSpawner;
    FirstIsFound(t, t.next);
    DrivesIsSpawner(t, spawner);
    forall i: nat | i < spawner
      ensures !IsSpawner(t, i)
    {
      DrivesIsSpawner(t, i);
    }
  }

  lemma FoundIsTriggered(t: Scene)
    ensures var r := FirstSpawner(t, t.next);
      r.Some? ==> exists timer, template :: IsTriggered(t, true, true, r.value, timer, template)
  {
    hide IsSpawner, Drives, FirstSpawner;
    FirstIsFound(t, t.next);
    var r := FirstSpawner(t, t.next);
    if r.Some? {
      DrivesIsSpawner(t, r.value);
      var timer, template :| Drives(t, r.value, timer, template);
      forall i: nat, a, b | i < r.value
        ensures !Drives(t, i, a, b)
      {
        DrivesIsSpawner(t, i);
      }
      assert IsTriggered(t, true, true, r.value, timer, template);
    }
  }

  /** Nothing happens unless the system is ready, some entity drives it, and its time has come. */
  lemma NothingSpawns<C>(cfg: Config, w: World<C>, ready: bool, due: bool, now: u64, position: Vec3,
                         connected: set<C>, stamp: u64)
    requires forall spawner, timer, template :: !IsTriggered(w.table, ready, due, spawner, timer, template)
    ensures SpawnEnemy(cfg, w, ready, due, now, position, connected, stamp) == Some(w)
  {
    hide FirstSpawner, IsTriggered;
    FoundIsTriggered(w.table);
  }

  /** Otherwise the timer starts again, and an enemy appears exactly if fewer than ten entities have the tag "Enemy": on
      the id that is next, with the last component of each kind of the template, its transform at the position drawn;
      every other cell stays, and each connected player of the scene is told once of the entity as it now is. Without an
      id left the registry throws. */
  lemma EnemySpawnsExactly<C>(cfg: Config, w: World<C>, ready: bool, due: bool, now: u64, position: Vec3,
                              connected: set<C>, stamp: u64, spawner: nat, timer: CommonComponent,
                              template: CommonComponent, enemies: set<nat>, entity: Entity)
    requires R.Allocated(w.table, w.live) && w.table.next <= R.SIZE_MAX
    requires IsTriggered(w.table, ready, due, spawner, timer, template) && AreEnemies(w.table, enemies)
    ensures var r, e := SpawnEnemy(cfg, w, ready, due, now, position, connected, stamp), FreshId(w.table);
      if |enemies| >= 10 then
        r.Some? && r.value == w.(table := r.value.table) && OnlyRewound(w.table, r.value.table, spawner, timer, now)
      else if w.table.dead == [] && w.table.next == R.SIZE_MAX then r.None?
      else
        && r.Some? && OnlySpawned(w.table, r.value.table, e, template.content, position, spawner, timer, now)
        && r.value.live == w.live + {e}
        && (Sendable(template.name, template.content) && Holds(r.value.table, e, entity) ==>
              HearersTold(w.(table := r.value.table, live := w.live + {e}), r.value, connected, cfg.scene, None,
                          SpawnOf(e, template.name, entity, stamp)))
  {
    hide IsSpawner, FirstSpawner, Enemies, Rewound, OnlyRewound, OnlySpawned, Equip, PlacedAt, SpawnFrame, EntityOf,
         Told, HearersTold, SpawnOf, Holds, Sendable, R.Allocated, AreEnemies, WithApi, WellTyped;
    TriggeredIsFirst(w.table, ready, due, spawner, timer, template);
    RewoundCells(w.table, spawner, timer, template, now);
    var t := Rewound(w.table, spawner, now);
    RewoundTags(w.table, t, spawner, timer, now, enemies);
    CountsEnemies(t, enemies);
    if |enemies| < 10 && R.Allocate(t).Some? {
      var (base, e) := R.Allocate(t).value;
      assert R.Lookup(t, TEMPLATE, spawner) == Some(Common(template));
      RewoundIsBare(w.table, t, w.live);
      SpawnedCells(w.table, t, base, e, template.content, position, spawner, timer, now);
      var table := PlacedAt(Equip(base, e, template.content), e, position);
      var w1 := w.(table := table, live := w.live + {e});
      if Sendable(template.name, template.content) && Holds(table, e, entity) {
        HoldsEntity(table, e);
        SpawnedIsTyped(w.table, table, e, template.content, position, spawner, timer, now, template.name);
        NameFits(template.name, template.content);
        var f := SpawnFrame(V_1, e, template.name, entity, stamp);
        forall api: nibble
          ensures SpawnOf(e, template.name, entity, stamp)(WithApi(f, api), api)
        {
          SpawnVersions(V_1, api, e, template.name, entity, stamp);
        }
        BroadcastTells(w1, connected, cfg.scene, f, None, SpawnOf(e, template.name, entity, stamp));
      }
    }
  }

  lemma NameFits(name: text, content: seq<Component>)
    requires Sendable(name, content)
    ensures |name| <= INT_MAX
  {
  }

  lemma RewoundTags(t: Scene, t': Scene, spawner: nat, timer: CommonComponent, now: u64, enemies: set<nat>)
    requires timer.Timer? && OnlyRewound(t, t', spawner, timer, now) && AreEnemies(t, enemies)
    ensures AreEnemies(t', enemies)
  {
  }

  lemma RewoundIsBare(t: Scene, t': Scene, live: set<nat>)
    requires R.Allocated(t, live) && t.next <= R.SIZE_MAX && t'.dead == t.dead && t'.next == t.next
      && R.Allocate(t').Some?
    requires forall k: Kind, x: nat :: R.Lookup(t, k, x).None? ==> R.Lookup(t', k, x).None?
    ensures var (base, e) := R.Allocate(t').value;
      && e == FreshId(t) && e <= R.SIZE_MAX && base.cells == t'.cells && forall k: Kind :: (k, e) !in base.cells
  {
    R.SpawnIsFresh(t, live);
    forall k: Kind
      ensures (k, R.Allocate(t').value.1) !in t'.cells
    {
      assert R.Lookup(t, k, R.Allocate(t).value.1).None?;
    }
  }
}
