/** A scene never holds more than ten enemies. */
module EnemyCap {
  import opened Wrappers
  import opened Bytes
  import opened Components
  import opened GameModel
  import opened SceneFacts
  import opened Replication
  import R = Registries

  lemma InEnemies(t: Scene, e: nat)
    ensures e in Enemies(t) <==> HasTag(t, e, ENEMY)
  {
    if HasTag(t, e, ENEMY) {
      assert (TAG, e) in t.cells && (TAG, e).1 == e;
    }
  }

  /** Where each tag is an old one or gone, no enemy is added. */
  lemma NoMoreEnemies(t: Scene, u: Scene)
    requires forall e: nat :: R.Lookup(u, TAG, e) == R.Lookup(t, TAG, e) || R.Lookup(u, TAG, e) == None
    ensures |Enemies(u)| <= |Enemies(t)|
  {
    hide Enemies;
    forall e | e in Enemies(u)
      ensures e in Enemies(t)
    {
      InEnemies(t, e);
      InEnemies(u, e);
    }
    Smaller(Enemies(u), Enemies(t));
  }

  lemma {:induction false} Smaller<T>(a: set<T>, b: set<T>)
    requires a <= b
    ensures |a| <= |b|
    decreases |a|
  {
    if a != {} {
      var x :| x in a;
      Smaller(a - {x}, b - {x});
    }
  }

  /** A template adds one enemy if its tag says so, and none otherwise. */
  lemma EquipEnemies(t: Scene, e: nat, cs: seq<Component>)
    ensures |Enemies(Equip(t, e, cs))| <= |Enemies(t)| + 1
    ensures LastOf(cs, TAG) != Some(Common(Tag(ENEMY))) ==> |Enemies(Equip(t, e, cs))| <= |Enemies(t)|
  {
    hide Enemies, Equip, LastOf;
    var u := Equip(t, e, cs);
    forall x | x in Enemies(u)
      ensures x in Enemies(t) || (x == e && LastOf(cs, TAG) == Some(Common(Tag(ENEMY))))
    {
      InEnemies(t, x);
      InEnemies(u, x);
      EquipCell(t, e, cs, TAG, x);
    }
    Smaller(Enemies(u), Enemies(t) + {e});
    if LastOf(cs, TAG) != Some(Common(Tag(ENEMY))) {
      Smaller(Enemies(u), Enemies(t));
    }
  }

  lemma SpawnEnemies<C>(cfg: Config, w: World<C>, ready: bool, due: bool, now: u64, position: Vec3,
                              connected: set<C>, stamp: u64)
    requires |Enemies(w.table)| <= MAX_ENEMIES
    ensures var r := SpawnEnemy(cfg, w, ready, due, now, position, connected, stamp);
      r.Some? ==> |Enemies(r.value.table)| <= MAX_ENEMIES
  {
    hide Enemies, Equip, Rewound, PlacedAt, SpawnFrame, EntityOf, Hears, WithApi, IsSpawner, R.Allocate;
    var spawner := FirstSpawner(w.table, w.table.next);
    if ready && spawner.Some? && due {
      var t := Rewound(w.table, spawner.value, now);
      RewoundEnemies(w.table, spawner.value, now);
      if |Enemies(t)| < MAX_ENEMIES && R.Allocate(t).Some? {
        var (base, e) := R.Allocate(t).value;
        AllocateEnemies(t);
        BlueprintOf(w.table, spawner.value, now);
        var content := R.Lookup(t, TEMPLATE, spawner.value).value.common.content;
        EquipEnemies(base, e, content);
        PlacedEnemies(Equip(base, e, content), e, position);
      }
    }
  }

  lemma BlueprintOf(t: Scene, spawner: nat, now: u64)
    requires IsSpawner(t, spawner)
    ensures var c: Option<Component> := R.Lookup(Rewound(t, spawner, now), TEMPLATE, spawner);
      c.Some? && c.value.Common? && c.value.common.Template?
  {
  }

  lemma RewoundEnemies(t: Scene, spawner: nat, now: u64)
    requires IsSpawner(t, spawner)
    ensures |Enemies(Rewound(t, spawner, now))| <= |Enemies(t)|
  {
    hide Enemies;
    NoMoreEnemies(t, Rewound(t, spawner, now));
  }

  lemma AllocateEnemies(t: Scene)
    requires R.Allocate(t).Some?
    ensures |Enemies(R.Allocate(t).value.0)| <= |Enemies(t)|
  {
    hide Enemies;
    NoMoreEnemies(t, R.Allocate(t).value.0);
  }

  lemma PlacedEnemies(t: Scene, e: nat, position: Vec3)
    ensures |Enemies(PlacedAt(t, e, position))| <= |Enemies(t)|
  {
    hide Enemies;
    NoMoreEnemies(t, PlacedAt(t, e, position));
  }

  lemma StepEnemies<C>(cfg: Config, w: World<C>, turn: Turn<C>)
    requires LastOf(cfg.player.components, TAG) != Some(Common(Tag(ENEMY)))
    requires Rostered(w) && After(cfg, w, turn).Some? && |Enemies(w.table)| <= MAX_ENEMIES
    ensures |Enemies(After(cfg, w, turn).value.table)| <= MAX_ENEMIES
  {
    hide Enemies, Equip, SpawnEnemy, LastOf, Incoming, Rostered, Hears, WithApi, SpawnFrame, ConnectFrame,
         DestroyFrame, VisibleFrames, R.Allocate;
    var w' := After(cfg, w, turn).value;
    match turn.step
    case Join(c, peer) =>
      if MayJoin(w.players, cfg.maxPlayers, turn.connected, c) {
        AllocateEnemies(w.table);
        EquipEnemies(R.Allocate(w.table).value.0, R.Allocate(w.table).value.1, cfg.player.components);
      }
    case Leave(c) => if c in w.players { NoMoreEnemies(w.table, w'.table); }
    case Enemy(ready, due, now, position) =>
      SpawnEnemies(cfg, w, ready, due, now, position, turn.connected, turn.stamp);
    case Arrive(c, f) =>
    case Receive(ph) => NoMoreEnemies(w.table, w'.table);
    case Send =>
    case Simulate(table) => NoMoreEnemies(w.table, w'.table);
    case Check =>
  }

  /** A turn of the game, or the death of any entity, as when two entities collide. */
  datatype Happening<C> = Goes(turn: Turn<C>) | Dies(e: nat)

  ghost function Next<C>(cfg: Config, w: World<C>, x: Happening<C>): (r: Option<World<C>>)
    requires Rostered(w)
    ensures r.Some? ==> Rostered(r.value)
  {
    match x
    case Goes(turn) => After(cfg, w, turn)
    case Dies(e) => Some(w.(table := R.Retire(w.table, e), live := w.live - {e}))
  }

  ghost function RunOn<C>(cfg: Config, w: World<C>, xs: seq<Happening<C>>): Option<World<C>>
    requires Rostered(w)
    decreases |xs|
  {
    if xs == [] then Some(w) else
    match Next(cfg, w, xs[0])
    case None => None
    case Some(w') => RunOn(cfg, w', xs[1..])
  }

  lemma RetireEnemies(t: Scene, e: nat)
    ensures |Enemies(R.Retire(t, e))| <= |Enemies(t)|
  {
    hide Enemies;
    NoMoreEnemies(t, R.Retire(t, e));
  }

  /** If players are not enemies, no mix of turns and deaths, with ids handed out again, takes a scene of at most ten
      enemies beyond ten. */
  lemma {:induction false} EnemiesAreCapped<C>(cfg: Config, w: World<C>, xs: seq<Happening<C>>)
    requires LastOf(cfg.player.components, TAG) != Some(Common(Tag(ENEMY)))
    requires Rostered(w) && RunOn(cfg, w, xs).Some? && |Enemies(w.table)| <= MAX_ENEMIES
    ensures |Enemies(RunOn(cfg, w, xs).value.table)| <= MAX_ENEMIES
    decreases |xs|
  {
    hide Enemies, After, LastOf, Rostered, R.Retire;
    if xs != [] {
      match xs[0] {
        case Goes(turn) => StepEnemies(cfg, w, turn);
        case Dies(e) => RetireEnemies(w.table, e);
      }
      EnemiesAreCapped(cfg, Next(cfg, w, xs[0]).value, xs[1..]);
    }
  }
}
