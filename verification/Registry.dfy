/** Flakkari/Engine/EntityComponentSystem/Registry: component storage by type and the entity allocator. */
module Registries {
  import opened Wrappers
  import opened Sequences
  import opened SparseArrays

  const SIZE_MAX: nat := 0xFFFF_FFFF_FFFF_FFFF

  /** The registry's fields as a value: one sparse array per type, the types with an erase function, the ids. */
  datatype Store<K(==), V> = Store(components: map<K, seq<Option<V>>>, erasers: set<K>, dead: seq<nat>, next: nat)

  /** What a registry means: a plain map from (type, entity) to component, and the allocator. */
  datatype Table<K(==), V> = Table(cells: map<(K, nat), V>, dead: seq<nat>, next: nat)

  // ---------------------------------------------------------------- the registry's operations on Store

  function Column<K, V>(s: Store<K, V>, k: K): seq<Option<V>> {
    if k in s.components then s.components[k] else []
  }

  /** isRegistered<Component>(): the type's array exists and is not empty. */
  predicate TypeRegistered<K, V>(s: Store<K, V>, k: K) {
    |Column(s, k)| > 0
  }

  /** isRegistered<Component>(entity) */
  predicate EntityRegistered<K, V>(s: Store<K, V>, k: K, e: nat) {
    e < |Column(s, k)| && Column(s, k)[e].Some?
  }

  /** registerComponent: an array that is still empty is created again. */
  function Registered<K, V>(s: Store<K, V>, k: K): Store<K, V> {
    if TypeRegistered(s, k) then s
    else s.(components := s.components[k := []], erasers := s.erasers + {k})
  }

  function WithColumn<K, V>(s: Store<K, V>, k: K, data: seq<Option<V>>): Store<K, V> {
    Registered(s, k).(components := Registered(s, k).components[k := data])
  }

  /** getComponents<Component>()[e] */
  function Touched<K, V>(s: Store<K, V>, k: K, e: nat): Store<K, V> {
    WithColumn(s, k, Grown(Column(s, k), e))
  }

  /** add_component and emplace_component */
  function Added<K, V>(s: Store<K, V>, k: K, e: nat, v: V): Store<K, V> {
    WithColumn(s, k, Inserted(Column(s, k), e, v))
  }

  function Removed<K, V>(s: Store<K, V>, k: K, e: nat): Store<K, V> {
    WithColumn(s, k, Erased(Column(s, k), e))
  }

  /** kill_entity: every erase function runs, then the id joins the queue of the dead. */
  function Killed<K, V>(s: Store<K, V>, e: nat): Store<K, V> {
    var erased := map k | k in s.components.Keys + s.erasers ::
      if k in s.erasers then Erased(Column(s, k), e) else s.components[k];
    Store(erased, s.erasers, s.dead + [e], s.next)
  }

  /** spawn_entity: the oldest dead id, else the counter; the source throws when both are used up. */
  function Spawned<K, V>(s: Store<K, V>): Option<(Store<K, V>, nat)> {
    if s.dead != [] then Some((s.(dead := s.dead[1..]), s.dead[0]))
    else if s.next < SIZE_MAX then Some((s.(next := s.next + 1), s.next))
    else None
  }

  /** Every stored type has its erase function and no other has. */
  predicate Wired<K, V>(s: Store<K, V>) {
    s.erasers == s.components.Keys
  }

  // ---------------------------------------------------------------- the same operations on Table

  function View<K, V>(s: Store<K, V>): Table<K, V> {
    Table(map k, e | k in s.components && 0 <= e < |s.components[k]| && s.components[k][e].Some?
            :: (k, e) := s.components[k][e].value,
          s.dead, s.next)
  }

  function Lookup<K, V>(t: Table<K, V>, k: K, e: nat): Option<V> {
    if (k, e) in t.cells then Some(t.cells[(k, e)]) else None
  }

  function Put<K, V>(t: Table<K, V>, k: K, e: nat, v: V): Table<K, V> {
    t.(cells := t.cells[(k, e) := v])
  }

  function Delete<K, V>(t: Table<K, V>, k: K, e: nat): Table<K, V> {
    t.(cells := t.cells - {(k, e)})
  }

  function Retire<K, V>(t: Table<K, V>, e: nat): Table<K, V> {
    t.(cells := map c | c in t.cells && c.1 != e :: t.cells[c], dead := t.dead + [e])
  }

  function Allocate<K, V>(t: Table<K, V>): Option<(Table<K, V>, nat)> {
    if t.dead != [] then Some((t.(dead := t.dead[1..]), t.dead[0]))
    else if t.next < SIZE_MAX then Some((t.(next := t.next + 1), t.next))
    else None
  }

  /** Cell by cell: adding writes one cell, removing empties one, killing empties the entity's and makes its id the last
      of the dead, spawning takes the first of the dead or else the counter, and empties none. */
  lemma CellsAfter<K, V>(t: Table<K, V>, k: K, e: nat, v: V, j: K, x: nat)
    ensures Lookup(Put(t, k, e, v), j, x) == if j == k && x == e then Some(v) else Lookup(t, j, x)
    ensures Lookup(Delete(t, k, e), j, x) == if j == k && x == e then None else Lookup(t, j, x)
    ensures Lookup(Retire(t, e), j, x) == if x == e then None else Lookup(t, j, x)
    ensures Retire(t, e).dead == t.dead + [e] && Retire(t, e).next == t.next
    ensures match Allocate(t)
      case None => t.dead == [] && t.next >= SIZE_MAX
      case Some(r) =>
        && r.0.cells == t.cells
        && if t.dead == [] then r.1 == t.next && r.0.dead == [] && r.0.next == t.next + 1
           else t.dead == [r.1] + r.0.dead && r.0.next == t.next
  {
    if t.dead != [] {
      HeadAndTail(t.dead);
    }
  }

  // ---------------------------------------------------------------- one operation refines the plain map

  lemma ViewCells<K, V>(s: Store<K, V>, k: K, e: nat)
    ensures Lookup(View(s), k, e) == Cell(Column(s, k), e)
  {
  }

  lemma ColumnAfter<K, V>(s: Store<K, V>, k: K, data: seq<Option<V>>, k': K)
    ensures Column(WithColumn(s, k, data), k') == if k' == k then data else Column(s, k')
    ensures Wired(s) ==> Wired(WithColumn(s, k, data))
    ensures WithColumn(s, k, data).dead == s.dead && WithColumn(s, k, data).next == s.next
  {
  }

  /** One cell after replacing a column. */
  lemma CellAfter<K, V>(s: Store<K, V>, k: K, data: seq<Option<V>>, k': K, e': nat)
    ensures Lookup(View(WithColumn(s, k, data)), k', e') == if k' == k then Cell(data, e') else Lookup(View(s), k', e')
  {
    ColumnAfter(s, k, data, k');
    ViewCells(s, k', e');
    ViewCells(WithColumn(s, k, data), k', e');
  }

  function Assigned<K, V>(t: Table<K, V>, k: K, e: nat, c: Option<V>): Table<K, V> {
    match c
    case Some(v) => Put(t, k, e, v)
    case None => Delete(t, k, e)
  }

  lemma AssignedCell<K, V>(t: Table<K, V>, k: K, e: nat, c: Option<V>, k': K, e': nat)
    ensures Lookup(Assigned(t, k, e, c), k', e') == if k' == k && e' == e then c else Lookup(t, k', e')
  {
  }

  lemma AssignSame<K, V>(t: Table<K, V>, k: K, e: nat)
    ensures Assigned(t, k, e, Lookup(t, k, e)) == t
  {
    var a := Assigned(t, k, e, Lookup(t, k, e));
    assert a.cells == t.cells;
  }

  /** Replacing one column by one that differs at most at e. */
  lemma ColumnUpdate<K, V>(s: Store<K, V>, k: K, e: nat, data: seq<Option<V>>)
    requires forall j: nat :: j != e ==> Cell(data, j) == Cell(Column(s, k), j)
    ensures View(WithColumn(s, k, data)) == Assigned(View(s), k, e, Cell(data, e))
  {
    var a, b := View(WithColumn(s, k, data)), Assigned(View(s), k, e, Cell(data, e));
    forall k': K, e': nat
      ensures Lookup(a, k', e') == Lookup(b, k', e')
    {
      CellAfter(s, k, data, k', e');
      AssignedCell(View(s), k, e, Cell(data, e), k', e');
      ViewCells(s, k', e');
    }
    ColumnAfter(s, k, data, k);
    SameLookups(a, b);
  }

  lemma SameLookups<K, V>(a: Table<K, V>, b: Table<K, V>)
    requires forall k: K, e: nat :: Lookup(a, k, e) == Lookup(b, k, e)
    requires a.dead == b.dead && a.next == b.next
    ensures a == b
  {
    forall c: (K, nat)
      ensures c in a.cells <==> c in b.cells
      ensures c in a.cells ==> a.cells[c] == b.cells[c]
    {
      assert Lookup(a, c.0, c.1) == Lookup(b, c.0, c.1);
    }
    assert a.cells == b.cells;
  }

  lemma RegisterIsInvisible<K, V>(s: Store<K, V>, k: K)
    ensures View(Registered(s, k)) == View(s)
  {
    var s' := Registered(s, k);
    forall k': K, e': nat
      ensures Lookup(View(s'), k', e') == Lookup(View(s), k', e')
    {
      ViewCells(s, k', e');
      ViewCells(s', k', e');
    }
    SameLookups(View(s'), View(s));
  }

  /** Growth on read is invisible. */
  lemma TouchIsInvisible<K, V>(s: Store<K, V>, k: K, e: nat)
    ensures View(Touched(s, k, e)) == View(s)
  {
    ColumnUpdate(s, k, e, Grown(Column(s, k), e));
    ViewCells(s, k, e);
    AssignSame(View(s), k, e);
  }

  lemma AddIsPut<K, V>(s: Store<K, V>, k: K, e: nat, v: V)
    ensures View(Added(s, k, e, v)) == Put(View(s), k, e, v)
  {
    ColumnUpdate(s, k, e, Inserted(Column(s, k), e, v));
  }

  lemma RemoveIsDelete<K, V>(s: Store<K, V>, k: K, e: nat)
    ensures View(Removed(s, k, e)) == Delete(View(s), k, e)
  {
    ColumnUpdate(s, k, e, Erased(Column(s, k), e));
  }

  /** Killing erases the entity's components of every type, because every stored type has its erase function. */
  lemma KillIsKill<K, V>(s: Store<K, V>, e: nat)
    requires Wired(s)
    ensures View(Killed(s, e)) == Retire(View(s), e)
  {
    var s' := Killed(s, e);
    forall k': K, e': nat
      ensures Lookup(View(s'), k', e') == Lookup(Retire(View(s), e), k', e')
    {
      ViewCells(s, k', e');
      ViewCells(s', k', e');
    }
    SameLookups(View(s'), Retire(View(s), e));
  }

  // ---------------------------------------------------------------- whole runs

  datatype Op<K, V> =
    | Register(k: K) | Add(k: K, e: nat, v: V) | Emplace(k: K, e: nat, v: V) | Remove(k: K, e: nat)
    | Get(k: K, e: nat) | IsRegistered(k: K, e: nat) | Kill(e: nat) | Spawn

  /** What the caller sees. */
  datatype Answer<V> = Nothing | Component(c: Option<V>) | Truth(b: bool) | Entity(id: nat) | Exhausted

  function StoreStep<K, V>(s: Store<K, V>, op: Op<K, V>): (Store<K, V>, Answer<V>) {
    match op
    case Register(k) => (Registered(s, k), Nothing)
    case Add(k, e, v) => (Added(s, k, e, v), Component(Some(v)))
    case Emplace(k, e, v) => (Added(s, k, e, v), Component(Some(v)))
    case Remove(k, e) => (Removed(s, k, e), Nothing)
    case Get(k, e) => (Touched(s, k, e), Component(Cell(Column(s, k), e)))
    case IsRegistered(k, e) => (s, Truth(EntityRegistered(s, k, e)))
    case Kill(e) => (Killed(s, e), Nothing)
    case Spawn =>
      match Spawned(s)
      case None => (s, Exhausted)
      case Some(r) => (r.0, Entity(r.1))
  }

  function TableStep<K, V>(t: Table<K, V>, op: Op<K, V>): (Table<K, V>, Answer<V>) {
    match op
    case Register(_) => (t, Nothing)
    case Add(k, e, v) => (Put(t, k, e, v), Component(Some(v)))
    case Emplace(k, e, v) => (Put(t, k, e, v), Component(Some(v)))
    case Remove(k, e) => (Delete(t, k, e), Nothing)
    case Get(k, e) => (t, Component(Lookup(t, k, e)))
    case IsRegistered(k, e) => (t, Truth((k, e) in t.cells))
    case Kill(e) => (Retire(t, e), Nothing)
    case Spawn =>
      match Allocate(t)
      case None => (t, Exhausted)
      case Some(r) => (r.0, Entity(r.1))
  }

  function StoreRun<K, V>(s: Store<K, V>, ops: seq<Op<K, V>>): (Store<K, V>, seq<Answer<V>>)
    decreases |ops|
  {
    if ops == [] then (s, []) else
    var (s1, a) := StoreStep(s, ops[0]);
    var (s2, rest) := StoreRun(s1, ops[1..]);
    (s2, [a] + rest)
  }

  function TableRun<K, V>(t: Table<K, V>, ops: seq<Op<K, V>>): (Table<K, V>, seq<Answer<V>>)
    decreases |ops|
  {
    if ops == [] then (t, []) else
    var (t1, a) := TableStep(t, ops[0]);
    var (t2, rest) := TableRun(t1, ops[1..]);
    (t2, [a] + rest)
  }

  lemma StepKeepsWired<K, V>(s: Store<K, V>, op: Op<K, V>)
    requires Wired(s)
    ensures Wired(StoreStep(s, op).0)
  {
  }

  lemma StepRefines<K, V>(s: Store<K, V>, op: Op<K, V>)
    requires Wired(s)
    ensures View(StoreStep(s, op).0) == TableStep(View(s), op).0
    ensures StoreStep(s, op).1 == TableStep(View(s), op).1
  {
    hide Added, Removed, Touched, Killed, Registered, View, Retire, Put, Delete, Spawned;
    match op
    case Register(k) => RegisterIsInvisible(s, k);
    case Add(k, e, v) => AddIsPut(s, k, e, v);
    case Emplace(k, e, v) => AddIsPut(s, k, e, v);
    case Remove(k, e) => RemoveIsDelete(s, k, e);
    case Get(k, e) => GetRefines(s, k, e);
    case IsRegistered(k, e) => ViewCells(s, k, e);
    case Kill(e) => KillIsKill(s, e);
    case Spawn => SpawnRefines(s);
  }

  lemma GetRefines<K, V>(s: Store<K, V>, k: K, e: nat)
    ensures View(Touched(s, k, e)) == View(s)
    ensures Cell(Column(s, k), e) == Lookup(View(s), k, e)
  {
    TouchIsInvisible(s, k, e);
    ViewCells(s, k, e);
  }

  lemma SpawnRefines<K, V>(s: Store<K, V>)
    ensures Spawned(s).Some? <==> Allocate(View(s)).Some?
    ensures Spawned(s).Some? ==>
      View(Spawned(s).value.0) == Allocate(View(s)).value.0 && Spawned(s).value.1 == Allocate(View(s)).value.1
  {
  }

  /** Any sequence of operations gives the answers, and the contents, of the plain map. */
  lemma {:induction false} RegistryRefinesMap<K, V>(s: Store<K, V>, ops: seq<Op<K, V>>)
    requires Wired(s)
    ensures Wired(StoreRun(s, ops).0)
    ensures View(StoreRun(s, ops).0) == TableRun(View(s), ops).0
    ensures StoreRun(s, ops).1 == TableRun(View(s), ops).1
    decreases |ops|
  {
    if ops != [] {
      StepKeepsWired(s, ops[0]);
      StepRefines(s, ops[0]);
      RegistryRefinesMap(StoreStep(s, ops[0]).0, ops[1..]);
    }
  }

  /** The operations that make a type's array non-empty. */
  predicate Fills<K(==), V>(op: Op<K, V>, k: K) {
    (op.Add? || op.Emplace? || op.Get?) && op.k == k
  }

  lemma FillingStep<K, V>(s: Store<K, V>, op: Op<K, V>, k: K)
    requires Wired(s)
    ensures TypeRegistered(StoreStep(s, op).0, k) <==> TypeRegistered(s, k) || Fills(op, k)
  {
    match op
    case Register(j) =>
    case Add(j, e, v) => ColumnAfter(s, j, Inserted(Column(s, j), e, v), k);
    case Emplace(j, e, v) => ColumnAfter(s, j, Inserted(Column(s, j), e, v), k);
    case Remove(j, e) => ColumnAfter(s, j, Erased(Column(s, j), e), k);
    case Get(j, e) => ColumnAfter(s, j, Grown(Column(s, j), e), k);
    case _ =>
  }

  predicate EverFilled<K(==), V>(ops: seq<Op<K, V>>, k: K) {
    ops != [] && (Fills(ops[0], k) || EverFilled(ops[1..], k))
  }

  /** The type-level isRegistered is not an observation of the map: it says that the type was ever added or read. */
  lemma {:induction false} TypeRegisteredMeansTouched<K, V>(s: Store<K, V>, ops: seq<Op<K, V>>, k: K)
    requires Wired(s)
    ensures TypeRegistered(StoreRun(s, ops).0, k) <==> TypeRegistered(s, k) || EverFilled(ops, k)
    decreases |ops|
  {
    if ops != [] {
      StepKeepsWired(s, ops[0]);
      FillingStep(s, ops[0], k);
      TypeRegisteredMeansTouched(StoreStep(s, ops[0]).0, ops[1..], k);
    }
  }

  // ---------------------------------------------------------------- the entity allocator

  /** Live and dead ids partition 0..next-1, no id died twice, and only live entities have components. */
  ghost predicate Allocated<K, V>(t: Table<K, V>, live: set<nat>) {
    && Distinct(t.dead)
    && (forall i: nat :: i in live ==> i !in t.dead)
    && (forall i: nat :: i in live || i in t.dead <==> i < t.next)
    && forall c :: c in t.cells ==> c.1 in live
  }

  /** Only live entities are killed or given components. */
  predicate Disciplined<K, V>(live: set<nat>, op: Op<K, V>) {
    match op
    case Add(_, e, _) => e in live
    case Emplace(_, e, _) => e in live
    case Kill(e) => e in live
    case _ => true
  }

  function LiveAfter<K, V>(t: Table<K, V>, live: set<nat>, op: Op<K, V>): set<nat> {
    match op
    case Kill(e) => live - {e}
    case Spawn => (match Allocate(t) case None => live case Some(r) => live + {r.1})
    case _ => live
  }

  /** A spawned id was not live, is below the counter, and has no component of any type. */
  lemma SpawnIsFresh<K, V>(t: Table<K, V>, live: set<nat>)
    requires Allocated(t, live) && Allocate(t).Some?
    ensures var (t', id) := Allocate(t).value;
      id !in live && id < t'.next && t'.cells == t.cells && forall k :: (k, id) !in t'.cells
    ensures Allocated(Allocate(t).value.0, live + {Allocate(t).value.1})
  {
    var (t', id) := Allocate(t).value;
    if t.dead != [] {
      assert t.dead == [id] + t'.dead;
    }
    assert forall c :: c in t.cells ==> c.1 != id;
  }

  /** Killing keeps the partition exactly when the entity is live. */
  lemma KillNeedsLive<K, V>(t: Table<K, V>, live: set<nat>, e: nat)
    requires Allocated(t, live)
    ensures Allocated(Retire(t, e), live - {e}) <==> e in live
  {
    var t' := Retire(t, e);
    if e in t.dead {
      var i :| 0 <= i < |t.dead| && t.dead[i] == e;
      assert t'.dead[i] == t'.dead[|t.dead|];
    } else {
      assert e in t'.dead;
    }
  }

  /** Adding keeps the partition exactly when the entity is live. */
  lemma AddNeedsLive<K, V>(t: Table<K, V>, live: set<nat>, k: K, e: nat, v: V)
    requires Allocated(t, live)
    ensures Allocated(Put(t, k, e, v), live) <==> e in live
  {
    assert (k, e) in Put(t, k, e, v).cells;
  }

  lemma AllocatorStep<K, V>(t: Table<K, V>, live: set<nat>, op: Op<K, V>)
    requires Allocated(t, live) && Disciplined(live, op)
    ensures Allocated(TableStep(t, op).0, LiveAfter(t, live, op))
  {
    match op
    case Add(k, e, v) => AddNeedsLive(t, live, k, e, v);
    case Emplace(k, e, v) => AddNeedsLive(t, live, k, e, v);
    case Kill(e) => KillNeedsLive(t, live, e);
    case Spawn => if Allocate(t).Some? { SpawnIsFresh(t, live); }
    case Remove(k, e) => assert forall c :: c in Delete(t, k, e).cells ==> c in t.cells;
    case _ =>
  }

  predicate DisciplinedRun<K, V>(t: Table<K, V>, live: set<nat>, ops: seq<Op<K, V>>)
    decreases |ops|
  {
    ops == [] || (Disciplined(live, ops[0])
                  && DisciplinedRun(TableStep(t, ops[0]).0, LiveAfter(t, live, ops[0]), ops[1..]))
  }

  function LiveAfterRun<K, V>(t: Table<K, V>, live: set<nat>, ops: seq<Op<K, V>>): set<nat>
    decreases |ops|
  {
    if ops == [] then live
    else LiveAfterRun(TableStep(t, ops[0]).0, LiveAfter(t, live, ops[0]), ops[1..])
  }

  /** In every run that kills and equips only live entities, ids stay partitioned and components stay on live ids. */
  lemma {:induction false} AllocatorRun<K, V>(t: Table<K, V>, live: set<nat>, ops: seq<Op<K, V>>)
    requires Allocated(t, live) && DisciplinedRun(t, live, ops)
    ensures Allocated(TableRun(t, ops).0, LiveAfterRun(t, live, ops))
    decreases |ops|
  {
    if ops != [] {
      AllocatorStep(t, live, ops[0]);
      AllocatorRun(TableStep(t, ops[0]).0, LiveAfter(t, live, ops[0]), ops[1..]);
    }
  }

  /** The ids killed by a run, in order of death. */
  function Deaths<K, V>(ops: seq<Op<K, V>>): seq<nat> {
    if ops == [] then [] else (if ops[0].Kill? then [ops[0].e] else []) + Deaths(ops[1..])
  }

  /** The ids a run took from the queue of the dead, in order of reuse. */
  function Reused<K, V>(t: Table<K, V>, ops: seq<Op<K, V>>): seq<nat>
    decreases |ops|
  {
    if ops == [] then [] else
    (if ops[0].Spawn? && t.dead != [] then [t.dead[0]] else []) + Reused(TableStep(t, ops[0]).0, ops[1..])
  }

  /** Ids are reused in order of death: in any run the reused ids followed by those still dead are the deaths. */
  lemma {:induction false} ReuseIsFifo<K, V>(t: Table<K, V>, ops: seq<Op<K, V>>)
    ensures t.dead + Deaths(ops) == Reused(t, ops) + TableRun(t, ops).0.dead
    decreases |ops|
  {
    if ops == [] {
      assert t.dead + [] == [] + t.dead;
    } else {
      var t' := TableStep(t, ops[0]).0;
      ReuseIsFifo(t', ops[1..]);
      var died := if ops[0].Kill? then [ops[0].e] else [];
      var again := if ops[0].Spawn? && t.dead != [] then [t.dead[0]] else [];
      assert t.dead + died == again + t'.dead;
      Reassociate(t.dead, died, Deaths(ops[1..]), again, t'.dead, Reused(t', ops[1..]), TableRun(t', ops[1..]).0.dead);
    }
  }

  function Spawns<K, V>(n: nat): (ops: seq<Op<K, V>>)
    ensures |ops| == n
  {
    if n == 0 then [] else [Op<K, V>.Spawn] + Spawns(n - 1)
  }

  lemma {:induction false} SpawnsDrainTheDead<K, V>(t: Table<K, V>, n: nat)
    requires n <= |t.dead|
    ensures |TableRun(t, Spawns(n)).1| == n
    ensures forall i :: 0 <= i < n ==> TableRun(t, Spawns(n)).1[i] == Entity(t.dead[i])
    decreases n
  {
    if n > 0 {
      var t' := Allocate(t).value.0;
      SpawnsDrainTheDead(t', n - 1);
      assert Spawns<K, V>(n)[1..] == Spawns(n - 1);
      assert TableRun(t, Spawns(n)).1 == [Entity(t.dead[0])] + TableRun(t', Spawns(n - 1)).1;
    }
  }

  /** After n more spawns the next two get the same id. */
  predicate HandsOutTwice<K(==), V(==)>(t: Table<K, V>, n: nat, e: nat) {
    var answers := TableRun(t, Spawns(n + 2)).1;
    |answers| == n + 2 && answers[n] == Entity(e) && answers[n + 1] == Entity(e)
  }

  /** Killing an entity twice makes the allocator hand out its id twice in a row, once the older dead are used up. */
  lemma DoubleKillDuplicates<K, V>(t: Table<K, V>, e: nat)
    ensures HandsOutTwice(Retire(Retire(t, e), e), |t.dead|, e)
  {
    SpawnsDrainTheDead(Retire(Retire(t, e), e), |t.dead| + 2);
  }
}
