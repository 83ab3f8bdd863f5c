/** The registry as the object it is: sparse arrays created on first use, erase functions, the id queue. Each method is
    proved to make the transition Registry gives. */
module RegistryObjects {
  import opened Wrappers
  import opened SparseArrays
  import opened Registries

  class Registry<K(==), V(==)> {
    var components: map<K, SparseArray<V>>
    var erasers: set<K>
    var dead: seq<nat>
    var next: nat
    ghost var Repr: set<object>

    ghost predicate Valid()
      reads this, Repr
    {
      && this in Repr
      && (forall k :: k in components ==> components[k] in Repr)
      && (forall j, k :: j in components && k in components && j != k ==> components[j] != components[k])
      && erasers == components.Keys
    }

    ghost function Model(): Store<K, V>
      requires Valid()
      reads this, Repr
    {
      Store(map k | k in components :: components[k].data, erasers, dead, next)
    }

    constructor ()
      ensures Valid() && fresh(Repr)
      ensures Model() == Store(map[], {}, [], 0)
    {
      components, erasers, dead, next := map[], {}, [], 0;
      Repr := {this};
    }

    lemma ValidIsWired()
      requires Valid()
      ensures Wired(Model())
    {
    }

    method Clear()
      requires Valid()
      modifies Repr
      ensures Valid() && Repr == old(Repr)
      ensures Model() == Store(map[], {}, [], 0)
    {
      components, erasers, dead, next := map[], {}, [], 0;
    }

    method SpawnEntity() returns (e: Option<nat>)
      requires Valid()
      modifies Repr
      ensures Valid() && Repr == old(Repr)
      ensures e.Some? <==> Spawned(old(Model())).Some?
      ensures e.Some? ==> (Model(), e.value) == Spawned(old(Model())).value
      ensures e.None? ==> Model() == old(Model())
    {
      ghost var s := Model();
      if dead != [] {
        e := Some(dead[0]);
        dead := dead[1..];
      } else if next < SIZE_MAX {
        e := Some(next);
        next := next + 1;
      } else {
        e := None;
      }
      assert Model().components == s.components;
    }

    method IsTypeRegistered(k: K) returns (b: bool)
      requires Valid()
      ensures b == TypeRegistered(Model(), k)
    {
      b := k in components && |components[k].data| > 0;
    }

    method IsRegistered(k: K, e: nat) returns (b: bool)
      requires Valid()
      ensures b == EntityRegistered(Model(), k, e)
    {
      if k in components && e < |components[k].data| {
        return components[k].data[e].Some?;
      }
      return false;
    }

    /** registerComponent: creates the array again as long as it is empty. */
    method RegisterComponent(k: K) returns (column: SparseArray<V>)
      requires Valid()
      modifies Repr
      ensures Valid() && fresh(Repr - old(Repr)) && old(Repr) <= Repr
      ensures Model() == Registered(old(Model()), k)
      ensures k in components && column == components[k]
    {
      var registered := IsTypeRegistered(k);
      if registered {
        return components[k];
      }
      column := new SparseArray();
      components := components[k := column];
      erasers := erasers + {k};
      Repr := Repr + {column};
    }

    method GetComponents(k: K) returns (column: SparseArray<V>)
      requires Valid()
      modifies Repr
      ensures Valid() && fresh(Repr - old(Repr)) && old(Repr) <= Repr
      ensures Model() == Registered(old(Model()), k)
      ensures k in components && column == components[k] && column.data == Column(old(Model()), k)
    {
      var registered := IsTypeRegistered(k);
      if !registered {
        column := RegisterComponent(k);
      } else {
        column := components[k];
      }
      assert Model().components[k] == column.data;
    }

    method GetAt(k: K, e: nat) returns (c: Option<V>)
      requires Valid()
      modifies Repr
      ensures Valid() && fresh(Repr - old(Repr)) && old(Repr) <= Repr
      ensures Model() == Touched(old(Model()), k, e)
      ensures c == Cell(Column(old(Model()), k), e)
    {
      hide Grown, Cell;
      var column := GetComponents(k);
      ghost var m := Model();
      c := column.At(e);
      assert forall j :: j in components && j != k ==> components[j] != column;
      assert Model().components == m.components[k := column.data];
      assert Model() == WithColumn(m, k, column.data);
    }

    method AddComponent(k: K, e: nat, v: V)
      requires Valid()
      modifies Repr
      ensures Valid() && fresh(Repr - old(Repr)) && old(Repr) <= Repr
      ensures Model() == Added(old(Model()), k, e, v)
    {
      hide Inserted;
      var column := GetComponents(k);
      ghost var m := Model();
      column.InsertAt(e, v);
      assert forall j :: j in components && j != k ==> components[j] != column;
      assert Model().components == m.components[k := column.data];
      assert Model() == WithColumn(m, k, column.data);
    }

    method EmplaceComponent(k: K, e: nat, v: V)
      requires Valid()
      modifies Repr
      ensures Valid() && fresh(Repr - old(Repr)) && old(Repr) <= Repr
      ensures Model() == Added(old(Model()), k, e, v)
    {
      hide Inserted;
      var column := GetComponents(k);
      ghost var m := Model();
      column.EmplaceAt(e, v);
      assert forall j :: j in components && j != k ==> components[j] != column;
      assert Model().components == m.components[k := column.data];
      assert Model() == WithColumn(m, k, column.data);
    }

    method RemoveComponent(k: K, e: nat)
      requires Valid()
      modifies Repr
      ensures Valid() && fresh(Repr - old(Repr)) && old(Repr) <= Repr
      ensures Model() == Removed(old(Model()), k, e)
    {
      hide Erased;
      var column := GetComponents(k);
      ghost var m := Model();
      column.Erase(e);
      assert forall j :: j in components && j != k ==> components[j] != column;
      assert Model().components == m.components[k := column.data];
      assert Model() == WithColumn(m, k, column.data);
    }

    /** Runs every erase function, in whatever order the table yields them. */
    method KillEntity(e: nat)
      requires Valid()
      modifies Repr
      ensures Valid() && fresh(Repr - old(Repr)) && old(Repr) <= Repr
      ensures Model() == Killed(old(Model()), e)
    {
      hide ErasedIn, Killed;
      ghost var s := Model();
      ghost var done := {};
      var todo := erasers;
      EraseEnds(s, e);
      while todo != {}
        invariant Valid() && fresh(Repr - old(Repr)) && old(Repr) <= Repr
        invariant todo !! done && todo + done == s.erasers
        invariant Model() == ErasedIn(s, done, e)
        decreases todo
      {
        var k :| k in todo;
        RunErase(k, e, s, done);
        todo, done := todo - {k}, done + {k};
      }
      EraseEnds(s, e);
      ghost var m := Model();
      dead := dead + [e];
      assert Model().components == m.components;
    }

    method RunErase(k: K, e: nat, ghost s: Store<K, V>, ghost done: set<K>)
      requires Valid() && Wired(s) && k in s.erasers && k !in done
      requires Model() == ErasedIn(s, done, e)
      modifies Repr
      ensures Valid() && fresh(Repr - old(Repr)) && old(Repr) <= Repr
      ensures Model() == ErasedIn(s, done + {k}, e)
    {
      RemoveComponent(k, e);
      EraseOneMore(s, done, k, e);
    }
  }

  /** The store after the erase functions of `done` have run. */
  ghost function ErasedIn<K, V>(s: Store<K, V>, done: set<K>, e: nat): Store<K, V> {
    s.(components := map k | k in s.components :: if k in done then Erased(s.components[k], e) else s.components[k])
  }

  lemma EraseOneMore<K, V>(s: Store<K, V>, done: set<K>, k: K, e: nat)
    requires Wired(s) && k in s.erasers && k !in done
    ensures Removed(ErasedIn(s, done, e), k, e) == ErasedIn(s, done + {k}, e)
  {
    var a, b := Removed(ErasedIn(s, done, e), k, e), ErasedIn(s, done + {k}, e);
    assert a.components == b.components;
    assert a.erasers == b.erasers;
  }

  lemma EraseEnds<K, V>(s: Store<K, V>, e: nat)
    requires Wired(s)
    ensures ErasedIn(s, {}, e) == s
    ensures var m := ErasedIn(s, s.erasers, e); m.(dead := m.dead + [e]) == Killed(s, e)
  {
    assert ErasedIn(s, {}, e).components == s.components;
    assert ErasedIn(s, s.erasers, e).components == Killed(s, e).components;
  }
}
