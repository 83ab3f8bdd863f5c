/** How spawning, killing and moving entities changes what is visible in a scene. */
module SceneFacts {
  import opened Wrappers
  import opened Packets
  import opened Components
  import opened GameModel
  import R = Registries

  /** The component a template leaves under a kind: the last entry wins. */
  function LastOf(cs: seq<Component>, k: Kind): Option<Component>
    decreases |cs|
  {
    if cs == [] then None else
    match LastOf(cs[1..], k)
    case Some(c) => Some(c)
    case None => if KindOf(cs[0]) == k then Some(cs[0]) else None
  }

  /** c is the last entry of its kind. */
  predicate IsLast(cs: seq<Component>, k: Kind, c: Component) {
    exists i :: 0 <= i < |cs| && cs[i] == c && KindOf(c) == k && forall j :: i < j < |cs| ==> KindOf(cs[j]) != k
  }

  lemma {:induction false} LastOfIsLast(cs: seq<Component>, k: Kind)
    ensures LastOf(cs, k).None? <==> forall i :: 0 <= i < |cs| ==> KindOf(cs[i]) != k
    ensures LastOf(cs, k).Some? ==> IsLast(cs, k, LastOf(cs, k).value)
    decreases |cs|
  {
    hide KindOf;
    if cs != [] {
      LastOfIsLast(cs[1..], k);
      if LastOf(cs[1..], k).Some? {
        var c := LastOf(cs, k).value;
        var i :| 0 <= i < |cs[1..]| && cs[1..][i] == c && forall j :: i < j < |cs[1..]| ==> KindOf(cs[1..][j]) != k;
        assert cs[i + 1] == c;
        forall j | i + 1 < j < |cs|
          ensures KindOf(cs[j]) != k
        {
          assert cs[j] == cs[1..][j - 1];
        }
      } else {
        forall j | 0 <= j < |cs|
          ensures LastOf(cs, k).None? ==> KindOf(cs[j]) != k
        {
          assert j > 0 ==> cs[j] == cs[1..][j - 1];
        }
      }
    }
  }

  lemma OneLast(content: seq<Component>, k: Kind, c: Component)
    requires IsLast(content, k, c)
    ensures LastOf(content, k) == Some(c)
  {
    hide LastOf, KindOf;
    LastOfIsLast(content, k);
  }

  /** The id that the registry hands out next. */
  function FreshId(t: Scene): nat {
    if t.dead != [] then t.dead[0] else t.next
  }

  lemma InVisible(t: Scene, e: nat)
    ensures e in VisibleSet(t) <==> IsVisible(t, e)
  {
    if IsVisible(t, e) {
      assert (TRANSFORM_3D, e) in t.cells && (TRANSFORM_3D, e).1 == e;
    }
  }

  lemma SameVisible(t: Scene, u: Scene)
    requires forall e: nat :: IsVisible(t, e) <==> IsVisible(u, e)
    ensures VisibleSet(t) == VisibleSet(u)
  {
    hide VisibleSet, IsVisible;
    forall e: nat
      ensures e in VisibleSet(t) <==> e in VisibleSet(u)
    {
      InVisible(t, e);
      InVisible(u, e);
    }
  }

  lemma {:induction false} EquipCell(t: Scene, e: nat, cs: seq<Component>, k: Kind, e': nat)
    ensures R.Lookup(Equip(t, e, cs), k, e') ==
      if e' == e && LastOf(cs, k).Some? then LastOf(cs, k) else R.Lookup(t, k, e')
    ensures Equip(t, e, cs).dead == t.dead && Equip(t, e, cs).next == t.next
    decreases |cs|
  {
    hide KindOf;
    if cs != [] {
      EquipCell(R.Put(t, KindOf(cs[0]), e, cs[0]), e, cs[1..], k, e');
    }
  }

  /** The i-th entity of the scene gets the id i and the last component of each kind of its template, and nothing else
      is there. */
  lemma {:induction false} SceneCells(entities: seq<seq<Component>>, k: Kind, e: nat)
    ensures R.Lookup(Loaded(entities), k, e) == if e < |entities| then LastOf(entities[e], k) else None
    ensures Loaded(entities).next == |entities| && Loaded(entities).dead == []
    decreases |entities|
  {
    hide Equip, LastOf;
    if entities != [] {
      var n := |entities| - 1;
      var t := Loaded(entities[..n]);
      SceneCells(entities[..n], k, e);
      EquipCell(t.(next := t.next + 1), n, entities[n], k, e);
    }
  }

  /** A template whose entities are shown: it has a 3D transform and a tag other than the skybox's. */
  predicate ShowsUp(cs: seq<Component>) {
    var tag := LastOf(cs, TAG);
    LastOf(cs, TRANSFORM_3D).Some? && tag.Some? && tag.value != Common(Tag(SKYBOX)) && |TagOf(tag.value)| <= INT_MAX
  }

  /** No component of any kind sits on e. */
  ghost predicate Bare(t: Scene, e: nat) {
    forall k :: R.Lookup(t, k, e) == None
  }

  lemma EquipShows(t: Scene, e: nat, cs: seq<Component>, x: nat)
    requires Bare(t, e) && ShowsUp(cs)
    ensures IsVisible(Equip(t, e, cs), x) <==> x == e || IsVisible(t, x)
  {
    hide Equip, LastOf;
    EquipCell(t, e, cs, TRANSFORM_3D, x);
    EquipCell(t, e, cs, TAG, x);
  }

  lemma EquipVisible(t: Scene, e: nat, cs: seq<Component>)
    requires Bare(t, e) && ShowsUp(cs)
    ensures VisibleSet(Equip(t, e, cs)) == VisibleSet(t) + {e}
  {
    hide Equip, VisibleSet, IsVisible, ShowsUp, Bare;
    forall x: nat
      ensures x in VisibleSet(Equip(t, e, cs)) <==> x in VisibleSet(t) + {e}
    {
      EquipShows(t, e, cs, x);
      InVisible(t, x);
      InVisible(Equip(t, e, cs), x);
    }
  }

  /** Replacing a component other than the tag by another one shows nothing new and hides nothing. */
  lemma PutVisible(t: Scene, k: Kind, e: nat, c: Component)
    requires k != TAG && (k == TRANSFORM_3D ==> R.Lookup(t, k, e).Some?)
    ensures VisibleSet(R.Put(t, k, e, c)) == VisibleSet(t)
    ensures forall x: nat :: IsVisible(R.Put(t, k, e, c), x) <==> IsVisible(t, x)
  {
    hide VisibleSet;
    SameVisible(t, R.Put(t, k, e, c));
  }

  lemma RetireVisible(t: Scene, e: nat)
    ensures VisibleSet(R.Retire(t, e)) == VisibleSet(t) - {e}
    ensures forall x: nat :: IsVisible(R.Retire(t, e), x) <==> x != e && IsVisible(t, x)
  {
    forall x: nat
      ensures IsVisible(R.Retire(t, e), x) <==> x != e && IsVisible(t, x)
    {
      assert forall k :: R.Lookup(R.Retire(t, e), k, x) == if x == e then None else R.Lookup(t, k, x);
    }
    hide VisibleSet, IsVisible;
    forall x: nat
      ensures x in VisibleSet(R.Retire(t, e)) <==> x in VisibleSet(t) - {e}
    {
      InVisible(t, x);
      InVisible(R.Retire(t, e), x);
    }
  }

  lemma SameCellsVisible(t: Scene, u: Scene)
    requires t.cells == u.cells
    ensures VisibleSet(t) == VisibleSet(u)
    ensures forall x: nat :: IsVisible(t, x) <==> IsVisible(u, x)
  {
  }

  /** A freshly spawned entity is bare. */
  lemma AllocatedIsBare(t: Scene, live: set<nat>)
    requires R.Allocated(t, live) && R.Allocate(t).Some?
    ensures Bare(R.Allocate(t).value.0, R.Allocate(t).value.1)
  {
    R.SpawnIsFresh(t, live);
  }
}
