/** Flakkari/Engine/EntityComponentSystem/SparseArrays.hpp: a vector of optionals that grows when indexed, as the object
    it is and as a function on sequences. */
module SparseArrays {
  import opened Wrappers

  /** The data after `resize(i + 1, nullopt)` if i is past the end. */
  function Grown<C>(data: seq<Option<C>>, i: nat): (d: seq<Option<C>>)
    ensures |d| == if i < |data| then |data| else i + 1
    ensures data <= d && forall j :: |data| <= j < |d| ==> d[j] == None
  {
    if i < |data| then data else data + seq(i + 1 - |data|, j => None)
  }

  /** The component at i as an observer sees it: growth is invisible here. */
  function Cell<C>(data: seq<Option<C>>, i: nat): Option<C> {
    if i < |data| then data[i] else None
  }

  function Inserted<C>(data: seq<Option<C>>, i: nat, c: C): (d: seq<Option<C>>)
    ensures forall j: nat :: Cell(d, j) == if j == i then Some(c) else Cell(data, j)
  {
    Grown(data, i)[i := Some(c)]
  }

  function Erased<C>(data: seq<Option<C>>, i: nat): (d: seq<Option<C>>)
    ensures forall j: nat :: Cell(d, j) == if j == i then None else Cell(data, j)
  {
    if i < |data| then data[i := None] else data
  }

  class SparseArray<C(==)> {
    var data: seq<Option<C>>

    constructor ()
      ensures data == []
    {
      data := [];
    }

    /** operator[]: reading past the end grows the array. */
    method At(i: nat) returns (c: Option<C>)
      modifies this
      ensures data == Grown(old(data), i) && c == Cell(old(data), i)
    {
      if i >= |data| {
        data := data + seq(i + 1 - |data|, j => None);
      }
      c := data[i];
    }

    method InsertAt(i: nat, c: C)
      modifies this
      ensures data == Inserted(old(data), i, c)
    {
      if i >= |data| {
        data := data + seq(i + 1 - |data|, j => None);
      }
      data := data[i := Some(c)];
    }

    method EmplaceAt(i: nat, c: C)
      modifies this
      ensures data == Inserted(old(data), i, c)
    {
      if i >= |data| {
        data := data + seq(i + 1 - |data|, j => None);
      }
      data := data[i := Some(c)];
    }

    method Erase(i: nat)
      modifies this
      ensures data == Erased(old(data), i)
    {
      if i < |data| {
        data := data[i := None];
      }
    }

    /** The first slot holding `component`; the size if there is none, as always for an empty optional. */
    method GetIndex(component: Option<C>) returns (index: nat)
      ensures index <= |data|
      ensures index < |data| ==> component.Some? && data[index] == component
      ensures component.Some? ==> component !in data[..index]
      ensures component == None ==> index == |data|
    {
      index := 0;
      while index < |data| && !(data[index].Some? && data[index] == component)
        invariant index <= |data|
        invariant component.Some? ==> component !in data[..index]
      {
        index := index + 1;
      }
    }
  }
}
