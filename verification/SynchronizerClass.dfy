/** The Synchronizer component as the object it is: a dictionary of entities and a queue of actions to run. An entity is
    given by its template's name, an action by the packet it handles. */
module SynchronizerObjects {
  import opened Wrappers
  import opened Bytes
  import opened Packets
  import opened Synchronizers

  class Synchronizer {
    var entities: map<nat, text>
    var actions: seq<Frame>

    constructor ()
      ensures entities == map[] && actions == []
    {
      entities, actions := map[], [];
    }

    method Enqueue(action: Frame)
      modifies this`actions
      ensures actions == old(actions) + [action]
    {
      actions := actions + [action];
    }

    /** A known id keeps its entity. */
    method AddEntity(id: nat, entity: text)
      modifies this`entities
      ensures entities == if id in old(entities) then old(entities) else old(entities)[id := entity]
      ensures entities.Keys == old(entities).Keys + {id}
    {
      if id !in entities {
        entities := entities[id := entity];
      }
    }

    method RemoveEntity(id: nat)
      modifies this`entities
      ensures entities == old(entities) - {id}
    {
      if id in entities {
        entities := entities - {id};
      }
    }

    /** The indexer throws for an unknown id. */
    method GetEntity(id: nat) returns (entity: Option<text>)
      ensures entity == if id in entities then Some(entities[id]) else None
    {
      if id in entities {
        return Some(entities[id]);
      }
      return None;
    }

    /** The switch over the command, with the reads that ReqEntitySpawn and its siblings make. */
    method Invoke(action: Frame) returns (thrown: bool)
      modifies this`entities
      ensures thrown <==> Apply(old(entities).Keys, action).None?
      ensures entities.Keys == Handled(old(entities).Keys, action)
      ensures forall id :: id in entities && id in old(entities) ==> entities[id] == old(entities)[id]
    {
      var payload := action.payload;
      if action.header.command == REP_CONNECT || action.header.command == REQ_ENTITY_SPAWN {
        if |payload| < 12 || 12 + FromLE(payload[8..12]) > |payload| {
          return true;
        }
        AddEntity(FromLE(payload[..8]), payload[12..12 + FromLE(payload[8..12])]);
      } else if action.header.command == REQ_ENTITY_DESTROY {
        if |payload| < 8 {
          return true;
        }
        RemoveEntity(FromLE(payload[..8]));
      } else if action.header.command == REQ_ENTITY_UPDATE || action.header.command == REQ_ENTITY_MOVED {
        if |payload| < 8 {
          return true;
        }
        var entity := GetEntity(FromLE(payload[..8]));
        return entity.None? || (action.header.command == REQ_ENTITY_MOVED && |payload| < MOVED_READ_SIZE);
      }
      return false;
    }

    /** Update drains the queue, first in first out. An exception ends it: what came before has been done, the packet
        that threw is gone, and those behind it wait for the next call. */
    method Update() returns (thrown: bool)
      modifies this
      ensures thrown <==> Replay(old(entities).Keys, old(actions)).None?
      ensures !thrown ==> actions == [] && Replay(old(entities).Keys, old(actions)) == Some(entities.Keys)
      ensures thrown ==> |actions| < |old(actions)|
      ensures var n := |old(actions)| - |actions| - 1;
        thrown ==>
          && actions == old(actions)[n + 1..] && Apply(entities.Keys, old(actions)[n]) == None
          && Replay(old(entities).Keys, old(actions)[..n]) == Some(entities.Keys)
      ensures Drained(entities.Keys, actions) == Drained(old(entities).Keys, old(actions))
    {
      hide Apply;
      ghost var n := 0;
      while actions != []
        invariant n <= |old(actions)| && actions == old(actions)[n..]
        invariant Replay(old(entities).Keys, old(actions)[..n]) == Some(entities.Keys)
        invariant Replay(entities.Keys, actions) == Replay(old(entities).Keys, old(actions))
        invariant Drained(entities.Keys, actions) == Drained(old(entities).Keys, old(actions))
        decreases |actions|
      {
        var action := actions[0];
        actions := actions[1..];
        ReplayMore(old(entities).Keys, old(actions), n);
        thrown := Invoke(action);
        if thrown {
          return;
        }
        n := n + 1;
      }
      assert old(actions)[..n] == old(actions);
      thrown := false;
    }

    /** Update frame after frame, until nothing waits: every packet has been handled, whatever threw. */
    method UpdateEachFrame() returns (exceptions: nat)
      modifies this
      ensures actions == [] && entities.Keys == Drained(old(entities).Keys, old(actions))
      ensures exceptions == 0 <==> Replay(old(entities).Keys, old(actions)).Some?
    {
      exceptions := 0;
      var thrown := Update();
      while thrown
        invariant Drained(entities.Keys, actions) == Drained(old(entities).Keys, old(actions))
        invariant !thrown ==> actions == []
        invariant exceptions > 0 || (thrown <==> Replay(old(entities).Keys, old(actions)).None?)
        invariant exceptions > 0 ==> Replay(old(entities).Keys, old(actions)).None?
        decreases |actions|, thrown
      {
        exceptions := exceptions + 1;
        thrown := Update();
      }
    }
  }

  lemma ReplayMore(known: set<nat>, fs: seq<Frame>, n: nat)
    requires n < |fs| && Replay(known, fs[..n]).Some?
    ensures Replay(known, fs[..n + 1]) == Apply(Replay(known, fs[..n]).value, fs[n])
  {
    hide Apply;
    assert fs[..n + 1] == fs[..n] + [fs[n]];
    ReplayAppend(known, fs[..n], [fs[n]]);
    ReplayOne(Replay(known, fs[..n]).value, fs[n]);
  }
}
