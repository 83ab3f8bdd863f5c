/** Flakkari/Network/PacketQueue.hpp: a deque whose operations are atomic, as its lock makes them, and what can happen
    when they interleave. */
module PacketQueues {
  import opened Wrappers
  import opened Sequences

  class PacketQueue<T> {
    var queue: seq<T>

    constructor ()
      ensures queue == []
    {
      queue := [];
    }

    method PushBack(x: T)
      modifies this
      ensures queue == old(queue) + [x]
    {
      queue := queue + [x];
    }

    method PopFront() returns (x: T)
      requires queue != []
      modifies this
      ensures [x] + queue == old(queue)
    {
      x := queue[0];
      queue := queue[1..];
    }

    method Empty() returns (b: bool)
      ensures b <==> queue == []
    {
      b := |queue| == 0;
    }

    /** UDPClient::getNextPacket, with nobody in between. */
    method GetNext() returns (r: Option<T>)
      modifies this
      ensures old(queue) == [] ==> r == None && queue == []
      ensures old(queue) != [] ==> r.Some? && [r.value] + queue == old(queue)
    {
      var e := Empty();
      if e {
        return None;
      }
      var x := PopFront();
      r := Some(x);
    }
  }

  // ---------------------------------------------------------------- interleavings

  /** One atomic operation: some producer's push_back, or consumer c's empty() and its later pop_front(). */
  datatype Action<T> = Push(x: T) | Check(c: nat) | Pop(c: nat)

  /** The deque, what was ever pushed and popped, and the consumers that have seen the deque non-empty. */
  datatype Shared<T> = Shared(queue: seq<T>, pushed: seq<T>, popped: seq<T>, ready: set<nat>)

  function Start<T>(): Shared<T> {
    Shared([], [], [], {})
  }

  /** A consumer pops only after its own check said non-empty, and then checks again. */
  predicate Enabled<T>(s: Shared<T>, a: Action<T>) {
    match a
    case Push(_) => true
    case Check(c) => c !in s.ready
    case Pop(c) => c in s.ready
  }

  /** None: pop_front met an empty deque. */
  function Step<T>(s: Shared<T>, a: Action<T>): Option<Shared<T>> {
    match a
    case Push(x) => Some(s.(queue := s.queue + [x], pushed := s.pushed + [x]))
    case Check(c) => Some(if s.queue == [] then s else s.(ready := s.ready + {c}))
    case Pop(c) =>
      if s.queue == [] then None
      else Some(Shared(s.queue[1..], s.pushed, s.popped + [s.queue[0]], s.ready - {c}))
  }

  function Run<T>(s: Shared<T>, schedule: seq<Action<T>>): Option<Shared<T>>
    decreases |schedule|
  {
    if schedule == [] then Some(s) else
    match Step(s, schedule[0])
    case None => None
    case Some(s') => Run(s', schedule[1..])
  }

  /** Every consumer follows its program, as long as nothing has gone wrong. */
  predicate FollowsProgram<T>(s: Shared<T>, schedule: seq<Action<T>>)
    decreases |schedule|
  {
    schedule == [] || (Enabled(s, schedule[0]) &&
      match Step(s, schedule[0])
      case None => true
      case Some(s') => FollowsProgram(s', schedule[1..]))
  }

  ghost predicate OnlyConsumer<T>(schedule: seq<Action<T>>, c: nat) {
    forall a :: a in schedule ==> a.Push? || a.c == c
  }

  ghost predicate Sound<T>(s: Shared<T>, c: nat) {
    s.pushed == s.popped + s.queue && s.ready <= {c} && (c in s.ready ==> s.queue != [])
  }

  lemma StepIsSound<T>(s: Shared<T>, a: Action<T>, c: nat)
    requires Sound(s, c) && Enabled(s, a) && (a.Push? || a.c == c)
    ensures Step(s, a).Some? && Sound(Step(s, a).value, c)
  {
    match a
    case Push(x) => Associative(s.popped, s.queue, [x]);
    case Check(_) =>
    case Pop(_) =>
      Associative(s.popped, [s.queue[0]], s.queue[1..]);
      HeadAndTail(s.queue);
  }

  /** With one consumer no interleaving pops an empty deque, and packets are consumed in push order. */
  lemma {:induction false} OneConsumerIsSafe<T>(s: Shared<T>, schedule: seq<Action<T>>, c: nat)
    requires Sound(s, c) && FollowsProgram(s, schedule) && OnlyConsumer(schedule, c)
    ensures Run(s, schedule).Some? && Sound(Run(s, schedule).value, c)
    ensures Run(s, schedule).value.popped <= Run(s, schedule).value.pushed
    decreases |schedule|
  {
    if schedule != [] {
      assert schedule[0] in schedule;
      StepIsSound(s, schedule[0], c);
      OneConsumerIsSafe(Step(s, schedule[0]).value, schedule[1..], c);
    }
  }

  /** With two consumers the check and the pop are not one step: this schedule pops an empty deque. */
  lemma TwoConsumersCanFail<T>(x: T)
    ensures var schedule := [Push(x), Check(0), Check(1), Pop(0), Pop(1)];
      FollowsProgram(Start(), schedule) && Run(Start(), schedule).None?
  {
    var s1 := Shared([x], [x], [], {});
    var s2, s3 := s1.(ready := {0}), s1.(ready := {0, 1});
    var s4 := Shared([], [x], [x], {1});
    var end: seq<Action<T>> := [Pop(1)];
    assert [x][1..] == [] && [] + [x] == [x];
    assert s1.ready + {0} == s2.ready && s2.ready + {1} == s3.ready && s3.ready - {0} == s4.ready;
    assert Step(s4, end[0]) == None;
    Unroll(s3, Pop(0), end, s4);
    Unroll(s2, Check(1), [Action<T>.Pop(0), Pop(1)], s3);
    Unroll(s1, Check(0), [Action<T>.Check(1), Pop(0), Pop(1)], s2);
    Unroll(Start(), Push(x), [Action<T>.Check(0), Check(1), Pop(0), Pop(1)], s1);
  }

  lemma Unroll<T>(s: Shared<T>, a: Action<T>, rest: seq<Action<T>>, s': Shared<T>)
    requires Enabled(s, a) && Step(s, a) == Some(s')
    ensures Run(s, [a] + rest) == Run(s', rest)
    ensures FollowsProgram(s, [a] + rest) <==> FollowsProgram(s', rest)
  {
    assert ([a] + rest)[1..] == rest;
  }
}
