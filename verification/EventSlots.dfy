/** The clock component's pool of event slots, shared by any number of port callbacks that
    queue events and the one action thread that takes them out. Every step below is one
    operation on a list, or a private access to a slot that its owner has taken off the lists. */
module EventSlots {
  import opened Wrappers
  import opened Sequences

  const SLOTS: nat := 16

  type Slot = s: nat | s < SLOTS witness 0

  datatype Hand<E> = Hand(slot: Slot, event: E, filled: bool)

  datatype State<E, T(==)> = State(
    free: seq<Slot>,
    queue: seq<Slot>,
    pool: seq<E>,                  // the contents of the slots
    producers: map<T, Hand<E>>,    // callbacks that have taken a slot and not yet queued it
    consumer: Option<Slot>,        // the slot the action thread is copying out
    pushed: seq<E>,                // every event queued so far, in order
    handed: seq<E>,                // every event handed out so far, in order
    refused: nat)                  // how often queueing failed

  datatype Step<E, T> =
    | Take(thread: T, event: E)    // pop a free slot, or fail
    | Fill(thread: T)              // write the event into the slot
    | Push(thread: T)              // append the slot to the queue
    | PopQueue                     // the action thread pops the oldest slot
    | Recycle                      // it copies the event and returns the slot

  predicate Enabled<E, T>(s: State<E, T>, step: Step<E, T>) {
    match step
    case Take(t, _) => t !in s.producers
    case Fill(t) => t in s.producers && !s.producers[t].filled
    case Push(t) => t in s.producers && s.producers[t].filled
    case PopQueue => s.consumer.None? && s.queue != []
    case Recycle => s.consumer.Some?
  }

  function Next<E, T>(s: State<E, T>, step: Step<E, T>): State<E, T>
    requires Enabled(s, step) && |s.pool| == SLOTS
  {
    match step
    case Take(t, e) =>
      if s.free == [] then s.(refused := s.refused + 1)
      else s.(free := s.free[1..], producers := s.producers[t := Hand(s.free[0], e, false)])
    case Fill(t) =>
      var h := s.producers[t];
      s.(pool := s.pool[h.slot := h.event], producers := s.producers[t := h.(filled := true)])
    case Push(t) =>
      s.(queue := s.queue + [s.producers[t].slot], producers := s.producers - {t},
         pushed := s.pushed + [s.producers[t].event])
    case PopQueue => s.(queue := s.queue[1..], consumer := Some(s.queue[0]))
    case Recycle =>
      s.(free := s.free + [s.consumer.value], consumer := None, handed := s.handed + [s.pool[s.consumer.value]])
  }

  function Events<E>(queue: seq<Slot>, pool: seq<E>): (r: seq<E>)
    requires |pool| == SLOTS
    ensures |r| == |queue|
  {
    seq(|queue|, i requires 0 <= i < |queue| => pool[queue[i]])
  }

  /** The event being copied out, if any. */
  function InCopy<E, T>(s: State<E, T>): seq<E>
    requires |s.pool| == SLOTS
  {
    if s.consumer.Some? then [s.pool[s.consumer.value]] else []
  }

  /** Where a slot is: at most one of these four places. */
  ghost predicate Separate<E, T(!new)>(s: State<E, T>) {
    && Distinct(s.free) && Distinct(s.queue)
    && (forall x :: x in s.free ==> x !in s.queue)
    && (forall t :: t in s.producers ==> s.producers[t].slot !in s.free && s.producers[t].slot !in s.queue)
    && (forall t, u :: t in s.producers && u in s.producers && t != u ==> s.producers[t].slot != s.producers[u].slot)
    && (s.consumer.Some? ==>
          && s.consumer.value !in s.free && s.consumer.value !in s.queue
          && forall t :: t in s.producers ==> s.producers[t].slot != s.consumer.value)
  }

  ghost predicate Inv<E, T(!new)>(s: State<E, T>) {
    && |s.pool| == SLOTS
    && Separate(s)
    && |s.free| + |s.queue| + |s.producers| + (if s.consumer.Some? then 1 else 0) == SLOTS
    && (forall t :: t in s.producers && s.producers[t].filled ==> s.pool[s.producers[t].slot] == s.producers[t].event)
    && s.pushed == s.handed + InCopy(s) + Events(s.queue, s.pool)
  }

  lemma TakeKeeps<E, T(!new)>(s: State<E, T>, t: T, e: E)
    requires Inv(s) && Enabled(s, Take(t, e))
    ensures Inv(Next(s, Take(t, e)))
  {
    if s.free != [] {
      var n := Next(s, Take(t, e));
      assert s.free[0] in s.free;
      assert forall x :: x in n.free ==> x in s.free;
      assert forall i :: 0 < i < |s.free| ==> s.free[i] != s.free[0];
    }
  }

  lemma FillKeeps<E, T(!new)>(s: State<E, T>, t: T)
    requires Inv(s) && Enabled(s, Fill(t))
    ensures Inv(Next(s, Fill(t)))
  {
    var n := Next(s, Fill(t));
    assert Events(n.queue, n.pool) == Events(s.queue, s.pool);
    assert InCopy(n) == InCopy(s);
    assert n.producers.Keys == s.producers.Keys;
    assert |n.producers| == |s.producers|;
  }

  lemma PushKeeps<E, T(!new)>(s: State<E, T>, t: T)
    requires Inv(s) && Enabled(s, Push(t))
    ensures Inv(Next(s, Push(t)))
  {
    var n, x := Next(s, Push(t)), s.producers[t].slot;
    assert n.producers.Keys == s.producers.Keys - {t};
    assert |n.producers| == |s.producers| - 1;
    assert Events(n.queue, n.pool) == Events(s.queue, s.pool) + [s.producers[t].event];
  }

  lemma PopQueueKeeps<E, T(!new)>(s: State<E, T>)
    requires Inv(s) && Enabled(s, PopQueue)
    ensures Inv(Next(s, PopQueue))
  {
    var n := Next(s, PopQueue);
    assert s.queue[0] in s.queue;
    assert forall x :: x in n.queue ==> x in s.queue;
    assert Events(s.queue, s.pool) == [s.pool[s.queue[0]]] + Events(n.queue, n.pool);
  }

  lemma RecycleKeeps<E, T(!new)>(s: State<E, T>)
    requires Inv(s) && Enabled(s, Recycle)
    ensures Inv(Next(s, Recycle))
  {
    var n := Next(s, Recycle);
    assert Events(n.queue, n.pool) == Events(s.queue, s.pool);
  }

  lemma NextKeeps<E, T(!new)>(s: State<E, T>, step: Step<E, T>)
    requires Inv(s) && Enabled(s, step)
    ensures Inv(Next(s, step))
  {
    match step
    case Take(t, e) => TakeKeeps(s, t, e);
    case Fill(t) => FillKeeps(s, t);
    case Push(t) => PushKeeps(s, t);
    case PopQueue => PopQueueKeeps(s);
    case Recycle => RecycleKeeps(s);
  }

  ghost predicate Initial<E, T>(s: State<E, T>) {
    && |s.pool| == SLOTS && s.free == seq(SLOTS, i requires 0 <= i < SLOTS => i as Slot)
    && s.queue == [] && s.producers == map[] && s.consumer == None
    && s.pushed == [] && s.handed == [] && s.refused == 0
  }

  ghost predicate IsRun<E, T>(states: seq<State<E, T>>, steps: seq<Step<E, T>>) {
    && |states| == |steps| + 1 && Initial(states[0])
    && forall i :: 0 <= i < |steps| ==>
         |states[i].pool| == SLOTS && Enabled(states[i], steps[i]) && states[i + 1] == Next(states[i], steps[i])
  }

  lemma {:induction false} RunKeeps<E, T(!new)>(states: seq<State<E, T>>, steps: seq<Step<E, T>>, i: nat)
    requires IsRun(states, steps) && i < |states|
    ensures Inv(states[i])
  {
    if i == 0 {
      assert Events(states[0].queue, states[0].pool) == [];
    } else {
      RunKeeps(states, steps, i - 1);
      NextKeeps(states[i - 1], steps[i - 1]);
    }
  }

  /** In every reachable state no slot is lost and none is in two places; events come out in
      the order they were queued, unmodified; and queueing fails exactly when all sixteen slots
      are pending, being filled or being copied out. */
  lemma SlotsConserved<E, T(!new)>(states: seq<State<E, T>>, steps: seq<Step<E, T>>, i: nat)
    requires IsRun(states, steps) && i < |states|
    ensures var s := states[i];
            && |s.pool| == SLOTS && Separate(s)
            && |s.free| + |s.queue| + |s.producers| + (if s.consumer.Some? then 1 else 0) == 16
            && s.handed <= s.pushed
            && |s.pushed| == |s.handed| + |s.queue| + (if s.consumer.Some? then 1 else 0)
            && (s.consumer.Some? ==> s.pool[s.consumer.value] == s.pushed[|s.handed|])
    ensures i < |steps| && steps[i].Take? ==>
              (states[i + 1].refused == states[i].refused + 1 <==>
               |states[i].queue| + |states[i].producers| + (if states[i].consumer.Some? then 1 else 0) == SLOTS)
  {
    RunKeeps(states, steps, i);
    var s := states[i];
    assert s.pushed == s.handed + (InCopy(s) + Events(s.queue, s.pool));
  }

  // ---------------------------------------------------------------- the pool in place

  /** The two functions that use the pool, each run without interruption. */
  class EventPool<E> {
    var free: seq<Slot>
    var queue: seq<Slot>
    const pool: array<E>
    const attached: E -> Option<nat>   // the buffer an event carries, if any
    ghost var returned: seq<nat>       // buffers given back to the ports they came from

    ghost predicate Valid()
      reads this
    {
      && pool.Length == SLOTS && |free| + |queue| == SLOTS
      && Distinct(free) && Distinct(queue) && forall x :: x in free ==> x !in queue
    }

    /** The events queued, oldest first. */
    ghost function Pending(): seq<E>
      requires Valid()
      reads this, pool
    {
      Events(queue, pool[..])
    }

    constructor (filler: E, bufferOf: E -> Option<nat>)
      ensures Valid() && fresh(pool) && Pending() == [] && attached == bufferOf && returned == []
    {
      attached, returned := bufferOf, [];
      pool := new E[SLOTS](_ => filler);
      free := seq(SLOTS, i requires 0 <= i < SLOTS => i as Slot);
      queue := [];
    }

    method QueueEvent(event: E) returns (ok: bool)
      requires Valid()
      modifies this, pool
      ensures Valid()
      ensures ok <==> |old(Pending())| < SLOTS
      ensures returned == old(returned)
      ensures Pending() == old(Pending()) + if ok then [event] else []
    {
      if free == [] { return false; }
      var slot := free[0];
      assert slot !in queue && forall i :: 0 < i < |free| ==> free[i] != slot;
      free := free[1..];
      pool[slot] := event;
      queue := queue + [slot];
      assert Pending() == old(Pending()) + [event];
      return true;
    }

    method DequeueEvent() returns (event: Option<E>)
      requires Valid()
      modifies this
      ensures Valid()
      ensures event == if old(Pending()) == [] then None else Some(old(Pending())[0])
      ensures Pending() == if old(Pending()) == [] then [] else old(Pending())[1..]
      ensures returned == old(returned) +
                if event.Some? && attached(event.value).Some? then [attached(event.value).value] else []
    {
      if queue == [] {
        assert Pending() == [];
        return None;
      }
      var slot := queue[0];
      assert slot !in free && forall i :: 0 < i < |queue| ==> queue[i] != slot;
      queue := queue[1..];
      event := Some(pool[slot]);
      free := free + [slot];
      assert Pending() == old(Pending())[1..];
      var buffer := attached(event.value);
      if buffer.Some? { returned := returned + [buffer.value]; }
    }
  }
}
