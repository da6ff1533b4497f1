/** The Android audio renderer's count of queued bytes, shared by the threads that send buffers,
    the track callback that plays them and a client that flushes. Only the counter is under the
    lock; the queue has its own, so each step below is one access to either. */
module AafAudio {
  import opened Wrappers
  import opened CInt
  import opened AudioQueue

  const TWO_32: int := 0x1_0000_0000

  datatype Call = Idle | Playing(space: nat, played: nat, hand: Option<Buffer>, drained: bool)

  datatype Flushing = NoFlush | Draining | Drained

  datatype State = State(
    queue: seq<Buffer>,
    bytesQueued: int,          // an unsigned 32-bit counter
    inFlight: seq<Buffer>,     // counted by a sender, not yet put into the queue
    callback: Call,
    flush: Flushing,
    flushed: nat,              // taken off the queue by the flush under way, still counted
    returned: seq<nat>)

  datatype Step =
    | Count(buffer: Buffer)    // a sender adds the buffer's length
    | Put(i: nat)              // a sender queues its buffer
    | Begin(space: nat)        // the track asks for data
    | Get                      // the callback takes the first buffer
    | Play                     // it copies what fits
    | Settle                   // it puts the rest back, or returns the buffer
    | Finish                   // it subtracts what it played
    | BeginFlush
    | FlushOne                 // the flush returns the first buffer, or finds none
    | FlushZero                // and then zeroes the counter

  function Total(q: seq<Buffer>): nat {
    if q == [] then 0 else q[0].length + Total(q[1..])
  }

  /** Every byte that is, or is about to be, in the queue, or was played and not subtracted. */
  function Outstanding(s: State): nat {
    Total(s.queue) + Total(s.inFlight) +
    match s.callback
    case Idle => 0
    case Playing(_, played, hand, _) => played + if hand.Some? then hand.value.length else 0
  }

  predicate Enabled(s: State, step: Step) {
    match step
    case Count(_) => true
    case Put(i) => i < |s.inFlight|
    case Begin(_) => s.callback.Idle?
    case Get => s.callback.Playing? && s.callback.hand.None? && s.callback.space > 0 && !s.callback.drained
    case Play => s.callback.Playing? && s.callback.hand.Some? && s.callback.space > 0 && s.callback.hand.value.length > 0
    case Settle => s.callback.Playing? && s.callback.hand.Some? && (s.callback.space == 0 || s.callback.hand.value.length == 0)
    case Finish => s.callback.Playing? && s.callback.hand.None? && (s.callback.space == 0 || s.callback.drained)
    case BeginFlush => s.flush.NoFlush?
    case FlushOne => s.flush.Draining?
    case FlushZero => s.flush.Drained?
  }

  function Next(s: State, step: Step): State
    requires Enabled(s, step)
  {
    match step
    case Count(b) => s.(bytesQueued := (s.bytesQueued + b.length) % TWO_32, inFlight := s.inFlight + [b])
    case Put(i) => s.(queue := s.queue + [s.inFlight[i]], inFlight := s.inFlight[..i] + s.inFlight[i + 1..])
    case Begin(space) => s.(callback := Playing(space, 0, None, false))
    case Get =>
      if s.queue == [] then s.(callback := s.callback.(drained := true))
      else s.(queue := s.queue[1..], callback := s.callback.(hand := Some(s.queue[0])))
    case Play =>
      var c, b := s.callback, s.callback.hand.value;
      var bytes := Min(b.length, c.space);
      var rest := b.(offset := b.offset + bytes, length := b.length - bytes);
      s.(callback := Playing(c.space - bytes, c.played + bytes, Some(rest), c.drained))
    case Settle =>
      var b := s.callback.hand.value;
      var c := s.callback.(hand := None);
      if b.length > 0 then s.(queue := [b] + s.queue, callback := c)
      else s.(returned := s.returned + [b.id], callback := c)
    case Finish => s.(bytesQueued := (s.bytesQueued - s.callback.played) % TWO_32, callback := Idle)
    case BeginFlush => s.(flush := Draining)
    case FlushOne =>
      if s.queue == [] then s.(flush := Drained)
      else s.(queue := s.queue[1..], flushed := s.flushed + s.queue[0].length, returned := s.returned + [s.queue[0].id])
    case FlushZero => s.(bytesQueued := 0, flushed := 0, flush := NoFlush)
  }

  lemma {:induction false} TotalAppend(q: seq<Buffer>, r: seq<Buffer>)
    ensures Total(q + r) == Total(q) + Total(r)
  {
    if q == [] {
      assert q + r == r;
    } else {
      assert (q + r)[1..] == q[1..] + r;
      TotalAppend(q[1..], r);
    }
  }

  lemma TotalOne(b: Buffer)
    ensures Total([b]) == b.length
  {
    assert [b][1..] == [];
  }

  /** The counter is right: it counts what is outstanding and what a flush is about to forget. */
  ghost predicate Right(s: State) {
    s.bytesQueued == (Outstanding(s) + s.flushed) % TWO_32
  }

  /** How each step changes the outstanding bytes: counting, finishing and flushing do. */
  lemma StepChangesOutstanding(s: State, step: Step)
    requires Enabled(s, step)
    ensures Outstanding(Next(s, step)) + (if step.FlushZero? then 0 else Next(s, step).flushed - s.flushed)
         == Outstanding(s) + (if step.Count? then step.buffer.length else 0) - (if step.Finish? then s.callback.played else 0)
  {
    match step
    case Count(b) =>
      TotalAppend(s.inFlight, [b]);
      TotalOne(b);
    case Put(i) =>
      PutMoves(s, i);
    case Settle =>
      var b := s.callback.hand.value;
      assert ([b] + s.queue)[1..] == s.queue;
    case _ =>
  }

  lemma PutMoves(s: State, i: nat)
    requires i < |s.inFlight|
    ensures Total(s.queue + [s.inFlight[i]]) + Total(s.inFlight[..i] + s.inFlight[i + 1..]) == Total(s.queue) + Total(s.inFlight)
  {
    var b := s.inFlight[i];
    assert s.inFlight == s.inFlight[..i] + ([b] + s.inFlight[i + 1..]);
    TotalAppend(s.inFlight[..i], [b] + s.inFlight[i + 1..]);
    TotalAppend(s.inFlight[..i], s.inFlight[i + 1..]);
    TotalAppend([b], s.inFlight[i + 1..]);
    TotalAppend(s.queue, [b]);
    TotalOne(b);
  }

  lemma ModAdd(x: int, y: int, k: int)
    requires x == y % TWO_32
    ensures (x + k) % TWO_32 == (y + k) % TWO_32
  {
    var q := y / TWO_32;
    assert y == q * TWO_32 + x;
    assert y + k == (x + k) + q * TWO_32;
    assert (x + k) - ((x + k) / TWO_32) * TWO_32 == (x + k) % TWO_32;
    assert (y + k) / TWO_32 == (x + k) / TWO_32 + q;
  }

  /** Modulo 2^32 the counter is short by `missing` bytes; what a flush has taken off the queue is
      still counted until it zeroes the counter. */
  ghost predicate ShortBy(s: State, missing: int) {
    && s.bytesQueued == (Outstanding(s) + s.flushed - missing) % TWO_32
    && (s.flush.NoFlush? ==> s.flushed == 0)
  }

  lemma NextKeeps(s: State, step: Step, missing: int)
    requires ShortBy(s, missing) && Enabled(s, step)
    ensures ShortBy(Next(s, step), if step.FlushZero? then Outstanding(s) else missing)
  {
    StepChangesOutstanding(s, step);
    var counted := Outstanding(s) + s.flushed - missing;
    if step.Count? { ModAdd(s.bytesQueued, counted, step.buffer.length); }
    if step.Finish? { ModAdd(s.bytesQueued, counted, 0 - s.callback.played as int); }
  }

  ghost predicate IsRun(ss: seq<State>, steps: seq<Step>) {
    && |ss| == |steps| + 1
    && ss[0] == State([], 0, [], Idle, NoFlush, 0, [])
    && forall i :: 0 <= i < |steps| ==> Enabled(ss[i], steps[i]) && ss[i + 1] == Next(ss[i], steps[i])
  }

  /** What was outstanding when the latest flush zeroed the counter, 0 before the first. */
  function Forgotten(ss: seq<State>, steps: seq<Step>, i: nat): nat
    requires i < |ss| == |steps| + 1
  {
    if i == 0 then 0 else if steps[i - 1].FlushZero? then Outstanding(ss[i - 1]) else Forgotten(ss, steps, i - 1)
  }

  lemma {:induction false} RunKeeps(ss: seq<State>, steps: seq<Step>, i: nat)
    requires IsRun(ss, steps) && i < |ss|
    ensures ShortBy(ss[i], Forgotten(ss, steps, i))
  {
    if i > 0 {
      RunKeeps(ss, steps, i - 1);
      NextKeeps(ss[i - 1], steps[i - 1], Forgotten(ss, steps, i - 1));
    }
  }

  lemma Congruent(x: int, k: int)
    ensures (x - k) % TWO_32 == x % TWO_32 <==> k % TWO_32 == 0
  {
    var q, m := k / TWO_32, k % TWO_32;
    var d, r := x / TWO_32, x % TWO_32;
    assert x - k == (d - q) * TWO_32 + (r - m);
    ModShift(r - m, d - q);
  }

  lemma ModShift(x: int, q: int)
    ensures (q * TWO_32 + x) % TWO_32 == x % TWO_32
  {
    var d, m := x / TWO_32, x % TWO_32;
    assert q * TWO_32 + x == (q + d) * TWO_32 + m;
  }

  lemma RightWhen(s: State, missing: int)
    requires ShortBy(s, missing)
    ensures Right(s) <==> missing % TWO_32 == 0
  {
    Congruent(Outstanding(s) + s.flushed, missing);
  }

  /** In every interleaving of senders, callback and flushes the counter is the bytes in the
      queue, in flight, in hand, played and not subtracted, or taken off by a flush under way,
      less what the latest flush forgot, modulo 2^32. So it is right exactly when nothing, up
      to a multiple of 2^32, was outstanding when the latest flush zeroed it. */
  lemma BytesConserved(ss: seq<State>, steps: seq<Step>, i: nat)
    requires IsRun(ss, steps) && i < |ss|
    ensures ShortBy(ss[i], Forgotten(ss, steps, i))
    ensures Right(ss[i]) <==> Forgotten(ss, steps, i) % TWO_32 == 0
  {
    RunKeeps(ss, steps, i);
    RightWhen(ss[i], Forgotten(ss, steps, i));
  }

  /** A right counter that fits in 32 bits never underflows, and at rest it is what is queued. */
  lemma RightCounter(ss: seq<State>, steps: seq<Step>, i: nat)
    requires IsRun(ss, steps) && i < |ss|
    requires Forgotten(ss, steps, i) % TWO_32 == 0 && Outstanding(ss[i]) + ss[i].flushed < TWO_32
    ensures ss[i].callback.Playing? ==> ss[i].callback.played <= ss[i].bytesQueued
    ensures ss[i].callback.Idle? && ss[i].inFlight == [] && ss[i].flush.NoFlush? ==> ss[i].bytesQueued == Total(ss[i].queue)
  {
    RunKeeps(ss, steps, i);
    RightAt(ss[i], Outstanding(ss[i]) + ss[i].flushed, Forgotten(ss, steps, i));
  }

  lemma RightAt(s: State, counted: int, missing: int)
    requires ShortBy(s, missing) && missing % TWO_32 == 0 && counted == Outstanding(s) + s.flushed && counted < TWO_32
    ensures s.bytesQueued == counted
    ensures s.callback.Playing? ==> s.callback.played <= s.bytesQueued
    ensures s.callback.Idle? && s.inFlight == [] && s.flush.NoFlush? ==> s.bytesQueued == Total(s.queue)
  {
    Congruent(counted, missing);
    assert counted % TWO_32 == counted;
  }

  /** Zeroing makes the counter right exactly when no byte is outstanding at that very step:
      not only must the queue be empty, no other thread may have bytes in its hands. */
  lemma ZeroingKeepsExactlyWhen(s: State)
    requires Enabled(s, FlushZero)
    ensures Right(Next(s, FlushZero)) <==> Outstanding(s) % TWO_32 == 0
    ensures Outstanding(s) == 0 <==>
            && Total(s.queue) == 0 && Total(s.inFlight) == 0
            && (s.callback.Playing? ==> s.callback.played == 0 && (s.callback.hand.Some? ==> s.callback.hand.value.length == 0))
  {
  }

  /** The draining loop of a flush, when no other thread gets in between. */
  function Drain(s: State): State
    requires s.flush.Draining?
    decreases |s.queue|
  {
    if s.queue == [] then Next(s, FlushOne) else Drain(Next(s, FlushOne))
  }

  lemma {:induction false} DrainEmpties(s: State)
    requires s.flush.Draining?
    ensures var t := Drain(s);
            && t.flush.Drained? && t.queue == [] && t.inFlight == s.inFlight && t.callback == s.callback
            && t.bytesQueued == s.bytesQueued
            && t.flushed == s.flushed + Total(s.queue)
    decreases |s.queue|
  {
    if s.queue != [] { DrainEmpties(Next(s, FlushOne)); }
  }

  /** A flush that runs undisturbed leaves a right counter exactly when, up to a multiple of
      2^32, nothing but the queue held any bytes when it began. */
  lemma UndisturbedFlush(s: State)
    requires Enabled(s, BeginFlush)
    ensures var t := Drain(Next(s, BeginFlush));
            && Enabled(t, FlushZero)
            && (Right(Next(t, FlushZero)) <==> (Outstanding(s) - Total(s.queue)) % TWO_32 == 0)
  {
    DrainEmpties(Next(s, BeginFlush));
  }

  /** One more step of a run. */
  lemma Extend(ss: seq<State>, steps: seq<Step>, step: Step) returns (ss': seq<State>, steps': seq<Step>)
    requires IsRun(ss, steps) && Enabled(ss[|steps|], step)
    ensures steps' == steps + [step] && ss' == ss + [Next(ss[|steps|], step)] && IsRun(ss', steps')
    ensures ss'[|steps'|] == Next(ss[|steps|], step)
  {
    ss', steps' := ss + [Next(ss[|steps|], step)], steps + [step];
  }

  /** One buffer, counted and queued. */
  lemma OneQueued(b: Buffer) returns (ss: seq<State>, steps: seq<Step>)
    requires b.length < TWO_32
    ensures IsRun(ss, steps) && ss[|steps|] == State([b], b.length, [], Idle, NoFlush, 0, [])
  {
    ss, steps := [State([], 0, [], Idle, NoFlush, 0, [])], [];
    ss, steps := Extend(ss, steps, Count(b));
    ss, steps := Extend(ss, steps, Put(0));
  }

  /** Four of ten bytes played, the rest put back, and the callback about to subtract them. */
  lemma FourPlayed() returns (ss: seq<State>, steps: seq<Step>, b: Buffer)
    ensures IsRun(ss, steps) && ss[|steps|] == State([b], 10, [], Playing(0, 4, None, false), NoFlush, 0, [])
  {
    ss, steps := OneQueued(Buffer(1, seq(10, _ => 0), 0, 10, false));
    ss, steps := Extend(ss, steps, Begin(4));
    ss, steps := Extend(ss, steps, Get);
    ss, steps := Extend(ss, steps, Play);
    ss, steps := Extend(ss, steps, Settle);
    b := ss[|steps|].queue[0];
  }

  /** A flush between the callback's copying and its subtraction makes the counter wrap: at
      rest, with nothing queued, it is 2^32 - 4. */
  lemma FlushBesideCallback() returns (ss: seq<State>, steps: seq<Step>)
    ensures IsRun(ss, steps)
    ensures var s := ss[|steps|];
            s.queue == [] && s.inFlight == [] && s.callback.Idle? && s.flush.NoFlush? && s.bytesQueued == TWO_32 - 4
  {
    var b;
    ss, steps, b := FourPlayed();
    ss, steps := Extend(ss, steps, BeginFlush);
    ss, steps := Extend(ss, steps, FlushOne);
    ss, steps := Extend(ss, steps, FlushOne);
    ss, steps := Extend(ss, steps, FlushZero);
    ss, steps := Extend(ss, steps, Finish);
  }

  /** A buffer sent between the draining and the zeroing is queued but no longer counted,
      although no byte was in anyone's hands when the flush began, nor when it ended. */
  lemma SendBesideFlush() returns (ss: seq<State>, steps: seq<Step>)
    ensures IsRun(ss, steps)
    ensures var s := ss[|steps|];
            Total(s.queue) == 6 && s.inFlight == [] && s.callback.Idle? && s.flush.NoFlush? && s.bytesQueued == 0
  {
    ss, steps := OneQueued(Buffer(1, seq(10, _ => 0), 0, 10, false));
    ss, steps := Extend(ss, steps, BeginFlush);
    ss, steps := Extend(ss, steps, FlushOne);
    ss, steps := Extend(ss, steps, FlushOne);
    var late := Buffer(2, seq(6, _ => 0), 0, 6, false);
    ss, steps := Extend(ss, steps, Count(late));
    ss, steps := Extend(ss, steps, Put(0));
    ss, steps := Extend(ss, steps, FlushZero);
    TotalOne(late);
  }

  // ---------------------------------------------------------------- every buffer comes back

  function Ids(q: seq<Buffer>): (r: seq<nat>)
    ensures |r| == |q|
  {
    seq(|q|, i requires 0 <= i < |q| => q[i].id)
  }

  /** Where a buffer can be: queued, counted by a sender and not yet queued, in the callback's hand,
      or returned. */
  ghost function Present(s: State): multiset<nat> {
    multiset(Ids(s.queue)) + multiset(Ids(s.inFlight)) + multiset(s.returned)
    + if s.callback.Playing? && s.callback.hand.Some? then multiset{s.callback.hand.value.id} else multiset{}
  }

  /** The buffers senders have sent. */
  function SentIds(steps: seq<Step>): seq<nat> {
    if steps == [] then []
    else SentIds(steps[..|steps| - 1]) + if steps[|steps| - 1].Count? then [steps[|steps| - 1].buffer.id] else []
  }

  lemma IdsSplit(q: seq<Buffer>, i: nat)
    requires i < |q|
    ensures multiset(Ids(q)) == multiset(Ids(q[..i] + q[i + 1..])) + multiset{q[i].id}
  {
    assert Ids(q) == Ids(q[..i]) + [q[i].id] + Ids(q[i + 1..]);
    assert Ids(q[..i] + q[i + 1..]) == Ids(q[..i]) + Ids(q[i + 1..]);
  }

  lemma IdsAppend(q: seq<Buffer>, b: Buffer)
    ensures multiset(Ids(q + [b])) == multiset(Ids(q)) + multiset{b.id}
    ensures multiset(Ids([b] + q)) == multiset(Ids(q)) + multiset{b.id}
  {
    assert Ids(q + [b]) == Ids(q) + [b.id] && Ids([b] + q) == [b.id] + Ids(q);
  }

  /** Where the buffers are after a step, by what it does to them. */
  lemma StepKeepsBuffers(s: State, step: Step)
    requires Enabled(s, step)
    ensures Present(Next(s, step)) == Present(s) + if step.Count? then multiset{step.buffer.id} else multiset{}
  {
    match step
    case Count(b) => IdsAppend(s.inFlight, b);
    case Put(i) => PutKeeps(s, i);
    case Get => GetKeeps(s);
    case Settle => SettleKeeps(s);
    case FlushOne => FlushKeeps(s);
    case _ =>
  }

  lemma PutKeeps(s: State, i: nat)
    requires Enabled(s, Put(i))
    ensures Present(Next(s, Put(i))) == Present(s)
  {
    IdsSplit(s.inFlight, i);
    IdsAppend(s.queue, s.inFlight[i]);
  }

  lemma GetKeeps(s: State)
    requires Enabled(s, Get)
    ensures Present(Next(s, Get)) == Present(s)
  {
    if s.queue != [] { FirstTaken(s.queue); }
  }

  lemma SettleKeeps(s: State)
    requires Enabled(s, Settle)
    ensures Present(Next(s, Settle)) == Present(s)
  {
    IdsAppend(s.queue, s.callback.hand.value);
  }

  lemma FlushKeeps(s: State)
    requires Enabled(s, FlushOne)
    ensures Present(Next(s, FlushOne)) == Present(s)
  {
    if s.queue != [] { FirstTaken(s.queue); }
  }

  lemma FirstTaken(q: seq<Buffer>)
    requires q != []
    ensures multiset(Ids(q)) == multiset(Ids(q[1..])) + multiset{q[0].id}
  {
    assert [q[0]] + q[1..] == q;
    IdsAppend(q[1..], q[0]);
  }

  lemma {:induction false} BuffersPresent(ss: seq<State>, steps: seq<Step>, i: nat)
    requires IsRun(ss, steps) && i < |ss|
    ensures Present(ss[i]) == multiset(SentIds(steps[..i]))
  {
    if i == 0 {
      NothingSent();
    } else {
      BuffersPresent(ss, steps, i - 1);
      StepKeepsBuffers(ss[i - 1], steps[i - 1]);
      assert steps[..i][..i - 1] == steps[..i - 1];
    }
  }

  /** Every buffer comes back: in every interleaving each buffer sent is, exactly once, queued, in
      flight, in the callback's hand, or returned; so once the queue is drained or flushed and
      nobody holds a buffer, all have been returned. */
  lemma BuffersConserved(ss: seq<State>, steps: seq<Step>, i: nat)
    requires IsRun(ss, steps) && i < |ss|
    ensures Present(ss[i]) == multiset(SentIds(steps[..i]))
    ensures ss[i].queue == [] && ss[i].inFlight == [] && ss[i].callback.Idle? ==> multiset(ss[i].returned) == multiset(SentIds(steps[..i]))
  {
    BuffersPresent(ss, steps, i);
    if ss[i].queue == [] && ss[i].inFlight == [] && ss[i].callback.Idle? { AllReturned(ss[i]); }
  }

  lemma NothingSent()
    ensures Present(State([], 0, [], Idle, NoFlush, 0, [])) == multiset{}
  {
  }

  lemma AllReturned(s: State)
    requires s.queue == [] && s.inFlight == [] && s.callback.Idle?
    ensures Present(s) == multiset(s.returned)
  {
    assert Ids([]) == [];
  }

  // ---------------------------------------------------------------- the renderer in place

  class Renderer {
    const queue: PlayQueue
    var bytesQueued: int

    constructor ()
      ensures queue.View() == Playback([], [], []) && bytesQueued == 0 && fresh(queue)
    {
      queue := new PlayQueue();
      bytesQueued := 0;
    }

    method SendBuffer(b: Buffer)
      modifies this, queue
      ensures queue.View() == old(queue.View()).(queue := old(queue.queue) + [b])
      ensures bytesQueued == (old(bytesQueued) + b.length) % TWO_32
    {
      bytesQueued := (bytesQueued + b.length) % TWO_32;
      queue.Put(b);
    }

    /** Play what fits into the space: the next bytes of the queue, in order; buffers go back as
        they are drained; and the counter falls by just the bytes played. */
    method TrackCallback(dest: array<byte>) returns (size: nat)
      requires QueueOk(queue.queue) && 0 <= bytesQueued < TWO_32
      modifies this, queue, dest
      ensures queue.View() == Callback(old(queue.View()), dest.Length)
      ensures var pending := Pending(old(queue.queue));
              size == Min(dest.Length, |pending|) && dest[..size] == pending[..size] && dest[size..] == old(dest[size..])
      ensures bytesQueued == (old(bytesQueued) - size) % TWO_32
    {
      size := 0;
      if queue.queue == [] { return; }
      size := queue.Fill(dest);
      bytesQueued := (bytesQueued - size) % TWO_32;
    }

    /** Flush without another thread in between. */
    method FlushPort()
      modifies this, queue
      ensures queue.View() == Emptied(old(queue.View())) && bytesQueued == 0
      ensures queue.queue == [] && queue.played == old(queue.played) && old(queue.returned) <= queue.returned
      ensures |queue.returned| == |old(queue.returned)| + |old(queue.queue)|
      ensures forall i :: 0 <= i < |old(queue.queue)| ==>
                queue.returned[|old(queue.returned)| + i] == Return(old(queue.queue)[i].id, false)
    {
      queue.ReturnAll();
      bytesQueued := 0;
    }
  }
}
