/** The SDL audio renderer. */
module SdlAudio {
  import opened CInt
  import opened Sequences
  import opened AudioQueue
  import opened Narrowing

  // ---------------------------------------------------------------- whole runs

  /** The samples the port's format has: 16-bit ones as the device wants them, or 32-bit ones. */
  datatype Samples = Plain | Wide(convert: Sample)

  /** What the device is to hear of these bytes. */
  function Render(samples: Samples, bs: seq<byte>): seq<byte> {
    match samples
    case Plain => bs
    case Wide(convert) => Narrow(convert, bs)
  }

  function Deliver(s: Playback, size: nat, samples: Samples): Playback
    requires QueueOk(s.queue)
  {
    match samples
    case Plain => Callback(s, size)
    case Wide(convert) => NarrowCallback(s, size, convert)
  }

  /** Queued buffers lie within their payloads and hold whole samples. */
  predicate Fits(q: seq<Buffer>, samples: Samples) {
    QueueOk(q) && (samples.Wide? ==> Aligned(q))
  }

  datatype Op = Send(buffer: Buffer) | Pull(size: nat) | Disable

  /** Buffers sent hold, and callbacks ask for, whole samples. */
  predicate OpOk(op: Op, samples: Samples) {
    match op
    case Send(b) => BufferOk(b) && (samples.Wide? ==> b.length % 4 == 0)
    case Pull(n) => samples.Wide? ==> n % 2 == 0
    case Disable => true
  }

  predicate OpsOk(ops: seq<Op>, samples: Samples) {
    forall i :: 0 <= i < |ops| ==> OpOk(ops[i], samples)
  }

  /** A callback delivers the next bytes of what is pending, as many as asked for or as there are. */
  lemma DeliverDelivers(s: Playback, size: nat, samples: Samples)
    requires Fits(s.queue, samples) && OpOk(Pull(size), samples)
    ensures var t := Deliver(s, size, samples);
            && Fits(t.queue, samples)
            && t.played + Render(samples, Pending(t.queue)) == s.played + Render(samples, Pending(s.queue))
            && |t.played| == |s.played| + Min(size, |Render(samples, Pending(s.queue))|)
            && t.returned + Returns(t.queue) == s.returned + Returns(s.queue)
  {
    match samples
    case Plain => CallbackDelivers(s, size);
    case Wide(convert) =>
      NarrowCallbackDelivers(s, size, convert);
      PendingAligned(s.queue);
      HalfOfWhole(|Pending(s.queue)|);
  }

  function Apply(s: Playback, op: Op, samples: Samples): (t: Playback)
    requires Fits(s.queue, samples) && OpOk(op, samples)
    ensures Fits(t.queue, samples)
  {
    match op
    case Send(b) => s.(queue := s.queue + [b])
    case Pull(n) =>
      DeliverDelivers(s, n, samples);
      Deliver(s, n, samples)
    case Disable => Emptied(s)
  }

  function Run(ops: seq<Op>, samples: Samples): (s: Playback)
    requires OpsOk(ops, samples)
    ensures Fits(s.queue, samples)
  {
    if ops == [] then Playback([], [], []) else Apply(Run(ops[..|ops| - 1], samples), ops[|ops| - 1], samples)
  }

  /** The buffers sent, in order. */
  function Sent(ops: seq<Op>, samples: Samples): (r: seq<Buffer>)
    requires OpsOk(ops, samples)
    ensures Fits(r, samples)
  {
    if ops == [] then []
    else
      var last := ops[|ops| - 1];
      Sent(ops[..|ops| - 1], samples) + if last.Send? then [last.buffer] else []
  }

  lemma {:induction false} PendingAppend(q: seq<Buffer>, b: Buffer)
    requires QueueOk(q) && BufferOk(b)
    ensures Pending(q + [b]) == Pending(q) + Remaining(b)
  {
    if q == [] {
      assert ([] + [b])[1..] == [];
    } else {
      assert (q + [b])[1..] == q[1..] + [b];
      PendingAppend(q[1..], b);
    }
  }

  lemma RenderAppend(q: seq<Buffer>, b: Buffer, samples: Samples)
    requires Fits(q, samples) && BufferOk(b)
    ensures Render(samples, Pending(q + [b])) == Render(samples, Pending(q)) + Render(samples, Remaining(b))
  {
    PendingAppend(q, b);
    if samples.Wide? {
      PendingAligned(q);
      NarrowAppend(samples.convert, Pending(q), Remaining(b));
    }
  }

  /** Nothing is lost, added or reordered. */
  ghost predicate Accounted(s: Playback, sent: seq<Buffer>, samples: Samples)
    requires QueueOk(s.queue) && QueueOk(sent)
  {
    && s.played + Render(samples, Pending(s.queue)) == Render(samples, Pending(sent))
    && s.returned + Returns(s.queue) == Returns(sent)
  }

  lemma SendAccounted(s: Playback, sent: seq<Buffer>, b: Buffer, samples: Samples)
    requires Fits(s.queue, samples) && Fits(sent, samples) && OpOk(Send(b), samples) && Accounted(s, sent, samples)
    ensures Accounted(s.(queue := s.queue + [b]), sent + [b], samples)
  {
    assert s.returned + Returns(s.queue + [b]) == Returns(sent + [b]) by {
      ReturnsAppend(s.queue, b);
      ReturnsAppend(sent, b);
    }
    RenderAppend(s.queue, b, samples);
    RenderAppend(sent, b, samples);
    Reassociate(s.played, Render(samples, Pending(s.queue)), Render(samples, Remaining(b)));
  }

  lemma ReturnsAppend(q: seq<Buffer>, b: Buffer)
    ensures Returns(q + [b]) == Returns(q) + [Return(b.id, b.eos)]
  {
  }

  /** Whatever portions the device asks for and however sends are interleaved, the output is a
      prefix of the payloads in the order sent, for 32-bit samples of their conversion; the rest is
      still queued; and every buffer is either still queued or has been returned once, in order. */
  lemma {:induction false} PlaybackIsPartitionIndependent(ops: seq<Op>, samples: Samples)
    requires OpsOk(ops, samples) && forall i :: 0 <= i < |ops| ==> ops[i] != Disable
    ensures Accounted(Run(ops, samples), Sent(ops, samples), samples)
  {
    if ops != [] {
      var prefix, last := ops[..|ops| - 1], ops[|ops| - 1];
      PlaybackIsPartitionIndependent(prefix, samples);
      match last
      case Send(b) => SendAccounted(Run(prefix, samples), Sent(prefix, samples), b, samples);
      case Pull(n) =>
        DeliverDelivers(Run(prefix, samples), n, samples);
        assert Sent(ops, samples) == Sent(prefix, samples);
    }
  }

  // ---------------------------------------------------------------- every buffer comes back

  /** The buffers returned and then those queued are the buffers sent, in order. */
  ghost predicate InTurn(s: Playback, sent: seq<Buffer>) {
    && |s.returned| + |s.queue| == |sent|
    && (forall j :: 0 <= j < |s.returned| ==> s.returned[j].id == sent[j].id)
    && forall j :: 0 <= j < |s.queue| ==> s.queue[j].id == sent[|s.returned| + j].id && s.queue[j].eos == sent[|s.returned| + j].eos
  }

  /** Of the buffers returned between two states: those drained are marked if they end the stream,
      those flushed are not. */
  ghost predicate Marked(s: Playback, t: Playback, sent: seq<Buffer>, op: Op)
    requires |t.returned| <= |sent|
  {
    && s.returned <= t.returned
    && (op.Pull? ==> forall j :: |s.returned| <= j < |t.returned| ==> t.returned[j].endOfStream == sent[j].eos)
    && (op == Disable ==> forall j :: |s.returned| <= j < |t.returned| ==> !t.returned[j].endOfStream)
    && (op.Send? ==> t.returned == s.returned)
  }

  lemma LineAt(r: seq<Return>, q: seq<Buffer>, j: nat)
    requires j < |r| + |q|
    ensures (r + Returns(q))[j] == if j < |r| then r[j] else Return(q[j - |r|].id, q[j - |r|].eos)
  {
  }

  lemma PullInTurn(s: Playback, t: Playback, sent: seq<Buffer>, size: nat)
    requires InTurn(s, sent) && s.returned <= t.returned && t.returned + Returns(t.queue) == s.returned + Returns(s.queue)
    ensures InTurn(t, sent) && Marked(s, t, sent, Pull(size))
  {
    assert |t.returned| + |t.queue| == |t.returned + Returns(t.queue)| == |sent|;
    forall j | 0 <= j < |t.returned|
      ensures t.returned[j].id == sent[j].id && (j >= |s.returned| ==> t.returned[j].endOfStream == sent[j].eos)
    {
      LineAt(t.returned, t.queue, j);
      LineAt(s.returned, s.queue, j);
    }
    forall j | 0 <= j < |t.queue|
      ensures t.queue[j].id == sent[|t.returned| + j].id && t.queue[j].eos == sent[|t.returned| + j].eos
    {
      LineAt(t.returned, t.queue, |t.returned| + j);
      LineAt(s.returned, s.queue, |t.returned| + j);
    }
  }

  lemma DisableInTurn(s: Playback, sent: seq<Buffer>)
    requires InTurn(s, sent)
    ensures InTurn(Emptied(s), sent) && Marked(s, Emptied(s), sent, Disable)
  {
    var r := Emptied(s).returned;
    assert |r| == |sent|;
    forall j | 0 <= j < |r| ensures r[j].id == sent[j].id && (j >= |s.returned| ==> !r[j].endOfStream) {
      if j >= |s.returned| { assert r[j] == Return(s.queue[j - |s.returned|].id, false); }
    }
  }

  lemma ReturnedGrows(s: Playback, size: nat, samples: Samples)
    requires QueueOk(s.queue)
    ensures s.returned <= Deliver(s, size, samples).returned
  {
    var r := s.(returned := []);
    assert s.returned == s.returned + r.returned && s.played == [] + s.played;
    DeliverForgets(s, size, samples, [], s.returned, r);
  }

  lemma DeliverForgets(s: Playback, size: nat, samples: Samples, head: seq<byte>, gone: seq<Return>, r: Playback)
    requires QueueOk(s.queue) && r.queue == s.queue && s.played == head + r.played && s.returned == gone + r.returned
    ensures var t, u := Deliver(s, size, samples), Deliver(r, size, samples);
            u.queue == t.queue && t.played == head + u.played && t.returned == gone + u.returned
  {
    match samples
    case Plain => CallbackForgets(s, size, head, gone, r);
    case Wide(convert) => NarrowForgets(s, size, convert, head, gone, r);
  }

  lemma OpInTurn(s: Playback, op: Op, samples: Samples, sent: seq<Buffer>)
    requires Fits(s.queue, samples) && OpOk(op, samples) && InTurn(s, sent)
    ensures var sent' := if op.Send? then sent + [op.buffer] else sent;
            InTurn(Apply(s, op, samples), sent') && Marked(s, Apply(s, op, samples), sent', op)
  {
    match op
    case Send(b) =>
    case Pull(n) =>
      DeliverDelivers(s, n, samples);
      ReturnedGrows(s, n, samples);
      PullInTurn(s, Apply(s, op, samples), sent, n);
    case Disable => DisableInTurn(s, sent);
  }

  /** Every buffer comes back: in every run of sends, callbacks and disablings the buffers returned,
      followed by those still queued, are the buffers sent, in order and each once; a disabling
      leaves none queued; and the end of the stream is announced exactly for drained buffers that
      end it. */
  lemma {:induction false} EveryBufferComesBack(ops: seq<Op>, samples: Samples)
    requires OpsOk(ops, samples)
    ensures InTurn(Run(ops, samples), Sent(ops, samples))
    ensures ops != [] && ops[|ops| - 1] == Disable ==> Run(ops, samples).queue == []
    ensures ops != [] ==> Marked(Run(ops[..|ops| - 1], samples), Run(ops, samples), Sent(ops, samples), ops[|ops| - 1])
  {
    if ops != [] {
      var prefix, last := ops[..|ops| - 1], ops[|ops| - 1];
      EveryBufferComesBack(prefix, samples);
      OpInTurn(Run(prefix, samples), last, samples, Sent(prefix, samples));
      assert Sent(prefix, samples) + [] == Sent(prefix, samples);
    }
  }

  /** After a disabling everything is as at the start: what is played from then on depends on what
      is sent from then on only. */
  lemma {:induction false} DisableForgets(before: seq<Op>, ops: seq<Op>, samples: Samples)
    requires OpsOk(before, samples) && OpsOk(ops, samples) && before != [] && before[|before| - 1] == Disable
    ensures OpsOk(before + ops, samples)
    ensures Continues(Run(before, samples), Run(ops, samples), Run(before + ops, samples))
  {
    var s := Run(before, samples);
    if ops == [] {
      assert before + ops == before && s.played + [] == s.played && s.returned + [] == s.returned;
    } else {
      var prefix, last := ops[..|ops| - 1], ops[|ops| - 1];
      DisableForgets(before, prefix, samples);
      assert (before + ops)[..|before + ops| - 1] == before + prefix;
      OpForgets(Run(before + prefix, samples), last, samples, s.played, s.returned, Run(prefix, samples));
    }
  }

  /** t is what r is, after what was played and returned in s. */
  ghost predicate Continues(s: Playback, r: Playback, t: Playback) {
    t.queue == r.queue && t.played == s.played + r.played && t.returned == s.returned + r.returned
  }

  lemma OpForgets(t: Playback, op: Op, samples: Samples, head: seq<byte>, gone: seq<Return>, r: Playback)
    requires Fits(t.queue, samples) && OpOk(op, samples)
    requires r.queue == t.queue && t.played == head + r.played && t.returned == gone + r.returned
    ensures var u, v := Apply(t, op, samples), Apply(r, op, samples);
            v.queue == u.queue && u.played == head + v.played && u.returned == gone + v.returned
  {
    match op
    case Send(_) =>
    case Pull(n) => DeliverForgets(t, n, samples, head, gone, r);
    case Disable => assert (gone + r.returned) + Unplayed(r.queue) == gone + (r.returned + Unplayed(r.queue));
  }

  // ---------------------------------------------------------------- formats

  datatype Encoding = PcmSigned | PcmFloat | OtherEncoding

  /** The upper half of a 32-bit integer, stored low byte first. */
  const UPPER: Sample := (a: byte, b: byte, c: byte, d: byte) => (c, d)

  /** The signed integer in two bytes, and in four, low byte first. */
  function Int16(a: byte, b: byte): int {
    var n := a + 0x100 * b; if n < 0x8000 then n else n - 0x1_0000
  }

  function Int32(a: byte, b: byte, c: byte, d: byte): int {
    var n := a + 0x100 * b + 0x1_0000 * c + 0x100_0000 * d; if n < 0x8000_0000 then n else n - 0x1_0000_0000
  }

  /** The conversion of an integer sample is the arithmetic shift by sixteen bits. */
  lemma UpperHalfIsShift(a: byte, b: byte, c: byte, d: byte)
    ensures var (x, y) := UPPER(a, b, c, d); Int16(x, y) == ShiftRight(Int32(a, b, c, d), 0x1_0000)
  {
  }

  /** `Skipped`: 32-bit samples in an encoding without a conversion, consumed without a trace. */
  datatype Handling = Played(samples: Samples) | Skipped | Untouched

  /** Which branch of a round handles a format. The conversion of floats is a parameter. */
  function HandlingOf(encoding: Encoding, bits: nat, float: Sample): Handling {
    if encoding == PcmSigned && bits == 16 then Played(Plain)
    else if bits == 32 then
      (match encoding case PcmFloat => Played(Wide(float)) case PcmSigned => Played(Wide(UPPER)) case OtherEncoding => Skipped)
    else Untouched
  }

  /** Sixteen-bit signed samples are played as they are, 32-bit samples are converted according to
      their encoding, and nothing else is handled. */
  lemma Handled(encoding: Encoding, bits: nat, float: Sample)
    ensures var h := HandlingOf(encoding, bits, float);
            && (encoding == PcmSigned && bits == 16 ==> h.Played? && h.samples.Plain?)
            && (encoding == PcmSigned && bits == 32 ==> h.Played? && h.samples.Wide? && h.samples.convert == UPPER)
            && (encoding == PcmFloat && bits == 32 ==> h.Played? && h.samples.Wide? && h.samples.convert == float)
            && (h.Skipped? <==> encoding == OtherEncoding && bits == 32)
            && (h.Untouched? <==> bits != 32 && !(encoding == PcmSigned && bits == 16))
  {
  }

  /** What the port accepts. */
  predicate Accepts(encoding: Encoding, bits: nat) {
    !(encoding != PcmSigned && encoding != PcmFloat && bits != 16 && bits != 32)
  }

  /** Which formats are accepted although the callback does not play them: the port rejects a
      format only if neither its encoding nor its sample size is one it knows. */
  lemma AcceptedUnhandled(encoding: Encoding, bits: nat, float: Sample)
    ensures Accepts(encoding, bits) && HandlingOf(encoding, bits, float).Untouched? <==>
            (bits == 16 && encoding != PcmSigned) || (bits != 16 && bits != 32 && encoding != OtherEncoding)
    ensures HandlingOf(encoding, bits, float).Skipped? <==> bits == 32 && encoding == OtherEncoding
    ensures Accepts(OtherEncoding, 32)
  {
  }

  /** A round for any format. */
  function RoundOf(s: Playback, size: nat, handling: Handling): (r: (Playback, nat))
    requires s.queue != [] && QueueOk(s.queue)
    ensures QueueOk(r.0.queue) && r.1 <= size && |r.0.queue| <= |s.queue|
    ensures !handling.Untouched? && size > 0 ==> r.1 + |r.0.queue| < size + |s.queue|
  {
    match handling
    case Played(Plain) => Round(s, size)
    case Played(Wide(convert)) => NarrowRound(s, size, convert)
    case Skipped =>
      var length := s.queue[0].length;
      var bytes := if length > 2 * size then 2 * size else length;
      (Consume(s, bytes, []), size - bytes / 2)
    case Untouched => (Consume(s, 0, []), size)
  }

  /** Where the loop of the callback is left. */
  predicate Stopped(s: Playback, size: nat) {
    size == 0 || s.queue == []
  }

  /** The callback after n rounds, or where it stopped before. */
  function After(s: Playback, size: nat, handling: Handling, n: nat): (r: (Playback, nat))
    requires QueueOk(s.queue)
    decreases n
  {
    if n == 0 || Stopped(s, size) then (s, size)
    else
      var (t, left) := RoundOf(s, size, handling);
      After(t, left, handling, n - 1)
  }

  ghost predicate StopsBy(s: Playback, size: nat, handling: Handling, n: nat)
    requires QueueOk(s.queue)
  {
    Stopped(After(s, size, handling, n).0, After(s, size, handling, n).1)
  }

  predicate NoData(q: seq<Buffer>) {
    forall i :: 0 <= i < |q| ==> q[i].length == 0
  }

  /** A format some branch handles makes the callback stop in time, and one that is played in the
      state that the specification gives. */
  lemma {:induction false} StopsInTime(s: Playback, size: nat, handling: Handling, n: nat)
    requires QueueOk(s.queue) && n >= size + |s.queue| && (!handling.Untouched? || NoData(s.queue))
    ensures StopsBy(s, size, handling, n)
    ensures handling.Played? ==> After(s, size, handling, n).0 == Deliver(s, size, handling.samples)
    decreases n
  {
    if !Stopped(s, size) {
      var (t, left) := RoundOf(s, size, handling);
      StopsInTime(t, left, handling, n - 1);
    }
  }

  /** An unhandled format leaves the request as it is and every buffer with data in the queue. */
  lemma {:induction false} NeverStops(s: Playback, size: nat, i: nat, n: nat)
    requires QueueOk(s.queue) && size > 0 && i < |s.queue| && s.queue[i].length > 0
    ensures !StopsBy(s, size, Untouched, n)
    decreases n
  {
    if n > 0 {
      var t := RoundOf(s, size, Untouched).0;
      NeverStops(t, size, if |t.queue| < |s.queue| then i - 1 else i, n - 1);
    }
  }

  /** The callback ends exactly when one of its branches handles the format, or nothing was
      asked for, or no queued buffer holds data. */
  lemma CallbackEndsExactlyWhen(s: Playback, size: nat, handling: Handling)
    requires QueueOk(s.queue)
    ensures (exists n: nat :: StopsBy(s, size, handling, n)) <==> !handling.Untouched? || size == 0 || NoData(s.queue)
  {
    if !handling.Untouched? || NoData(s.queue) {
      StopsInTime(s, size, handling, size + |s.queue|);
    } else if size == 0 {
      assert StopsBy(s, size, handling, 0);
    } else {
      var i :| 0 <= i < |s.queue| && s.queue[i].length != 0;
      forall n: nat ensures !StopsBy(s, size, handling, n) {
        NeverStops(s, size, i, n);
      }
    }
  }

  // ---------------------------------------------------------------- the renderer in place

  class Renderer {
    const queue: PlayQueue

    constructor ()
      ensures queue.View() == Playback([], [], []) && fresh(queue)
    {
      queue := new PlayQueue();
    }

    method SendBuffer(b: Buffer)
      modifies queue
      ensures queue.View() == old(queue.View()).(queue := old(queue.queue) + [b])
    {
      queue.Put(b);
    }

    /** The callback for 16-bit samples: on underrun the rest of the stream is left as it was. */
    method FillStream(stream: array<byte>)
      requires QueueOk(queue.queue)
      modifies queue, stream
      ensures queue.View() == Callback(old(queue.View()), stream.Length)
      ensures var k, pending := Min(stream.Length, |Pending(old(queue.queue))|), Pending(old(queue.queue));
              stream[..k] == pending[..k] && stream[k..] == old(stream[k..])
    {
      var at := queue.Fill(stream);
    }

    /** The callback for 32-bit samples: the stream gets the conversion of what is pending. */
    method FillStreamWide(stream: array<byte>, convert: Sample)
      requires QueueOk(queue.queue) && Aligned(queue.queue) && stream.Length % 2 == 0
      modifies queue, stream
      ensures queue.View() == NarrowCallback(old(queue.View()), stream.Length, convert)
      ensures var out := Narrow(convert, Pending(old(queue.queue)));
              var k := Min(stream.Length, |out|);
              stream[..k] == out[..k] && stream[k..] == old(stream[k..])
    {
      DeliverDelivers(queue.View(), stream.Length, Wide(convert));
      var at := DrainWide(stream, convert);
      PrefixAfter(old(queue.played), stream[..at], Narrow(convert, Pending(queue.queue)), Narrow(convert, Pending(old(queue.queue))));
    }

    method DrainWide(stream: array<byte>, convert: Sample) returns (at: nat)
      requires QueueOk(queue.queue) && Aligned(queue.queue) && stream.Length % 2 == 0
      modifies queue, stream
      ensures queue.View() == NarrowCallback(old(queue.View()), stream.Length, convert)
      ensures at <= stream.Length && queue.played == old(queue.played) + stream[..at] && stream[at..] == old(stream[at..])
    {
      at := 0;
      var size: nat := stream.Length;
      while size > 0 && queue.queue != []
        invariant at + size == stream.Length && Ready(size)
        invariant NarrowCallback(queue.View(), size, convert) == NarrowCallback(old(queue.View()), stream.Length, convert)
        invariant queue.played == old(queue.played) + stream[..at]
        invariant stream[at..] == old(stream[at..])
        decreases size, |queue.queue|
      {
        NarrowRoundShrinks(queue.View(), size, convert);
        NarrowRoundAligned(queue.View(), size, convert);
        at, size := PlayFirstWide(stream, at, size, convert, old(queue.played));
      }
    }

    ghost predicate Ready(size: nat)
      reads queue
    {
      QueueOk(queue.queue) && Aligned(queue.queue) && size % 2 == 0
    }

    /** One round; `head` is what had been played before this callback. */
    method PlayFirstWide(stream: array<byte>, at: nat, size: nat, convert: Sample, ghost head: seq<byte>) returns (next: nat, left: nat)
      requires Ready(size) && queue.queue != [] && at + size == stream.Length
      requires queue.played == head + stream[..at]
      modifies queue, stream
      ensures next + left == stream.Length && at <= next
      ensures (queue.View(), left) == NarrowRound(old(queue.View()), size, convert)
      ensures queue.played == head + stream[..next] && stream[next..] == old(stream[next..])
    {
      NarrowRoundAligned(queue.View(), size, convert);
      var buffer := queue.queue[0];
      var bytes := buffer.length;
      if bytes > 2 * size { bytes := 2 * size; }
      left := size - bytes / 2;
      next := at + bytes / 2;
      var chunk := buffer.data[buffer.offset..buffer.offset + bytes];
      ConvertOut(stream, at, next, chunk, convert);
      queue.TakeFirst(bytes, Narrow(convert, chunk));
      Reassociate(head, old(stream[..at]), Narrow(convert, chunk));
    }

    /** Convert samples and store them from `at` to `next`. */
    method ConvertOut(stream: array<byte>, at: nat, next: nat, bytes: seq<byte>, convert: Sample)
      requires next <= stream.Length && next == at + |Narrow(convert, bytes)|
      modifies stream
      ensures stream[..next] == old(stream[..at]) + Narrow(convert, bytes)
      ensures stream[next..] == old(stream[next..])
    {
      for i := 0 to |bytes| / 4
        invariant stream[..at + 2 * i] + Narrow(convert, bytes[4 * i..]) == old(stream[..at]) + Narrow(convert, bytes)
        invariant stream[at + 2 * i..] == old(stream[at + 2 * i..])
      {
        ConvertOne(stream, at + 2 * i, bytes[4 * i..], convert);
        assert bytes[4 * i..][4..] == bytes[4 * (i + 1)..];
      }
    }

    /** One sample. */
    method ConvertOne(stream: array<byte>, at: nat, bytes: seq<byte>, convert: Sample)
      requires at + 2 <= stream.Length && |bytes| >= 4
      modifies stream
      ensures stream[..at + 2] + Narrow(convert, bytes[4..]) == old(stream[..at]) + Narrow(convert, bytes)
      ensures stream[at + 2..] == old(stream[at + 2..])
    {
      var (x, y) := convert(bytes[0], bytes[1], bytes[2], bytes[3]);
      StoreTwo(stream, at, x, y);
      Reassociate(old(stream[..at]), [x, y], Narrow(convert, bytes[4..]));
    }

    method StoreTwo(stream: array<byte>, at: nat, x: byte, y: byte)
      requires at + 2 <= stream.Length
      modifies stream
      ensures stream[..at + 2] == old(stream[..at]) + [x, y]
      ensures stream[at + 2..] == old(stream[at + 2..])
    {
      stream[at], stream[at + 1] := x, y;
    }

    /** Give back what is still queued. */
    method Disable()
      modifies queue
      ensures queue.View() == Emptied(old(queue.View()))
      ensures queue.queue == [] && queue.played == old(queue.played) && old(queue.returned) <= queue.returned
      ensures |queue.returned| == |old(queue.returned)| + |old(queue.queue)|
      ensures forall i :: 0 <= i < |old(queue.queue)| ==>
                queue.returned[|old(queue.returned)| + i] == Return(old(queue.queue)[i].id, false)
    {
      queue.ReturnAll();
    }
  }
}
