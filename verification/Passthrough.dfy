/** The zero-copy component: it pairs the k-th input buffer with the k-th output buffer and
    makes the output a replicate of the input. */
module Passthrough {
  import opened Wrappers
  import opened Sequences
  import opened BufferRefs
  import opened BufferHeaders

  datatype Side = Input | Output

  datatype State<H> = State(
    inQueue: seq<H>,
    outQueue: seq<H>,
    error: bool,
    pairs: seq<(H, H)>,          // (input, output) of every replication that succeeded
    returned: seq<(Side, H)>)    // buffers given back to the clients of the two ports

  function Enqueue<H>(s: State<H>, side: Side, h: H): State<H> {
    match side
    case Input => s.(inQueue := s.inQueue + [h])
    case Output => s.(outQueue := s.outQueue + [h])
  }

  /** The buffers that meet when h is sent, if another one is waiting for it. */
  function Matched<H>(s: State<H>, side: Side, h: H): Option<(H, H)> {
    match side
    case Input => if s.outQueue == [] then None else Some((h, s.outQueue[0]))
    case Output => if s.inQueue == [] then None else Some((s.inQueue[0], h))
  }

  function Unqueue<H>(s: State<H>, side: Side): State<H>
    requires match side case Input => s.outQueue != [] case Output => s.inQueue != []
  {
    match side
    case Input => s.(outQueue := s.outQueue[1..])
    case Output => s.(inQueue := s.inQueue[1..])
  }

  /** `replicated`: the output header accepted the replication; `reported`: in case it did not,
      the error event could be sent. */
  function Send<H>(s: State<H>, side: Side, h: H, replicated: bool, reported: bool): State<H> {
    if s.error || Matched(s, side, h).None? then Enqueue(s, side, h)
    else
      var (i, o) := Matched(s, side, h).value;
      var t := Unqueue(s, side);
      if replicated then t.(pairs := t.pairs + [(i, o)], returned := t.returned + [(Input, i), (Output, o)])
      else Enqueue(Enqueue(t, Input, i), Output, o).(error := reported)
  }

  /** What a send does, case by case. A buffer that finds none waiting, or a component in error, is
      queued. Otherwise it meets the oldest buffer of the other port: if the replication succeeds
      the input is returned and then the output; if not, both go to the back of their queues, and
      the component is in error exactly if that could be reported. */
  lemma SendDecides<H>(s: State<H>, side: Side, h: H, replicated: bool, reported: bool)
    ensures var t := Send(s, side, h, replicated, reported);
            var waiting := if side == Input then s.outQueue else s.inQueue;
            && (s.error || waiting == [] ==>
                  t == if side == Input then s.(inQueue := s.inQueue + [h]) else s.(outQueue := s.outQueue + [h]))
            && (!s.error && waiting != [] ==>
                  var i, o := if side == Input then h else waiting[0], if side == Input then waiting[0] else h;
                  var ins, outs := if side == Input then s.inQueue else waiting[1..], if side == Input then waiting[1..] else s.outQueue;
                  t == if replicated then State(ins, outs, false, s.pairs + [(i, o)], s.returned + [(Input, i), (Output, o)])
                       else State(ins + [i], outs + [o], reported, s.pairs, s.returned))
  {
  }

  function SideOf<H>(q: seq<H>, side: Side): (r: seq<(Side, H)>)
    ensures |r| == |q|
  {
    seq(|q|, i requires 0 <= i < |q| => (side, q[i]))
  }

  function Flush<H>(s: State<H>, side: Side): State<H> {
    match side
    case Input => s.(inQueue := [], returned := s.returned + SideOf(s.inQueue, Input))
    case Output => s.(outQueue := [], returned := s.returned + SideOf(s.outQueue, Output))
  }

  // ---------------------------------------------------------------- whole runs

  datatype Op<H> =
    | SendOp(side: Side, h: H, replicated: bool, reported: bool)
    | FlushOp(side: Side)

  function Apply<H>(s: State<H>, op: Op<H>): State<H> {
    match op
    case SendOp(side, h, replicated, reported) => Send(s, side, h, replicated, reported)
    case FlushOp(side) => Flush(s, side)
  }

  function Run<H>(ops: seq<Op<H>>): State<H> {
    if ops == [] then State([], [], false, [], [])
    else Apply(Run(ops[..|ops| - 1]), ops[|ops| - 1])
  }

  /** What was sent to one port, in order. */
  function Sent<H>(ops: seq<Op<H>>, side: Side): seq<H> {
    if ops == [] then []
    else
      var last := ops[|ops| - 1];
      Sent(ops[..|ops| - 1], side) + if last.SendOp? && last.side == side then [last.h] else []
  }

  ghost predicate PairedInOrder<H>(s: State<H>, ins: seq<H>, outs: seq<H>) {
    && |s.pairs| <= |ins| && |s.pairs| <= |outs|
    && forall k :: 0 <= k < |s.pairs| ==> s.pairs[k] == (ins[k], outs[k])
  }

  /** Nothing is missing: one queue is empty and the other holds what is still unmatched. */
  ghost predicate UpToDate<H>(s: State<H>, ins: seq<H>, outs: seq<H>)
    requires PairedInOrder(s, ins, outs)
  {
    s.inQueue == ins[|s.pairs|..] && s.outQueue == outs[|s.pairs|..] && (s.inQueue == [] || s.outQueue == [])
  }

  ghost predicate PairsOk<H>(s: State<H>, ins: seq<H>, outs: seq<H>) {
    PairedInOrder(s, ins, outs) && (!s.error ==> UpToDate(s, ins, outs))
  }

  /** The next unmatched buffers of both sides meet. */
  lemma PairKeepsPairs<H>(s: State<H>, ins: seq<H>, outs: seq<H>, t: State<H>)
    requires PairedInOrder(s, ins, outs) && |s.pairs| < |ins| && |s.pairs| < |outs|
    requires t.pairs == s.pairs + [(ins[|s.pairs|], outs[|s.pairs|])]
    requires t.inQueue == ins[|s.pairs| + 1..] && t.outQueue == outs[|s.pairs| + 1..] && (t.inQueue == [] || t.outQueue == [])
    ensures PairsOk(t, ins, outs)
  {
  }

  lemma DropFirst<H>(s: seq<H>, n: nat)
    requires n < |s|
    ensures s[n..][0] == s[n] && s[n..][1..] == s[n + 1..]
  {
  }

  lemma SendInputKeepsPairs<H>(s: State<H>, ins: seq<H>, outs: seq<H>, h: H, replicated: bool, reported: bool)
    requires PairsOk(s, ins, outs) && (replicated || reported)
    ensures PairsOk(Send(s, Input, h, replicated, reported), ins + [h], outs)
  {
    var n, t := |s.pairs|, Send(s, Input, h, replicated, reported);
    if !s.error {
      assert (ins + [h])[n..] == ins[n..] + [h];
      if s.outQueue != [] && replicated {
        DropFirst(outs, n);
        DropFirst(ins + [h], n);
        PairKeepsPairs(s, ins + [h], outs, t);
      }
    }
  }

  lemma SendOutputKeepsPairs<H>(s: State<H>, ins: seq<H>, outs: seq<H>, h: H, replicated: bool, reported: bool)
    requires PairsOk(s, ins, outs) && (replicated || reported)
    ensures PairsOk(Send(s, Output, h, replicated, reported), ins, outs + [h])
  {
    var n, t := |s.pairs|, Send(s, Output, h, replicated, reported);
    if !s.error {
      assert (outs + [h])[n..] == outs[n..] + [h];
      if s.inQueue != [] && replicated {
        DropFirst(ins, n);
        DropFirst(outs + [h], n);
        PairKeepsPairs(s, ins, outs + [h], t);
      }
    }
  }

  /** A replication that fails and cannot be reported either. */
  predicate FailsUnreported<H>(s: State<H>, op: Op<H>) {
    op.SendOp? && !s.error && Matched(s, op.side, op.h).Some? && !op.replicated && !op.reported
  }

  predicate Succeeds<H>(s: State<H>, op: Op<H>) {
    op.SendOp? && !s.error && Matched(s, op.side, op.h).Some? && op.replicated
  }

  predicate OnlySends<H>(ops: seq<Op<H>>) {
    forall i :: 0 <= i < |ops| ==> ops[i].SendOp?
  }

  /** After ops, the k-th pair is the k-th input with the k-th output and, unless an error was
      reported, one queue is empty and the other holds what is still unmatched, in order. */
  ghost predicate InOrder<H>(ops: seq<Op<H>>) {
    PairsOk(Run(ops), Sent(ops, Input), Sent(ops, Output))
  }

  lemma SendKeepsOrder<H>(ops: seq<Op<H>>)
    requires ops != [] && OnlySends(ops)
    requires var prefix, last := ops[..|ops| - 1], ops[|ops| - 1]; InOrder(prefix) && !FailsUnreported(Run(prefix), last)
    ensures InOrder(ops)
  {
    var prefix, last := ops[..|ops| - 1], ops[|ops| - 1];
    if last.side == Input {
      InputKeepsOrder(Run(prefix), Sent(prefix, Input), Sent(prefix, Output), last);
    } else {
      OutputKeepsOrder(Run(prefix), Sent(prefix, Input), Sent(prefix, Output), last);
    }
  }

  lemma InputKeepsOrder<H>(s: State<H>, ins: seq<H>, outs: seq<H>, op: Op<H>)
    requires op.SendOp? && op.side == Input && PairsOk(s, ins, outs) && !FailsUnreported(s, op)
    ensures PairsOk(Apply(s, op), ins + [op.h], outs)
  {
    SendInputKeepsPairs(s, ins, outs, op.h, op.replicated, op.reported || s.error || s.outQueue == []);
  }

  lemma OutputKeepsOrder<H>(s: State<H>, ins: seq<H>, outs: seq<H>, op: Op<H>)
    requires op.SendOp? && op.side == Output && PairsOk(s, ins, outs) && !FailsUnreported(s, op)
    ensures PairsOk(Apply(s, op), ins, outs + [op.h])
  {
    SendOutputKeepsPairs(s, ins, outs, op.h, op.replicated, op.reported || s.error || s.inQueue == []);
  }

  /** Pairs and queues are in order after every step. */
  ghost predicate AlwaysInOrder<H>(ops: seq<Op<H>>) {
    forall k :: 0 <= k <= |ops| ==> InOrder(ops[..k])
  }

  ghost predicate NeverUnreported<H>(ops: seq<Op<H>>) {
    forall k :: 0 <= k < |ops| ==> !FailsUnreported(Run(ops[..k]), ops[k])
  }

  lemma AlwaysSplits<H>(ops: seq<Op<H>>, prefix: seq<Op<H>>)
    requires ops != [] && prefix == ops[..|ops| - 1]
    ensures AlwaysInOrder(ops) <==> AlwaysInOrder(prefix) && InOrder(ops)
  {
    assert ops[..|ops|] == ops;
    forall k | 0 <= k <= |prefix| ensures prefix[..k] == ops[..k] {}
  }

  lemma NeverSplits<H>(ops: seq<Op<H>>, prefix: seq<Op<H>>)
    requires ops != [] && prefix == ops[..|ops| - 1]
    ensures NeverUnreported(ops) <==> NeverUnreported(prefix) && !FailsUnreported(Run(prefix), ops[|ops| - 1])
  {
    forall k | 0 <= k < |prefix| ensures prefix[..k] == ops[..k] && prefix[k] == ops[k] {}
  }

  /** Order is kept throughout a run of sends - after every step pairs and queues are in the
      order sent - exactly when no replication both fails and cannot be reported. */
  lemma {:induction false} PairsInSendOrder<H>(ops: seq<Op<H>>)
    requires OnlySends(ops)
    ensures AlwaysInOrder(ops) <==> NeverUnreported(ops)
  {
    if ops == [] {
      NothingSent<H>();
      assert ops[..0] == ops;
    } else {
      var prefix := ops[..|ops| - 1];
      PairsInSendOrder(prefix);
      AlwaysSplits(ops, prefix);
      NeverSplits(ops, prefix);
      assert AlwaysInOrder(prefix) ==> InOrder(prefix) by { assert prefix[..|prefix|] == prefix; }
      if InOrder(prefix) { OrderStep(ops); }
    }
  }

  lemma NothingSent<H>()
    ensures InOrder<H>([]) && Run<H>([]) == State([], [], false, [], []) && Untangled<H>([])
  {
  }

  lemma OrderStep<H>(ops: seq<Op<H>>)
    requires ops != [] && OnlySends(ops) && InOrder(ops[..|ops| - 1])
    ensures InOrder(ops) <==> !FailsUnreported(Run(ops[..|ops| - 1]), ops[|ops| - 1])
  {
    if FailsUnreported(Run(ops[..|ops| - 1]), ops[|ops| - 1]) {
      FailureLeavesBoth(ops[..|ops| - 1], ops[|ops| - 1]);
    } else {
      SendKeepsOrder(ops);
    }
  }

  /** Both buffers of an unreported failure go to the back of their queues. */
  lemma FailureLeavesBoth<H>(prefix: seq<Op<H>>, op: Op<H>)
    requires FailsUnreported(Run(prefix), op)
    ensures var t := Apply(Run(prefix), op);
            !t.error && t.inQueue != [] && t.outQueue != [] && t.pairs == Run(prefix).pairs
  {
  }

  /** Without failed replications no error is ever set and everything is paired in order. */
  lemma {:induction false} NoFailureNoError<H>(ops: seq<Op<H>>)
    requires OnlySends(ops) && forall k :: 0 <= k < |ops| ==> ops[k].replicated
    ensures InOrder(ops) && !Run(ops).error
  {
    if ops == [] {
      NothingSent<H>();
    } else {
      NoFailureNoError(ops[..|ops| - 1]);
      SendKeepsOrder(ops);
    }
  }

  // ---- what an unreported failure does to the pairs

  /** Each buffer sent is in a pair or still queued. */
  lemma {:induction false} AllAccounted<H>(ops: seq<Op<H>>)
    requires OnlySends(ops)
    ensures |Sent(ops, Input)| == |Run(ops).pairs| + |Run(ops).inQueue|
    ensures |Sent(ops, Output)| == |Run(ops).pairs| + |Run(ops).outQueue|
  {
    if ops != [] { AllAccounted(ops[..|ops| - 1]); }
  }

  ghost predicate PairedSoFar<H>(ops: seq<Op<H>>) {
    PairedInOrder(Run(ops), Sent(ops, Input), Sent(ops, Output))
  }

  /** Some failure so far was not reported. */
  predicate Failed<H>(ops: seq<Op<H>>) {
    ops != [] && (Failed(ops[..|ops| - 1]) || FailsUnreported(Run(ops[..|ops| - 1]), ops[|ops| - 1]))
  }

  /** Some replication succeeded after an unreported failure. */
  predicate PairedAfterFailure<H>(ops: seq<Op<H>>) {
    ops != [] &&
    (var prefix, last := ops[..|ops| - 1], ops[|ops| - 1];
     PairedAfterFailure(prefix) || (Failed(prefix) && Succeeds(Run(prefix), last)))
  }

  /** What holds of the pairs and the queues until a pair is made after an unreported failure. */
  ghost predicate Untangled<H>(ops: seq<Op<H>>) {
    && PairedSoFar(ops)
    && (Failed(ops) ==> Run(ops).inQueue != [] && Run(ops).outQueue != [])
    && (!Failed(ops) ==> InOrder(ops))
  }

  lemma StaysUntangled<H>(ops: seq<Op<H>>)
    requires ops != [] && OnlySends(ops) && Untangled(ops[..|ops| - 1])
    requires var prefix, last := ops[..|ops| - 1], ops[|ops| - 1]; !(Failed(prefix) && Succeeds(Run(prefix), last))
    ensures Untangled(ops)
  {
    var prefix, last := ops[..|ops| - 1], ops[|ops| - 1];
    if !Failed(prefix) && !FailsUnreported(Run(prefix), last) {
      SendKeepsOrder(ops);
    } else {
      assert Run(ops).pairs == Run(prefix).pairs;
      assert Sent(prefix, Input) <= Sent(ops, Input) && Sent(prefix, Output) <= Sent(ops, Output);
    }
  }

  /** A pair made while both queues hold earlier buffers takes its new buffer out of turn. */
  lemma Tangles<H>(ops: seq<Op<H>>)
    requires ops != [] && OnlySends(ops)
    requires Distinct(Sent(ops, Input)) && Distinct(Sent(ops, Output))
    requires var prefix := ops[..|ops| - 1];
             Run(prefix).inQueue != [] && Run(prefix).outQueue != [] && Succeeds(Run(prefix), ops[|ops| - 1])
    ensures !PairedSoFar(ops)
  {
    var prefix, last := ops[..|ops| - 1], ops[|ops| - 1];
    AllAccounted(prefix);
    var n, sent := |Run(prefix).pairs|, Sent(ops, last.side);
    assert sent == Sent(prefix, last.side) + [last.h];
    assert sent[|sent| - 1] == last.h && n < |sent| - 1;
    assert Run(ops).pairs[n] == Matched(Run(prefix), last.side, last.h).value;
  }

  lemma StaysTangled<H>(ops: seq<Op<H>>)
    requires ops != [] && OnlySends(ops) && !PairedSoFar(ops[..|ops| - 1])
    ensures !PairedSoFar(ops)
  {
    var prefix := ops[..|ops| - 1];
    AllAccounted(prefix);
    assert Run(prefix).pairs <= Run(ops).pairs;
    assert Sent(prefix, Input) <= Sent(ops, Input) && Sent(prefix, Output) <= Sent(ops, Output);
  }

  lemma {:induction false} SentGrows<H>(ops: seq<Op<H>>)
    requires ops != []
    ensures Sent(ops[..|ops| - 1], Input) <= Sent(ops, Input) && Sent(ops[..|ops| - 1], Output) <= Sent(ops, Output)
  {
  }

  /** When the pairs themselves come out of order: for buffers that are all different, exactly
      when some replication succeeds after one has failed unreported. Until then both queues
      merely hold buffers that wait; the first pair made after that, and so the whole run, is
      wrong. */
  lemma {:induction false} OutOfOrderExactlyWhen<H>(ops: seq<Op<H>>)
    requires OnlySends(ops) && Distinct(Sent(ops, Input)) && Distinct(Sent(ops, Output))
    ensures !PairedSoFar(ops) <==> PairedAfterFailure(ops)
    ensures !PairedAfterFailure(ops) ==> Untangled(ops)
  {
    if ops == [] {
      NothingSent<H>();
    } else {
      var prefix, last := ops[..|ops| - 1], ops[|ops| - 1];
      SentGrows(ops);
      OutOfOrderExactlyWhen(prefix);
      if PairedAfterFailure(prefix) {
        StaysTangled(ops);
      } else if Failed(prefix) && Succeeds(Run(prefix), last) {
        Tangles(ops);
      } else {
        StaysUntangled(ops);
      }
    }
  }

  /** The smallest such run: the second input is paired with the second output, and the first
      of each still waits. */
  lemma UnreportedFailureReorders()
    ensures var ops := [SendOp(Input, 1, true, true), SendOp(Input, 2, true, true),
                        SendOp(Output, 7, false, false), SendOp(Output, 8, true, true)];
            && Sent(ops, Input) == [1, 2] && Sent(ops, Output) == [7, 8]
            && Run(ops).pairs == [(2, 8)]
            && Run(ops).inQueue == [1] && Run(ops).outQueue == [7]
  {
    var ops: seq<Op<int>> := [];
    assert Run(ops) == State([], [], false, [], []);
    var a, b, c, d := SendOp(Input, 1, true, true), SendOp(Input, 2, true, true), SendOp(Output, 7, false, false), SendOp(Output, 8, true, true);
    RunMore(ops, a);
    RunMore(ops + [a], b);
    RunMore(ops + [a] + [b], c);
    RunMore(ops + [a] + [b] + [c], d);
    assert ops + [a] + [b] + [c] + [d] == [a, b, c, d];
  }

  lemma RunMore<H>(ops: seq<Op<H>>, op: Op<H>)
    ensures Run(ops + [op]) == Apply(Run(ops), op)
    ensures forall side :: Sent(ops + [op], side) == Sent(ops, side) + if op.SendOp? && op.side == side then [op.h] else []
  {
    assert (ops + [op])[..|ops|] == ops;
  }

  /** Every buffer the component has or has given back, with its port. */
  ghost function Bag<H>(s: State<H>): multiset<(Side, H)> {
    multiset(SideOf(s.inQueue, Input)) + multiset(SideOf(s.outQueue, Output)) + multiset(s.returned)
  }

  lemma SideOfAppend<H>(q: seq<H>, h: H, side: Side)
    ensures SideOf(q + [h], side) == SideOf(q, side) + [(side, h)]
    ensures multiset(SideOf(q + [h], side)) == multiset(SideOf(q, side)) + multiset{(side, h)}
  {
  }

  lemma EnqueueBag<H>(s: State<H>, side: Side, h: H)
    ensures Bag(Enqueue(s, side, h)) == Bag(s) + multiset{(side, h)}
  {
    SideOfAppend(if side == Input then s.inQueue else s.outQueue, h, side);
  }

  lemma UnqueueBag<H>(s: State<H>, side: Side, h: H)
    requires Matched(s, side, h).Some?
    ensures var (i, o) := Matched(s, side, h).value;
            Bag(Unqueue(s, side)) + multiset{(Input, i), (Output, o)} == Bag(s) + multiset{(side, h)}
  {
    if side == Input {
      assert SideOf(s.outQueue, Output) == [(Output, s.outQueue[0])] + SideOf(s.outQueue[1..], Output);
    } else {
      assert SideOf(s.inQueue, Input) == [(Input, s.inQueue[0])] + SideOf(s.inQueue[1..], Input);
    }
  }

  lemma SendConserves<H>(s: State<H>, side: Side, h: H, replicated: bool, reported: bool)
    ensures Bag(Send(s, side, h, replicated, reported)) == Bag(s) + multiset{(side, h)}
  {
    if s.error || Matched(s, side, h).None? {
      EnqueueBag(s, side, h);
    } else {
      var (i, o) := Matched(s, side, h).value;
      var t := Unqueue(s, side);
      UnqueueBag(s, side, h);
      EnqueueBag(t, Input, i);
      EnqueueBag(Enqueue(t, Input, i), Output, o);
      assert multiset(s.returned + [(Input, i), (Output, o)]) == multiset(s.returned) + multiset{(Input, i), (Output, o)};
    }
  }

  /** A flush returns everything its port holds, in order, and leaves the other port alone. */
  lemma FlushEmpties<H>(s: State<H>, side: Side)
    ensures var t, q := Flush(s, side), if side == Input then s.inQueue else s.outQueue;
            && (if side == Input then t.inQueue == [] && t.outQueue == s.outQueue else t.outQueue == [] && t.inQueue == s.inQueue)
            && t.error == s.error && t.pairs == s.pairs
            && |t.returned| == |s.returned| + |q| && s.returned <= t.returned
            && forall i :: 0 <= i < |q| ==> t.returned[|s.returned| + i] == (side, q[i])
  {
  }

  lemma FlushConserves<H>(s: State<H>, side: Side)
    ensures Bag(Flush(s, side)) == Bag(s)
  {
    assert SideOf<H>([], side) == [];
  }

  ghost function SentBag<H>(ops: seq<Op<H>>): multiset<(Side, H)> {
    multiset(SideOf(Sent(ops, Input), Input)) + multiset(SideOf(Sent(ops, Output), Output))
  }

  lemma SentBagGrows<H>(ops: seq<Op<H>>)
    requires ops != []
    ensures var last := ops[|ops| - 1];
            SentBag(ops) == SentBag(ops[..|ops| - 1]) + if last.SendOp? then multiset{(last.side, last.h)} else multiset{}
  {
    var prefix, last := ops[..|ops| - 1], ops[|ops| - 1];
    if last.SendOp? {
      SideOfAppend(Sent(prefix, last.side), last.h, last.side);
      if last.side == Input {
        assert Sent(ops, Output) == Sent(prefix, Output) && Sent(ops, Input) == Sent(prefix, Input) + [last.h];
      } else {
        assert Sent(ops, Input) == Sent(prefix, Input) && Sent(ops, Output) == Sent(prefix, Output) + [last.h];
      }
    } else {
      assert Sent(ops, Input) == Sent(prefix, Input) && Sent(ops, Output) == Sent(prefix, Output);
    }
  }

  /** In every run, whatever fails and whatever is flushed, each buffer sent is either still
      queued or has been returned, on its own port, exactly once. */
  lemma {:induction false} BuffersConserved<H>(ops: seq<Op<H>>)
    ensures Bag(Run(ops)) == SentBag(ops)
  {
    if ops != [] {
      var prefix, last := ops[..|ops| - 1], ops[|ops| - 1];
      BuffersConserved(prefix);
      SentBagGrows(ops);
      match last
      case SendOp(side, h, replicated, reported) => SendConserves(Run(prefix), side, h, replicated, reported);
      case FlushOp(side) => FlushConserves(Run(prefix), side);
    }
  }

  // ---------------------------------------------------------------- the component in place

  class Component {
    var inQueue: seq<BufferHeader>
    var outQueue: seq<BufferHeader>
    var error: bool
    ghost var pairs: seq<(BufferHeader, BufferHeader)>
    ghost var returned: seq<(Side, BufferHeader)>

    ghost function View(): State<BufferHeader>
      reads this
    {
      State(inQueue, outQueue, error, pairs, returned)
    }

    constructor ()
      ensures View() == State([], [], false, [], [])
    {
      inQueue, outQueue, error := [], [], false;
      pairs, returned := [], [];
    }

    /** Send a buffer to a port. No header is on both ports at once. */
    method SendBuffer(side: Side, buffer: BufferHeader, reported: bool)
      requires forall h :: h in inQueue + [buffer] && h in outQueue + [buffer] ==> h == buffer
      requires buffer !in inQueue && buffer !in outQueue
      modifies this, inQueue, outQueue, buffer
      ensures var m := old(Matched(View(), side, buffer));
              && View() == Send(old(View()), side, buffer, m.Some? && old(m.value.1.reference) == null, reported)
              && (pairs == old(pairs) ==> forall h :: h in old(inQueue) + old(outQueue) + [buffer] ==> h.View() == old(h.View()))
              && (pairs != old(pairs) ==>
                    var (i, o) := m.value;
                    && o.View() == Node(old(o.refcount), Some(i), old(i.Fields()))
                    && i.View() == old(i.View()).(refcount := old(i.refcount) + 1, fields := old(i.Fields()).(length := 0)))
    {
      if error {
        Put(side, buffer);
        return;
      }
      var i, o := buffer, buffer;
      if side == Input {
        if outQueue == [] {
          Put(side, buffer);
          return;
        }
        o, outQueue := outQueue[0], outQueue[1..];
      } else {
        if inQueue == [] {
          Put(side, buffer);
          return;
        }
        i, inQueue := inQueue[0], inQueue[1..];
      }
      assert i != o;
      var status := o.ReplicateFrom(i);
      if status == Success {
        i.length := 0;
        pairs := pairs + [(i, o)];
        returned := returned + [(Input, i), (Output, o)];
      } else {
        inQueue := inQueue + [i];
        outQueue := outQueue + [o];
        if reported { error := true; }
      }
    }

    method Put(side: Side, buffer: BufferHeader)
      modifies this
      ensures View() == Enqueue(old(View()), side, buffer)
    {
      if side == Input { inQueue := inQueue + [buffer]; } else { outQueue := outQueue + [buffer]; }
    }

    /** Return everything the port still holds. */
    method FlushPort(side: Side)
      modifies this
      ensures View() == Flush(old(View()), side)
      ensures var q := if side == Input then old(inQueue) else old(outQueue);
              && (if side == Input then inQueue else outQueue) == []
              && |returned| == |old(returned)| + |q| && old(returned) <= returned
              && forall i :: 0 <= i < |q| ==> returned[|old(returned)| + i] == (side, q[i])
    {
      if side == Input {
        while inQueue != []
          invariant outQueue == old(outQueue) && error == old(error) && pairs == old(pairs)
          invariant returned + SideOf(inQueue, Input) == old(returned) + SideOf(old(inQueue), Input)
        {
          returned := returned + [(Input, inQueue[0])];
          assert SideOf(inQueue, Input) == [(Input, inQueue[0])] + SideOf(inQueue[1..], Input);
          inQueue := inQueue[1..];
        }
      } else {
        while outQueue != []
          invariant inQueue == old(inQueue) && error == old(error) && pairs == old(pairs)
          invariant returned + SideOf(outQueue, Output) == old(returned) + SideOf(old(outQueue), Output)
        {
          returned := returned + [(Output, outQueue[0])];
          assert SideOf(outQueue, Output) == [(Output, outQueue[0])] + SideOf(outQueue[1..], Output);
          outQueue := outQueue[1..];
        }
      }
    }
  }
}
