/** The container writer: it takes packets from several input ports, earliest time-stamp first,
    without splitting frames. */
module ContainerWriter {
  import opened Wrappers
  import opened CInt

  datatype Buffer = Buffer(tag: nat, length: nat, pts: int, dts: int, frameEnd: bool, eos: bool)

  datatype Port = Port(enabled: bool, framed: bool, queue: seq<Buffer>)

  /** What happened, for the reader of a run: a packet handed to the container (`open` when its
      frame is still unfinished), or a port being disabled. */
  datatype Entry = Wrote(port: nat, buffer: Buffer, open: bool) | Disabled(port: nat)

  datatype State = State(
    ports: seq<Port>,
    portLastUsed: nat,
    portWritingFrame: nat,   // one more than the port with an unfinished frame, or 0
    error: bool,
    log: seq<Entry>)

  function Timestamp(b: Buffer): int {
    if b.dts == TIME_UNKNOWN then b.pts else b.dts
  }

  predicate Candidate(ports: seq<Port>, i: nat)
    requires i < |ports|
  {
    ports[i].enabled && ports[i].queue != []
  }

  function HeadTime(ports: seq<Port>, i: nat): int
    requires i < |ports| && Candidate(ports, i)
  {
    Timestamp(ports[i].queue[0])
  }

  /** The k-th port visited when the scan starts at `start`. */
  function Rotated(start: nat, k: nat, n: nat): nat
    requires start < n && k < n
  {
    if start + k < n then start + k else start + k - n
  }

  /** The best port after `rounds` rounds of the scan; among equals the later one wins. */
  function Scan(ports: seq<Port>, start: nat, rounds: nat): (r: Option<nat>)
    requires start < |ports| && rounds <= |ports|
    ensures r.Some? ==> r.value < |ports| && Candidate(ports, r.value)
  {
    if rounds == 0 then None
    else
      var best := Scan(ports, start, rounds - 1);
      var i := Rotated(start, rounds - 1, |ports|);
      if Candidate(ports, i) && (best.None? || HeadTime(ports, i) <= HeadTime(ports, best.value)) then Some(i) else best
  }

  /** In which round the scan visits port i. */
  function RoundOf(start: nat, i: nat, n: nat): nat
    requires start < n && i < n
  {
    if i >= start then i - start else i + n - start
  }

  lemma RoundOfRotated(start: nat, i: nat, n: nat)
    requires start < n && i < n
    ensures RoundOf(start, i, n) < n && Rotated(start, RoundOf(start, i, n), n) == i
    ensures forall k :: 0 <= k < n && Rotated(start, k, n) == i ==> k == RoundOf(start, i, n)
  {
  }

  /** The scan visits every port exactly once wherever it starts, and picks a port whose head
      is earliest among all enabled ports with data; of several such ports, the one visited
      last. It picks none exactly when there is none. */
  ghost predicate IsEarliest(ports: seq<Port>, start: nat, rounds: nat, r: Option<nat>)
    requires start < |ports| && rounds <= |ports|
  {
    && (r.None? ==> forall i :: 0 <= i < |ports| && RoundOf(start, i, |ports|) < rounds ==> !Candidate(ports, i))
    && (r.Some? ==>
          && r.value < |ports| && Candidate(ports, r.value) && RoundOf(start, r.value, |ports|) < rounds
          && forall i :: 0 <= i < |ports| && RoundOf(start, i, |ports|) < rounds && Candidate(ports, i) ==>
               && HeadTime(ports, r.value) <= HeadTime(ports, i)
               && (HeadTime(ports, i) == HeadTime(ports, r.value) ==>
                     RoundOf(start, i, |ports|) <= RoundOf(start, r.value, |ports|)))
  }

  lemma {:induction false} ScanFindsEarliest(ports: seq<Port>, start: nat, rounds: nat)
    requires start < |ports| && rounds <= |ports|
    ensures IsEarliest(ports, start, rounds, Scan(ports, start, rounds))
  {
    if rounds > 0 {
      ScanFindsEarliest(ports, start, rounds - 1);
      RoundOfRotated(start, Rotated(start, rounds - 1, |ports|), |ports|);
      forall i | 0 <= i < |ports| && RoundOf(start, i, |ports|) == rounds - 1
        ensures i == Rotated(start, rounds - 1, |ports|)
      {
        RoundOfRotated(start, i, |ports|);
      }
    }
  }

  predicate Ok(w: State) {
    w.portLastUsed < |w.ports|
  }

  /** The port that will be written: an unfinished frame overrides the earliest time-stamp. */
  function Chosen(w: State): (r: Option<nat>)
    requires Ok(w)
    ensures r.Some? ==> r.value < |w.ports|
  {
    if w.portWritingFrame != 0 && w.portWritingFrame - 1 < |w.ports| && w.ports[w.portWritingFrame - 1].enabled
    then Some(w.portWritingFrame - 1)
    else Scan(w.ports, w.portLastUsed, |w.ports|)
  }

  function LastUsed(w: State): (r: nat)
    requires Ok(w)
    ensures r < |w.ports|
  {
    var best := Scan(w.ports, w.portLastUsed, |w.ports|);
    if best.Some? then best.value else w.portLastUsed
  }

  function Take(w: State, p: nat, wrote: bool, reported: bool): State
    requires p < |w.ports| && w.ports[p].queue != []
  {
    var port := w.ports[p];
    var b := port.queue[0];
    var open := port.framed && !b.frameEnd;
    w.(ports := w.ports[p := port.(queue := port.queue[1..])],
       portWritingFrame := if open then p + 1 else 0,
       log := w.log + [Wrote(p, b, open)],
       error := !wrote && reported)
  }

  /** One call of the writer. `wrote`: the container accepted the packet; `reported`: otherwise,
      the error event could be sent. */
  function Step(w: State, wrote: bool, reported: bool): (r: State)
    requires Ok(w)
    ensures Ok(r)
  {
    if w.error then w
    else
      var v := w.(portLastUsed := LastUsed(w));
      var p := Chosen(w);
      if p.None? || w.ports[p.value].queue == [] then v else Take(v, p.value, wrote, reported)
  }

  // ---------------------------------------------------------------- frames are never interleaved

  datatype Op =
    | Send(port: nat, buffer: Buffer)
    | Process(wrote: bool, reported: bool)
    | Flush(port: nat)
    | Disable(port: nat)
    | Enable(port: nat)
    | SetFormat(port: nat, framed: bool)

  predicate Legal(w: State, op: Op) {
    Ok(w) && (op.Process? || op.port < |w.ports|)
  }

  function Apply(w: State, op: Op): (r: State)
    requires Legal(w, op)
    ensures Ok(r)
  {
    match op
    case Send(p, b) => w.(ports := w.ports[p := w.ports[p].(queue := w.ports[p].queue + [b])])
    case Process(wrote, reported) => Step(w, wrote, reported)
    case Flush(p) => w.(ports := w.ports[p := w.ports[p].(queue := [])])
    case Disable(p) => w.(ports := w.ports[p := w.ports[p].(enabled := false, queue := [])], log := w.log + [Disabled(p)])
    case Enable(p) => w.(ports := w.ports[p := w.ports[p].(enabled := true)])
    case SetFormat(p, framed) => w.(ports := w.ports[p := w.ports[p].(framed := framed)])
  }

  /** The port whose frame is unfinished at the end of a log, unless it was disabled since. */
  function Unfinished(log: seq<Entry>): Option<nat> {
    if log == [] then None
    else
      match log[|log| - 1]
      case Wrote(p, _, open) => if open then Some(p) else None
      case Disabled(p) => if Unfinished(log[..|log| - 1]) == Some(p) then None else Unfinished(log[..|log| - 1])
  }

  ghost predicate FramesWhole(log: seq<Entry>) {
    forall j :: 0 <= j < |log| && log[j].Wrote? && Unfinished(log[..j]).Some? ==> Unfinished(log[..j]) == Some(log[j].port)
  }

  ghost predicate FrameInv(w: State) {
    && FramesWhole(w.log)
    && (Unfinished(w.log).Some? ==>
          var p := Unfinished(w.log).value;
          p < |w.ports| && w.portWritingFrame == p + 1 && w.ports[p].enabled)
  }

  lemma AppendKeepsWhole(log: seq<Entry>, e: Entry)
    requires FramesWhole(log) && (e.Wrote? && Unfinished(log).Some? ==> Unfinished(log) == Some(e.port))
    ensures FramesWhole(log + [e])
  {
    forall j | 0 <= j <= |log| ensures (log + [e])[..j] == log[..j] {}
    assert log[..|log|] == log;
  }

  lemma ApplyKeepsFrames(w: State, op: Op)
    requires Legal(w, op) && FrameInv(w)
    ensures FrameInv(Apply(w, op))
  {
    match op
    case Process(wrote, reported) => StepKeepsFrames(w, wrote, reported);
    case Disable(p) =>
      AppendKeepsWhole(w.log, Disabled(p));
      assert (w.log + [Disabled(p)])[..|w.log|] == w.log;
    case _ =>
  }

  lemma StepKeepsFrames(w: State, wrote: bool, reported: bool)
    requires Ok(w) && FrameInv(w)
    ensures FrameInv(Step(w, wrote, reported))
  {
    if !w.error && Chosen(w).Some? && w.ports[Chosen(w).value].queue != [] {
      ChosenIsWritten(w, Chosen(w).value, wrote, reported);
      ChosenEnabled(w);
      WriteKeepsFrames(w, Step(w, wrote, reported), Chosen(w).value);
    }
  }

  lemma WriteKeepsFrames(w: State, v: State, p: nat)
    requires Ok(w) && FrameInv(w) && Writes(w, v, p) && w.ports[p].enabled
    requires Unfinished(w.log).Some? ==> Unfinished(w.log) == Some(p)
    ensures FrameInv(v)
  {
    AppendKeepsWhole(w.log, v.log[|w.log|]);
    assert v.log[..|w.log|] == w.log;
  }

  lemma ChosenEnabled(w: State)
    requires Ok(w) && Chosen(w).Some?
    ensures w.ports[Chosen(w).value].enabled
  {
  }

  ghost predicate IsRun(ws: seq<State>, ops: seq<Op>) {
    && |ws| == |ops| + 1 && Ok(ws[0]) && ws[0].log == [] && ws[0].portWritingFrame == 0
    && forall i :: 0 <= i < |ops| ==> Legal(ws[i], ops[i]) && ws[i + 1] == Apply(ws[i], ops[i])
  }

  lemma {:induction false} RunKeepsFrames(ws: seq<State>, ops: seq<Op>, k: nat)
    requires IsRun(ws, ops) && k < |ws|
    ensures FrameInv(ws[k])
  {
    if k > 0 {
      RunKeepsFrames(ws, ops, k - 1);
      ApplyKeepsFrames(ws[k - 1], ops[k - 1]);
    }
  }

  /** Frames are never interleaved. In every run, once a packet of a framed port that does not
      end its frame has been written, every packet written before that frame's end comes from
      the same port, as long as the port is not disabled. */
  lemma FramesNeverInterleave(ws: seq<State>, ops: seq<Op>, k: nat, i: nat, j: nat)
    requires IsRun(ws, ops) && k < |ws|
    requires var log := ws[k].log;
             && i < j < |log| && log[i].Wrote? && log[i].open && log[j].Wrote?
             && forall m :: i < m < j ==> log[m] != Disabled(log[i].port) && (log[m].Wrote? && log[m].port == log[i].port ==> log[m].open)
    ensures ws[k].log[j].port == ws[k].log[i].port
  {
    RunKeepsFrames(ws, ops, k);
    StaysUnfinished(ws[k].log, i, j);
  }

  lemma {:induction false} StaysUnfinished(log: seq<Entry>, i: nat, j: nat)
    requires FramesWhole(log) && i < j <= |log| && log[i].Wrote? && log[i].open
    requires forall m :: i < m < j ==> log[m] != Disabled(log[i].port) && (log[m].Wrote? && log[m].port == log[i].port ==> log[m].open)
    ensures Unfinished(log[..j]) == Some(log[i].port)
    decreases j
  {
    assert log[..j][..j - 1] == log[..j - 1];
    if j > i + 1 {
      StaysUnfinished(log, i, j - 1);
    }
  }

  // ---------------------------------------------------------------- the merge

  /** The packets of port p in a log, in order. */
  function WrittenFrom(log: seq<Entry>, p: nat): seq<Buffer> {
    if log == [] then []
    else
      var e := log[|log| - 1];
      WrittenFrom(log[..|log| - 1], p) + if e.Wrote? && e.port == p then [e.buffer] else []
  }

  lemma TakeConserves(w: State, q: nat, wrote: bool, reported: bool, p: nat)
    requires q < |w.ports| && w.ports[q].queue != [] && p < |w.ports|
    ensures var v := Take(w, q, wrote, reported);
            && WrittenFrom(v.log, p) + v.ports[p].queue == WrittenFrom(w.log, p) + w.ports[p].queue
            && v.ports[p].enabled == w.ports[p].enabled && v.ports[p].framed == w.ports[p].framed
  {
    var v, queue := Take(w, q, wrote, reported), w.ports[q].queue;
    assert v.log[..|w.log|] == w.log;
    assert queue == [queue[0]] + queue[1..];
  }

  /** One step moves at most one packet from the front of its queue to the end of the log. */
  lemma StepConserves(w: State, wrote: bool, reported: bool, p: nat)
    requires Ok(w) && p < |w.ports|
    ensures var v := Step(w, wrote, reported);
            && |v.ports| == |w.ports|
            && WrittenFrom(v.log, p) + v.ports[p].queue == WrittenFrom(w.log, p) + w.ports[p].queue
            && v.ports[p].enabled == w.ports[p].enabled && v.ports[p].framed == w.ports[p].framed
  {
    if !w.error && Chosen(w).Some? && w.ports[Chosen(w).value].queue != [] {
      TakeConserves(w.(portLastUsed := LastUsed(w)), Chosen(w).value, wrote, reported, p);
    }
  }

  function Queued(ports: seq<Port>): nat {
    if ports == [] then 0 else |ports[0].queue| + Queued(ports[1..])
  }

  lemma {:induction false} QueuedAfterPop(ports: seq<Port>, p: nat)
    requires p < |ports| && ports[p].queue != []
    ensures Queued(ports[p := ports[p].(queue := ports[p].queue[1..])]) == Queued(ports) - 1
  {
    var port := ports[p].(queue := ports[p].queue[1..]);
    if p == 0 {
      assert ports[0 := port][1..] == ports[1..];
    } else {
      assert ports[p := port][1..] == ports[1..][p - 1 := port];
      QueuedAfterPop(ports[1..], p - 1);
    }
  }

  lemma {:induction false} NoneQueued(ports: seq<Port>)
    ensures Queued(ports) == 0 <==> forall i :: 0 <= i < |ports| ==> ports[i].queue == []
  {
    if ports != [] {
      NoneQueued(ports[1..]);
      assert forall i :: 0 < i < |ports| ==> ports[i] == ports[1..][i - 1];
    }
  }

  ghost predicate Sorted(q: seq<Buffer>) {
    forall i, j :: 0 <= i < j < |q| ==> Timestamp(q[i]) <= Timestamp(q[j])
  }

  /** A framed port's queue that does not stop in the middle of a frame. */
  predicate Complete(port: Port) {
    port.framed && port.queue != [] ==> port.queue[|port.queue| - 1].frameEnd
  }

  /** Every port is enabled with a sorted queue; the frames of framed ports, of any number of
      packets, are complete. */
  ghost predicate MergeReady(w: State) {
    && Ok(w) && !w.error && w.portWritingFrame == 0
    && QueuesReady(w.ports)
  }

  ghost predicate QueuesReady(ports: seq<Port>) {
    forall i :: 0 <= i < |ports| ==> ports[i].enabled && Sorted(ports[i].queue) && Complete(ports[i])
  }

  /** An entry that does not continue a frame. */
  predicate Starts(log: seq<Entry>, i: nat)
    requires i < |log|
  {
    log[i].Wrote? && Unfinished(log[..i]).None?
  }

  /** Nothing written or queued after the start of a frame is earlier than it. */
  ghost predicate StartsFirst(log: seq<Entry>) {
    forall i, j :: 0 <= i < j < |log| && Starts(log, i) && log[j].Wrote? ==> Timestamp(log[i].buffer) <= Timestamp(log[j].buffer)
  }

  ghost predicate Ahead(w: State) {
    forall i, p, k :: 0 <= i < |w.log| && Starts(w.log, i) && 0 <= p < |w.ports| && 0 <= k < |w.ports[p].queue| ==>
      Timestamp(w.log[i].buffer) <= Timestamp(w.ports[p].queue[k])
  }

  /** Between two steps of the merge; the rest of an unfinished frame is still queued. */
  ghost predicate MergeInv(w: State) {
    && Ok(w) && !w.error && QueuesReady(w.ports) && FrameInv(w) && OnlyWrites(w.log)
    && (if w.portWritingFrame == 0 then Unfinished(w.log) == None
        else
          var p := w.portWritingFrame - 1;
          p < |w.ports| && Unfinished(w.log) == Some(p) && w.ports[p].framed && w.ports[p].queue != [])
    && StartsFirst(w.log) && Ahead(w)
  }

  ghost predicate OnlyWrites(log: seq<Entry>) {
    forall i :: 0 <= i < |log| ==> log[i].Wrote?
  }

  /** No head is earlier than that of p. */
  ghost predicate EarliestHead(ports: seq<Port>, p: nat) {
    && p < |ports| && Candidate(ports, p)
    && forall q :: 0 <= q < |ports| && Candidate(ports, q) ==> HeadTime(ports, p) <= HeadTime(ports, q)
  }

  lemma ScanIsEarliest(w: State)
    requires Ok(w)
    ensures var best := Scan(w.ports, w.portLastUsed, |w.ports|);
            && (best.None? <==> forall q :: 0 <= q < |w.ports| ==> !Candidate(w.ports, q))
            && (best.Some? ==> EarliestHead(w.ports, best.value))
  {
    ScanFindsEarliest(w.ports, w.portLastUsed, |w.ports|);
    forall q | 0 <= q < |w.ports| ensures RoundOf(w.portLastUsed, q, |w.ports|) < |w.ports| {
      RoundOfRotated(w.portLastUsed, q, |w.ports|);
    }
  }

  /** Nothing queued is earlier than the earliest head of sorted queues. */
  lemma EarliestOfAll(ports: seq<Port>, p: nat, q: nat, k: nat)
    requires QueuesReady(ports) && EarliestHead(ports, p) && q < |ports| && k < |ports[q].queue|
    ensures HeadTime(ports, p) <= Timestamp(ports[q].queue[k])
  {
    assert Candidate(ports, q);
  }

  /** Which port the next packet comes from. */
  lemma NextPacket(w: State) returns (p: nat)
    requires MergeInv(w) && Queued(w.ports) > 0
    ensures Chosen(w) == Some(p) && p < |w.ports| && w.ports[p].queue != []
    ensures Unfinished(w.log) == if w.portWritingFrame == 0 then None else Some(p)
    ensures w.portWritingFrame == 0 ==> EarliestHead(w.ports, p)
  {
    NoneQueued(w.ports);
    ScanIsEarliest(w);
    var q :| 0 <= q < |w.ports| && w.ports[q].queue != [];
    assert Candidate(w.ports, q);
    p := Chosen(w).value;
  }

  lemma PopStaysReady(ports: seq<Port>, p: nat)
    requires QueuesReady(ports) && p < |ports| && ports[p].queue != []
    ensures QueuesReady(ports[p := ports[p].(queue := ports[p].queue[1..])])
    ensures ports[p].framed && !ports[p].queue[0].frameEnd ==> |ports[p].queue| > 1
  {
  }

  lemma StartsPrefix(log: seq<Entry>, e: Entry, i: nat)
    requires i <= |log|
    ensures i < |log| ==> Starts(log + [e], i) == Starts(log, i)
    ensures i == |log| ==> Starts(log + [e], i) == (e.Wrote? && Unfinished(log).None?)
    ensures (log + [e])[..i] == log[..i]
  {
    assert (log + [e])[..i] == log[..i];
    assert log[..|log|] == log;
  }

  /** A packet that starts a frame is the earliest; one that continues it starts nothing. */
  lemma TakeStartsFirst(w: State, p: nat, e: Entry, ports: seq<Port>)
    requires StartsFirst(w.log) && Ahead(w) && QueuesReady(w.ports) && p < |w.ports| && w.ports[p].queue != []
    requires e.Wrote? && e.buffer == w.ports[p].queue[0]
    requires Unfinished(w.log).Some? || EarliestHead(w.ports, p)
    requires ports == w.ports[p := w.ports[p].(queue := w.ports[p].queue[1..])]
    ensures StartsFirst(w.log + [e]) && Ahead(w.(log := w.log + [e], ports := ports))
  {
    var log := w.log + [e];
    forall i, j | 0 <= i < j < |log| && Starts(log, i) && log[j].Wrote?
      ensures Timestamp(log[i].buffer) <= Timestamp(log[j].buffer)
    {
      StartsPrefix(w.log, e, i);
    }
    forall i, q, k | 0 <= i < |log| && Starts(log, i) && 0 <= q < |ports| && 0 <= k < |ports[q].queue|
      ensures Timestamp(log[i].buffer) <= Timestamp(ports[q].queue[k])
    {
      StartsPrefix(w.log, e, i);
      assert ports[q].queue[k] == w.ports[q].queue[if q == p then k + 1 else k];
      if i == |w.log| { EarliestOfAll(w.ports, p, q, if q == p then k + 1 else k); }
    }
  }

  /** A successful step of the writer, by what it does to queues and log. */
  ghost predicate Writes(w: State, v: State, p: nat) {
    && p < |w.ports| && w.ports[p].queue != [] && |v.ports| == |w.ports|
    && var b := w.ports[p].queue[0];
       var open := w.ports[p].framed && !b.frameEnd;
       && v.ports == w.ports[p := w.ports[p].(queue := w.ports[p].queue[1..])]
       && v.log == w.log + [Wrote(p, b, open)]
       && v.portWritingFrame == (if open then p + 1 else 0)
       && Ok(v)
  }

  lemma ChosenIsWritten(w: State, p: nat, wrote: bool, reported: bool)
    requires Ok(w) && !w.error && Chosen(w) == Some(p) && w.ports[p].queue != []
    ensures var v := Step(w, wrote, reported); Writes(w, v, p) && v.error == (!wrote && reported)
  {
  }

  lemma WriteMerges(w: State, v: State, p: nat)
    requires MergeInv(w) && Writes(w, v, p) && !v.error && FrameInv(v)
    requires Unfinished(w.log) == (if w.portWritingFrame == 0 then None else Some(p)) && (w.portWritingFrame == 0 ==> EarliestHead(w.ports, p))
    ensures MergeInv(v)
  {
    PopStaysReady(w.ports, p);
    var b := w.ports[p].queue[0];
    TakeStartsFirst(w, p, Wrote(p, b, w.ports[p].framed && !b.frameEnd), v.ports);
    assert v.log[..|w.log|] == w.log;
  }

  lemma StepMerges(w: State)
    requires MergeInv(w) && Queued(w.ports) > 0
    ensures MergeInv(Step(w, true, true)) && Queued(Step(w, true, true).ports) == Queued(w.ports) - 1
  {
    var p := NextPacket(w);
    ChosenIsWritten(w, p, true, true);
    ApplyKeepsFrames(w, Process(true, true));
    WriteMerges(w, Step(w, true, true), p);
    QueuedAfterPop(w.ports, p);
  }

  function Steps(w: State, n: nat): (r: State)
    requires Ok(w)
    ensures Ok(r)
  {
    if n == 0 then w else Step(Steps(w, n - 1), true, true)
  }

  /** The k-way merge: after as many steps as there are packets queued, every queue is empty, each
      port's packets were written in its own order, frames of any number of packets in one piece,
      and nothing written after the start of a frame is earlier than that. */
  lemma MergeDrains(w: State)
    requires MergeReady(w) && w.log == []
    ensures var v := Steps(w, Queued(w.ports));
            && |v.ports| == |w.ports|
            && (forall p :: 0 <= p < |v.ports| ==> v.ports[p].queue == [] && WrittenFrom(v.log, p) == w.ports[p].queue)
            && StartsFirst(v.log) && FramesWhole(v.log) && Unfinished(v.log) == None
  {
    StepsMerge(w, Queued(w.ports));
    var v := Steps(w, Queued(w.ports));
    NoneQueued(v.ports);
    StepsConserve(w, Queued(w.ports));
    forall p | 0 <= p < |v.ports| ensures WrittenFrom(v.log, p) == w.ports[p].queue {
      assert v.ports[p].queue == [];
      assert WrittenFrom(v.log, p) + [] == WrittenFrom(v.log, p) && [] + w.ports[p].queue == w.ports[p].queue;
    }
  }

  lemma {:induction false} StepsConserve(w: State, n: nat)
    requires Ok(w)
    ensures var v := Steps(w, n);
            && |v.ports| == |w.ports|
            && forall p :: 0 <= p < |w.ports| ==>
                 WrittenFrom(v.log, p) + v.ports[p].queue == WrittenFrom(w.log, p) + w.ports[p].queue
  {
    if n > 0 {
      StepsConserve(w, n - 1);
      var u := Steps(w, n - 1);
      forall p | 0 <= p < |w.ports|
        ensures |Step(u, true, true).ports| == |w.ports|
        ensures WrittenFrom(Step(u, true, true).log, p) + Step(u, true, true).ports[p].queue == WrittenFrom(w.log, p) + w.ports[p].queue
      {
        StepConserves(u, true, true, p);
      }
    }
  }

  lemma {:induction false} StepsMerge(w: State, n: nat)
    requires MergeReady(w) && w.log == [] && n <= Queued(w.ports)
    ensures MergeInv(Steps(w, n)) && Queued(Steps(w, n).ports) == Queued(w.ports) - n
  {
    if n == 0 {
      ReadyToMerge(w);
    } else {
      StepsMerge(w, n - 1);
      StepMerges(Steps(w, n - 1));
    }
  }

  lemma ReadyToMerge(w: State)
    requires MergeReady(w) && w.log == []
    ensures MergeInv(w)
  {
  }

  /** Framed ports hold whole frames only. */
  ghost predicate WholeFrames(w: State) {
    && (forall i, k :: 0 <= i < |w.ports| && w.ports[i].framed && 0 <= k < |w.ports[i].queue| ==> w.ports[i].queue[k].frameEnd)
    && forall i :: 0 <= i < |w.log| ==> w.log[i].Wrote? && !w.log[i].open
  }

  lemma {:induction false} StepsStayWhole(w: State, n: nat)
    requires Ok(w) && WholeFrames(w)
    ensures WholeFrames(Steps(w, n))
  {
    if n > 0 {
      StepsStayWhole(w, n - 1);
      var u := Steps(w, n - 1);
      if !u.error && Chosen(u).Some? && u.ports[Chosen(u).value].queue != [] {
        ChosenIsWritten(u, Chosen(u).value, true, true);
        WriteStaysWhole(u, Step(u, true, true), Chosen(u).value);
      }
    }
  }

  lemma WriteStaysWhole(w: State, v: State, p: nat)
    requires WholeFrames(w) && Writes(w, v, p)
    ensures WholeFrames(v)
  {
    forall i, k | 0 <= i < |v.ports| && v.ports[i].framed && 0 <= k < |v.ports[i].queue| ensures v.ports[i].queue[k].frameEnd {
      assert v.ports[i].queue[k] == w.ports[i].queue[if i == p then k + 1 else k];
    }
  }

  /** Unframed packets and whole frames come out in time-stamp order. */
  lemma MergeSorts(w: State)
    requires MergeReady(w) && w.log == [] && WholeFrames(w)
    ensures TimesSorted(Steps(w, Queued(w.ports)).log)
  {
    MergeDrains(w);
    StepsStayWhole(w, Queued(w.ports));
    WholeSorted(Steps(w, Queued(w.ports)).log);
  }

  ghost predicate TimesSorted(log: seq<Entry>) {
    && OnlyWrites(log)
    && forall i, j :: 0 <= i < j < |log| ==> Timestamp(log[i].buffer) <= Timestamp(log[j].buffer)
  }

  /** Where no frame is left open every packet starts one. */
  lemma WholeSorted(log: seq<Entry>)
    requires StartsFirst(log) && forall i :: 0 <= i < |log| ==> log[i].Wrote? && !log[i].open
    ensures TimesSorted(log)
  {
    forall i, j | 0 <= i < j < |log| ensures Timestamp(log[i].buffer) <= Timestamp(log[j].buffer) {
      if i > 0 { assert log[..i][|log[..i]| - 1] == log[i - 1]; }
      assert Starts(log, i);
    }
  }

  // ---------------------------------------------------------------- the writer in place

  class Writer {
    var ports: seq<Port>
    var portLastUsed: nat
    var portWritingFrame: nat
    var error: bool
    ghost var log: seq<Entry>
    ghost var returned: seq<(nat, Buffer)>   // buffers given back, with their ports
    ghost var errors: nat                    // error events sent, or that could not be sent
    ghost var endEvents: seq<nat>            // ports whose end of stream was announced

    ghost function View(): State
      reads this
    {
      State(ports, portLastUsed, portWritingFrame, error, log)
    }

    constructor (portCount: nat)
      requires portCount > 0
      ensures Ok(View()) && |ports| == portCount && log == [] && portWritingFrame == 0 && !error
    {
      ports := seq(portCount, i => Port(false, false, []));
      portLastUsed, portWritingFrame, error := 0, 0, false;
      log, returned, errors, endEvents := [], [], 0, [];
    }

    method Get(p: nat) returns (buffer: Option<Buffer>)
      requires p < |ports|
      modifies this`ports
      ensures var q := old(ports[p].queue);
              && buffer == (if q == [] then None else Some(q[0]))
              && ports == old(ports)[p := old(ports[p]).(queue := if q == [] then [] else q[1..])]
    {
      var queue := ports[p].queue;
      if queue == [] { return None; }
      ports := ports[p := ports[p].(queue := queue[1..])];
      return Some(queue[0]);
    }

    method PutBack(p: nat, buffer: Buffer)
      requires p < |ports|
      modifies this`ports
      ensures ports == old(ports)[p := old(ports[p]).(queue := [buffer] + old(ports[p].queue))]
    {
      ports := ports[p := ports[p].(queue := [buffer] + ports[p].queue)];
    }

    /** Look at the head of every queue by taking it out and putting it back. */
    method SelectPort() returns (port: Option<nat>)
      requires Ok(View())
      modifies this`ports, this`portLastUsed
      ensures ports == old(ports)
      ensures port == Scan(ports, old(portLastUsed), |ports|)
      ensures portLastUsed == LastUsed(old(View()))
    {
      var index, timestamp := portLastUsed, 0;
      ghost var start := portLastUsed;
      port := None;
      for i := 0 to |ports|
        invariant ports == old(ports)
        invariant start < |ports|
        invariant index == if i < |ports| then (if i == 0 then start else Rotated(start, i - 1, |ports|) + 1) else Rotated(start, i - 1, |ports|) + 1
        invariant port == Scan(ports, start, i)
        invariant port.Some? ==> timestamp == HeadTime(ports, port.value)
        invariant portLastUsed == if port.Some? then port.value else start
      {
        if index == |ports| { index := 0; }
        assert index == Rotated(start, i, |ports|);
        if ports[index].enabled {
          ghost var queue := ports[index].queue;
          assert queue != [] ==> [queue[0]] + queue[1..] == queue;
          var buffer := Get(index);
          if buffer.Some? {
            var current := Timestamp(buffer.value);
            if port.None? { timestamp := current; }
            if current <= timestamp {
              port, timestamp, portLastUsed := Some(index), current, index;
            }
            PutBack(index, buffer.value);
          }
        }
        assert ports == old(ports);
        index := index + 1;
      }
    }

    /** Hand one packet to the container, give its buffer back, and report what has to be. */
    method WritePacket(p: nat, wrote: bool, reported: bool, announced: bool)
      requires p < |ports| && ports[p].queue != [] && !error
      modifies this
      ensures View() == Take(old(View()), p, wrote, reported)
      ensures Told(p, old(ports)[p].queue[0], wrote, announced, old(returned), old(errors), old(endEvents))
    {
      var buffer := ports[p].queue[0];
      ports := ports[p := ports[p].(queue := ports[p].queue[1..])];
      portWritingFrame := p + 1;
      if buffer.frameEnd || !ports[p].framed {
        portWritingFrame := 0;
      }
      log := log + [Wrote(p, buffer, portWritingFrame != 0)];
      returned := returned + [(p, buffer.(length := 0))];
      if !wrote {
        errors := errors + 1;
        if reported { error := true; }
        return;
      }
      if buffer.eos && announced {
        endEvents := endEvents + [p];
      }
    }

    ghost predicate Told(p: nat, b: Buffer, wrote: bool, announced: bool,
                         returnedBefore: seq<(nat, Buffer)>, errorsBefore: nat, endEventsBefore: seq<nat>)
      reads this
    {
      && returned == returnedBefore + [(p, b.(length := 0))]
      && errors == errorsBefore + (if wrote then 0 else 1)
      && endEvents == endEventsBefore + if wrote && b.eos && announced then [p] else []
    }

    /** One call of the writer. `announced`: an event buffer for the end of a stream is available. */
    method DoProcessing(wrote: bool, reported: bool, announced: bool)
      requires Ok(View())
      modifies this
      ensures View() == Step(old(View()), wrote, reported)
      ensures log == old(log) ==> returned == old(returned) && errors == old(errors) && endEvents == old(endEvents)
      ensures log != old(log) ==>
                var e := log[|log| - 1];
                && e.Wrote? && returned == old(returned) + [(e.port, e.buffer.(length := 0))]
                && errors == old(errors) + (if wrote then 0 else 1)
                && endEvents == old(endEvents) + if wrote && e.buffer.eos && announced then [e.port] else []
    {
      if error { return; }
      var port := SelectPort();
      if portWritingFrame != 0 && portWritingFrame - 1 < |ports| && ports[portWritingFrame - 1].enabled {
        port := Some(portWritingFrame - 1);
      }
      if port.None? || ports[port.value].queue == [] { return; }
      WritePacket(port.value, wrote, reported, announced);
    }

    method SendBuffer(p: nat, buffer: Buffer)
      requires p < |ports| && Ok(View())
      modifies this`ports
      ensures View() == Apply(old(View()), Send(p, buffer))
      ensures ports[p].queue == old(ports)[p].queue + [buffer]
    {
      ports := ports[p := ports[p].(queue := ports[p].queue + [buffer])];
    }

    /** Give back, in order and with length 0, everything queued on a port. */
    method FlushPort(p: nat)
      requires p < |ports| && Ok(View())
      modifies this`ports, this`returned
      ensures View() == Apply(old(View()), Flush(p))
      ensures ports[p].queue == [] && |returned| == |old(returned)| + |old(ports)[p].queue| && old(returned) <= returned
      ensures forall i :: 0 <= i < |old(ports)[p].queue| ==>
                returned[|old(returned)| + i] == (p, old(ports)[p].queue[i].(length := 0))
    {
      ghost var before := ports[p].queue;
      ghost var n := 0;
      while ports[p].queue != []
        invariant n <= |before| && ports == old(ports)[p := old(ports)[p].(queue := before[n..])]
        invariant |returned| == |old(returned)| + n && old(returned) <= returned
        invariant forall i :: 0 <= i < n ==> returned[|old(returned)| + i] == (p, before[i].(length := 0))
        decreases |ports[p].queue|
      {
        returned := returned + [(p, ports[p].queue[0].(length := 0))];
        ports := ports[p := ports[p].(queue := ports[p].queue[1..])];
        n := n + 1;
      }
    }

    /** Disabling flushes the port. */
    method DisablePort(p: nat)
      requires p < |ports| && Ok(View())
      modifies this`ports, this`returned, this`log
      ensures View() == Apply(old(View()), Disable(p))
      ensures !ports[p].enabled && ports[p].queue == []
      ensures |returned| == |old(returned)| + |old(ports)[p].queue|
    {
      FlushPort(p);
      ports := ports[p := ports[p].(enabled := false)];
      log := log + [Disabled(p)];
    }
  }
}
