/** What each step of the container writer does: it goes on with an unfinished frame, else it writes
    the earliest packet, and ports with equally early packets take turns. */
module WriterLaws {
  import opened Wrappers
  import opened CInt
  import opened ContainerWriter

  /** The port that the writer is in the middle of a frame of, if it is enabled. */
  function Holder(w: State): Option<nat> {
    if w.portWritingFrame != 0 && w.portWritingFrame - 1 < |w.ports| && w.ports[w.portWritingFrame - 1].enabled
    then Some(w.portWritingFrame - 1) else None
  }

  ghost predicate NothingToWrite(w: State) {
    match Holder(w)
    case Some(p) => w.ports[p].queue == []
    case None => forall q :: 0 <= q < |w.ports| ==> !Candidate(w.ports, q)
  }

  /** The three cases of a step. A component in error does nothing. Otherwise the port whose frame is
      unfinished is served, and only that; and if there is none the port with the earliest head.
      Only when that leaves nothing to write is nothing written. An error is noted exactly when a
      packet could not be written and that could be reported. */
  lemma StepWrites(w: State, wrote: bool, reported: bool) returns (p: nat)
    requires Ok(w)
    ensures var v := Step(w, wrote, reported);
            && (w.error ==> v == w)
            && (!w.error && NothingToWrite(w) ==>
                  v.log == w.log && v.ports == w.ports && v.portWritingFrame == w.portWritingFrame && !v.error)
            && (!w.error && !NothingToWrite(w) ==>
                  && Writes(w, v, p) && v.error == (!wrote && reported)
                  && (if Holder(w).Some? then Holder(w) == Some(p) else EarliestHead(w.ports, p)))
  {
    ScanIsEarliest(w);
    p := if Chosen(w).Some? then Chosen(w).value else 0;
    if !w.error && !NothingToWrite(w) {
      ChosenIsWritten(w, p, wrote, reported);
    }
  }

  // ---------------------------------------------------------------- who holds the writer

  /** The port whose packet was written last, if that left its frame unfinished. */
  function LastOpen(log: seq<Entry>): Option<nat> {
    if log == [] then None
    else
      match log[|log| - 1]
      case Wrote(p, _, open) => if open then Some(p) else None
      case Disabled(_) => LastOpen(log[..|log| - 1])
  }

  ghost predicate HoldInv(w: State) {
    Ok(w) && w.portWritingFrame == match LastOpen(w.log) case Some(p) => p + 1 case None => 0
  }

  lemma ApplyKeepsHold(w: State, op: Op)
    requires Legal(w, op) && HoldInv(w)
    ensures HoldInv(Apply(w, op))
  {
    match op
    case Process(wrote, reported) =>
      var p := StepWrites(w, wrote, reported);
      if !w.error && !NothingToWrite(w) {
        assert Apply(w, op).log[|w.log|].Wrote?;
      }
    case Disable(p) => assert (w.log + [Disabled(p)])[..|w.log|] == w.log;
    case _ =>
  }

  lemma {:induction false} RunHold(ws: seq<State>, ops: seq<Op>, k: nat)
    requires IsRun(ws, ops) && k < |ws|
    ensures HoldInv(ws[k])
  {
    if k > 0 {
      RunHold(ws, ops, k - 1);
      ApplyKeepsHold(ws[k - 1], ops[k - 1]);
    }
  }

  /** A frame of several packets is finished: in every run, while the last packet written left its
      frame unfinished and its port is enabled, each call writes the next packet of that port as
      soon as there is one, and until then nothing - even if the port was disabled in between. */
  lemma FrameIsFinished(ws: seq<State>, ops: seq<Op>, k: nat, p: nat, wrote: bool, reported: bool)
    requires IsRun(ws, ops) && k < |ws| && !ws[k].error
    requires LastOpen(ws[k].log) == Some(p) && p < |ws[k].ports| && ws[k].ports[p].enabled
    ensures Ok(ws[k])
    ensures var v := Step(ws[k], wrote, reported);
            if ws[k].ports[p].queue == [] then v.log == ws[k].log && v.ports == ws[k].ports else Writes(ws[k], v, p)
  {
    RunHold(ws, ops, k);
    var q := StepWrites(ws[k], wrote, reported);
  }

  /** With no unfinished frame each call writes the earliest head, and nothing only if there is none. */
  lemma EarliestIsWritten(ws: seq<State>, ops: seq<Op>, k: nat, wrote: bool, reported: bool) returns (p: nat)
    requires IsRun(ws, ops) && k < |ws| && !ws[k].error && LastOpen(ws[k].log) == None
    ensures Ok(ws[k])
    ensures var v := Step(ws[k], wrote, reported);
            if exists q :: 0 <= q < |ws[k].ports| && Candidate(ws[k].ports, q)
            then EarliestHead(ws[k].ports, p) && Writes(ws[k], v, p)
            else v.log == ws[k].log && v.ports == ws[k].ports
  {
    RunHold(ws, ops, k);
    p := StepWrites(ws[k], wrote, reported);
  }

  // ---------------------------------------------------------------- errors are final

  predicate SameWritten(a: seq<Entry>, b: seq<Entry>) {
    a <= b && forall i :: |a| <= i < |b| ==> b[i].Disabled?
  }

  lemma {:induction false} NothingAfterError(ws: seq<State>, ops: seq<Op>, j: nat, k: nat)
    requires IsRun(ws, ops) && j <= k < |ws| && ws[j].error
    ensures ws[k].error && SameWritten(ws[j].log, ws[k].log)
    decreases k
  {
    if k > j {
      NothingAfterError(ws, ops, j, k - 1);
    }
  }

  // ---------------------------------------------------------------- taking turns

  /** The port before p, cyclically. */
  function Before(p: nat, n: nat): nat
    requires p < n
  {
    if p == 0 then n - 1 else p - 1
  }

  /** All queued packets are equally early, unframed, and no frame is unfinished. */
  ghost predicate Level(w: State, time: int) {
    && Ok(w) && !w.error && w.portWritingFrame == 0
    && forall i :: 0 <= i < |w.ports| ==>
         && w.ports[i].enabled && !w.ports[i].framed
         && forall k :: 0 <= k < |w.ports[i].queue| ==> Timestamp(w.ports[i].queue[k]) == time
  }

  /** The scan ends with the port before the one used last, and of equals the last wins. */
  lemma LastVisitedWins(w: State, time: int)
    requires Level(w, time) && w.ports[Before(w.portLastUsed, |w.ports|)].queue != []
    ensures var p := Before(w.portLastUsed, |w.ports|);
            Chosen(w) == Some(p) && Step(w, true, true).portLastUsed == p
  {
    var n := |w.ports|;
    var p := Before(w.portLastUsed, n);
    ScanFindsEarliest(w.ports, w.portLastUsed, n);
    RoundOfRotated(w.portLastUsed, p, n);
    assert RoundOf(w.portLastUsed, p, n) == n - 1 && Candidate(w.ports, p);
    var best := Scan(w.ports, w.portLastUsed, n);
    RoundOfRotated(w.portLastUsed, best.value, n);
    assert HeadTime(w.ports, p) == time == HeadTime(w.ports, best.value);
    SameRound(w.portLastUsed, best.value, p, n);
  }

  lemma SameRound(start: nat, i: nat, j: nat, n: nat)
    requires start < n && i < n && j < n && RoundOf(start, i, n) >= RoundOf(start, j, n) == n - 1
    ensures i == j
  {
  }

  /** Whose turn it is after k turns: the ports go backwards from the one used last. */
  function Turn(last: nat, k: nat, n: nat): (r: nat)
    requires last < n && k < n
    ensures r < n
  {
    if last >= k + 1 then last - (k + 1) else last + n - (k + 1)
  }

  lemma TurnsDiffer(last: nat, j: nat, k: nat, n: nat)
    requires last < n && j < n && k < n && j != k
    ensures Turn(last, j, n) != Turn(last, k, n)
  {
  }

  /** In k turns one packet of each of k different ports has been written. */
  ghost predicate TurnsTaken(w: State, v: State, k: nat)
    requires Ok(w) && k <= |w.ports|
  {
    var n := |w.ports|;
    && |v.ports| == n && |v.log| == |w.log| + k && w.log <= v.log
    && v.portLastUsed == (if k == 0 then w.portLastUsed else Turn(w.portLastUsed, k - 1, n))
    && (forall j :: 0 <= j < k ==> WroteFirst(w, v.log[|w.log| + j], Turn(w.portLastUsed, j, n)))
    && forall j :: k <= j < n ==> v.ports[Turn(w.portLastUsed, j, n)] == w.ports[Turn(w.portLastUsed, j, n)]
  }

  predicate WroteFirst(w: State, e: Entry, p: nat) {
    p < |w.ports| && w.ports[p].queue != [] && e == Wrote(p, w.ports[p].queue[0], false)
  }

  lemma OneTurn(w: State, u: State, v: State, k: nat)
    requires Ok(w) && k < |w.ports| && TurnsTaken(w, u, k) && Ok(u)
    requires var p := Turn(w.portLastUsed, k, |w.ports|);
             && w.ports[p].queue != []
             && v.log == u.log + [Wrote(p, u.ports[p].queue[0], false)] && v.portLastUsed == p
             && |v.ports| == |u.ports| && forall i :: 0 <= i < |v.ports| && i != p ==> v.ports[i] == u.ports[i]
    ensures TurnsTaken(w, v, k + 1)
  {
    var n := |w.ports|;
    forall j | k + 1 <= j < n ensures v.ports[Turn(w.portLastUsed, j, n)] == w.ports[Turn(w.portLastUsed, j, n)] {
      TurnsDiffer(w.portLastUsed, j, k, n);
    }
  }

  /** Ports with equally early packets take turns: as many successive calls as there are ports write
      one packet of each. */
  lemma {:induction false} TakeTurns(w: State, time: int, k: nat)
    requires Level(w, time) && k <= |w.ports| && forall i :: 0 <= i < |w.ports| ==> w.ports[i].queue != []
    ensures Level(Steps(w, k), time) && TurnsTaken(w, Steps(w, k), k)
  {
    if k > 0 {
      TakeTurns(w, time, k - 1);
      var u, v := Steps(w, k - 1), Step(Steps(w, k - 1), true, true);
      var p := Turn(w.portLastUsed, k - 1, |w.ports|);
      assert p == Before(u.portLastUsed, |w.ports|);
      LastVisitedWins(u, time);
      ChosenIsWritten(u, p, true, true);
      TurnTaken(u, v, p, time);
      OneTurn(w, u, v, k - 1);
    }
  }

  lemma TurnTaken(u: State, v: State, p: nat, time: int)
    requires Level(u, time) && Writes(u, v, p) && !v.error
    ensures Level(v, time) && v.log == u.log + [Wrote(p, u.ports[p].queue[0], false)]
    ensures forall i :: 0 <= i < |v.ports| && i != p ==> v.ports[i] == u.ports[i]
  {
    forall i, k | 0 <= i < |v.ports| && 0 <= k < |v.ports[i].queue| ensures Timestamp(v.ports[i].queue[k]) == time {
      assert v.ports[i].queue[k] == u.ports[i].queue[if i == p then k + 1 else k];
    }
  }

  // ---------------------------------------------------------------- time-stamps and port operations

  /** A packet's time is its decoding time if known, else its presentation time; without either it
      is earlier than any packet that has one. */
  lemma TimeOfPacket(b: Buffer, c: Buffer)
    requires InRange(c.dts) && InRange(c.pts)
    ensures b.dts != TIME_UNKNOWN ==> Timestamp(b) == b.dts
    ensures b.dts == TIME_UNKNOWN ==> Timestamp(b) == b.pts
    ensures b.dts == TIME_UNKNOWN && b.pts == TIME_UNKNOWN && (c.dts != TIME_UNKNOWN || c.pts != TIME_UNKNOWN) ==> Timestamp(b) < Timestamp(c)
  {
  }

  /** Whole frames come out sorted by decoding time where all packets have one. */
  lemma MergeSortsByDecodingTime(w: State)
    requires MergeReady(w) && w.log == [] && WholeFrames(w)
    requires forall p, k :: 0 <= p < |w.ports| && 0 <= k < |w.ports[p].queue| ==> w.ports[p].queue[k].dts != TIME_UNKNOWN
    ensures var log := Steps(w, Queued(w.ports)).log;
            OnlyWrites(log) && forall i, j :: 0 <= i < j < |log| ==> log[i].buffer.dts <= log[j].buffer.dts
  {
    MergeSorts(w);
    StepsKeepKnown(w, Queued(w.ports));
    KnownTimes(Steps(w, Queued(w.ports)).log);
  }

  lemma KnownTimes(log: seq<Entry>)
    requires TimesSorted(log) && forall i :: 0 <= i < |log| && log[i].Wrote? ==> log[i].buffer.dts != TIME_UNKNOWN
    ensures forall i, j :: 0 <= i < j < |log| ==> log[i].buffer.dts <= log[j].buffer.dts
  {
    forall i, j | 0 <= i < j < |log| ensures log[i].buffer.dts <= log[j].buffer.dts {
      assert Timestamp(log[i].buffer) <= Timestamp(log[j].buffer);
    }
  }

  ghost predicate AllKnown(w: State) {
    && (forall p, k :: 0 <= p < |w.ports| && 0 <= k < |w.ports[p].queue| ==> w.ports[p].queue[k].dts != TIME_UNKNOWN)
    && forall i :: 0 <= i < |w.log| && w.log[i].Wrote? ==> w.log[i].buffer.dts != TIME_UNKNOWN
  }

  lemma {:induction false} StepsKeepKnown(w: State, n: nat)
    requires Ok(w) && AllKnown(w)
    ensures AllKnown(Steps(w, n))
  {
    if n > 0 {
      StepsKeepKnown(w, n - 1);
      var u := Steps(w, n - 1);
      var p := StepWrites(u, true, true);
      if !u.error && !NothingToWrite(u) {
        WriteKeepsKnown(u, Step(u, true, true), p);
      }
    }
  }

  lemma WriteKeepsKnown(w: State, v: State, p: nat)
    requires AllKnown(w) && Writes(w, v, p)
    ensures AllKnown(v)
  {
    forall i, k | 0 <= i < |v.ports| && 0 <= k < |v.ports[i].queue| ensures v.ports[i].queue[k].dts != TIME_UNKNOWN {
      assert v.ports[i].queue[k] == w.ports[i].queue[if i == p then k + 1 else k];
    }
  }

  /** The other operations concern one port each. */
  lemma PortOperations(w: State, p: nat, b: Buffer, framed: bool)
    requires Ok(w) && p < |w.ports|
    ensures forall op: Op :: Legal(w, op) && !op.Process? && op.port == p ==>
              var v := Apply(w, op);
              && |v.ports| == |w.ports| && (forall q :: 0 <= q < |w.ports| && q != p ==> v.ports[q] == w.ports[q])
              && v.portLastUsed == w.portLastUsed && v.portWritingFrame == w.portWritingFrame && v.error == w.error
              && v.log == if op.Disable? then w.log + [Disabled(p)] else w.log
    ensures Apply(w, Send(p, b)).ports[p] == w.ports[p].(queue := w.ports[p].queue + [b])
    ensures Apply(w, Flush(p)).ports[p] == w.ports[p].(queue := [])
    ensures Apply(w, Disable(p)).ports[p] == w.ports[p].(enabled := false, queue := [])
    ensures Apply(w, Enable(p)).ports[p] == w.ports[p].(enabled := true)
    ensures Apply(w, SetFormat(p, framed)).ports[p] == w.ports[p].(framed := framed)
  {
  }
}
