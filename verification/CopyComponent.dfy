/** The copy component: a pump from its input queue to its output queue that stops while the
    output port has to be reconfigured. */
module CopyComponent {
  import opened CInt

  type Format = nat

  datatype Command = Data | FormatChanged(format: Format) | OtherEvent

  datatype Metadata = Metadata(flags: nat, pts: int, dts: int, typ: nat)

  /** A buffer header with its payload area. */
  datatype Header = Header(id: nat, cmd: Command, data: seq<byte>, offset: nat, length: nat, meta: Metadata)

  predicate HeaderOk(h: Header) {
    h.offset + h.length <= |h.data|
  }

  function Slice(h: Header): seq<byte>
    requires HeaderOk(h)
  {
    h.data[h.offset..h.offset + h.length]
  }

  /** What happened to the buffers and to the output format, in order. */
  datatype Entry =
    | Copied(input: Header, before: Header, after: Header)   // input and output returned
    | Event(input: Header)                                   // an event, returned
    | Dropped(input: Header, output: Header)                 // lost: the output was too small
    | FlushedInput(headers: seq<Header>)
    | FlushedOutput(headers: seq<Header>)
    | Configuring(format: Format, size: nat)                 // needs_configuring set, by an event asking for these
    | Configured                                             // and cleared

  datatype State = State(
    inQueue: seq<Header>,
    outQueue: seq<Header>,
    needsConfiguring: bool,
    failed: bool,               // the component's status is not success
    inFormat: Format,
    outFormat: Format,
    outEnabled: bool,
    inSize: nat,                // the larger of the input port's two buffer sizes
    outSizeMin: nat,
    outSizeRecommended: nat,
    log: seq<Entry>)

  predicate Ok(s: State) {
    (forall i :: 0 <= i < |s.inQueue| ==> HeaderOk(s.inQueue[i])) && (forall i :: 0 <= i < |s.outQueue| ==> HeaderOk(s.outQueue[i]))
  }

  /** Commit the input format: does the output port have to follow? `eventReady`: an event
      buffer is available. The second result is whether it succeeded. */
  function CommitInput(s: State, eventReady: bool): (State, bool) {
    if s.inFormat == s.outFormat && s.outSizeMin == s.outSizeRecommended && s.outSizeMin == s.inSize then (s, true)
    else if !s.outEnabled then (s.(outFormat := s.inFormat, outSizeMin := s.inSize, outSizeRecommended := s.inSize), true)
    else if !eventReady then (s, false)
    else (s.(needsConfiguring := true, log := s.log + [Configuring(s.inFormat, s.inSize)]), true)
  }

  function CommitOutput(s: State, format: Format): State {
    if format != s.inFormat then s.(outFormat := format)
    else s.(outFormat := format, needsConfiguring := false, log := s.log + [Configured])
  }

  /** The output header after the copy. */
  function Filled(o: Header, i: Header): (r: Header)
    requires HeaderOk(i) && i.length <= |o.data|
    ensures HeaderOk(r)
  {
    o.(data := Slice(i) + o.data[i.length..], offset := 0, length := i.length, meta := i.meta)
  }

  /** An event from the input port, taken off its queue. */
  function TakeEvent(t: State, i: Header, copied: bool, eventReady: bool): State {
    var u := t.(log := t.log + [Event(i)]);
    if i.cmd.FormatChanged? then ChangeFormat(u, i.cmd.format, copied, eventReady) else u
  }

  function ChangeFormat(u: State, format: Format, copied: bool, eventReady: bool): State {
    if copied then
      var (v, ok) := CommitInput(u.(inFormat := format), eventReady);
      v.(failed := !ok)
    else u.(failed := true)
  }

  /** An input and an output, taken off their queues. */
  function Meet(t: State, i: Header, o: Header): (State, bool)
    requires HeaderOk(i)
  {
    if |o.data| < i.length then (t.(failed := true, log := t.log + [Dropped(i, o)]), false)
    else (t.(log := t.log + [Copied(i, o, Filled(o, i))]), true)
  }

  /** One call of the processing function, and whether it wants to be called again. `copied`:
      the format of a format event could be copied. */
  function Step(s: State, copied: bool, eventReady: bool): (r: (State, bool))
    requires Ok(s)
    ensures Ok(r.0)
    ensures r.1 ==> |r.0.inQueue| < |s.inQueue|
  {
    if s.needsConfiguring || s.inQueue == [] then (s, false)
    else
      var i := s.inQueue[0];
      var t := s.(inQueue := s.inQueue[1..]);
      if i.cmd != Data then (TakeEvent(t, i, copied, eventReady), true)
      else if s.failed || s.outQueue == [] then (s, false)
      else Meet(t.(outQueue := s.outQueue[1..]), i, s.outQueue[0])
  }

  /** What the environment answers during successive calls. */
  type Answers = nat -> (bool, bool)

  /** The processing loop. */
  function Loop(s: State, answers: Answers, k: nat): (r: State)
    requires Ok(s)
    ensures Ok(r)
    decreases |s.inQueue|
  {
    var (t, again) := Step(s, answers(k).0, answers(k).1);
    if again then Loop(t, answers, k + 1) else t
  }

  // ---------------------------------------------------------------- whole runs

  datatype Op =
    | SendInput(h: Header)
    | SendOutput(h: Header)
    | Process(copied: bool, eventReady: bool)
    | CommitInputFormat(format: Format, eventReady: bool)
    | CommitOutputFormat(format: Format)
    | EnableOutput(enabled: bool)
    | FlushInput
    | FlushOutput

  predicate OpOk(op: Op) {
    (op.SendInput? || op.SendOutput?) ==> HeaderOk(op.h)
  }

  function Apply(s: State, op: Op): (r: State)
    requires Ok(s) && OpOk(op)
    ensures Ok(r)
  {
    match op
    case SendInput(h) => s.(inQueue := s.inQueue + [h])
    case SendOutput(h) => s.(outQueue := s.outQueue + [h])
    case Process(copied, eventReady) => Step(s, copied, eventReady).0
    case CommitInputFormat(format, eventReady) => CommitInput(s.(inFormat := format), eventReady).0
    case CommitOutputFormat(format) => CommitOutput(s, format)
    case EnableOutput(enabled) => s.(outEnabled := enabled)
    case FlushInput => s.(inQueue := [], log := s.log + [FlushedInput(s.inQueue)])
    case FlushOutput => s.(outQueue := [], log := s.log + [FlushedOutput(s.outQueue)])
  }

  /** The input headers an entry accounts for, and the output headers. */
  function InputsOf(e: Entry): seq<Header> {
    match e
    case Copied(i, _, _) => [i]
    case Event(i) => [i]
    case Dropped(i, _) => [i]
    case FlushedInput(hs) => hs
    case _ => []
  }

  function OutputsOf(e: Entry): seq<Header> {
    match e
    case Copied(_, o, _) => [o]
    case Dropped(_, o) => [o]
    case FlushedOutput(hs) => hs
    case _ => []
  }

  function Inputs(log: seq<Entry>): seq<Header> {
    if log == [] then [] else Inputs(log[..|log| - 1]) + InputsOf(log[|log| - 1])
  }

  function Outputs(log: seq<Entry>): seq<Header> {
    if log == [] then [] else Outputs(log[..|log| - 1]) + OutputsOf(log[|log| - 1])
  }

  lemma LogAppend(log: seq<Entry>, e: Entry)
    ensures Inputs(log + [e]) == Inputs(log) + InputsOf(e)
    ensures Outputs(log + [e]) == Outputs(log) + OutputsOf(e)
  {
    assert (log + [e])[..|log|] == log;
  }

  /** Every buffer ever sent to a port: what the log accounts for, then what is queued. */
  function InputHistory(s: State): seq<Header> { Inputs(s.log) + s.inQueue }

  function OutputHistory(s: State): seq<Header> { Outputs(s.log) + s.outQueue }

  lemma Shift(a: seq<Header>, q: seq<Header>)
    requires q != []
    ensures (a + [q[0]]) + q[1..] == a + q
  {
  }

  /** Taking the first input and logging an entry that accounts for it. */
  lemma TakeInput(s: State, e: Entry)
    requires s.inQueue != [] && InputsOf(e) == [s.inQueue[0]] && OutputsOf(e) == []
    ensures Inputs(s.log + [e]) + s.inQueue[1..] == InputHistory(s) && Outputs(s.log + [e]) == Outputs(s.log)
  {
    LogAppend(s.log, e);
    Shift(Inputs(s.log), s.inQueue);
  }

  lemma TakeBoth(s: State, e: Entry)
    requires s.inQueue != [] && InputsOf(e) == [s.inQueue[0]] && s.outQueue != [] && OutputsOf(e) == [s.outQueue[0]]
    ensures Inputs(s.log + [e]) + s.inQueue[1..] == InputHistory(s) && Outputs(s.log + [e]) + s.outQueue[1..] == OutputHistory(s)
  {
    LogAppend(s.log, e);
    Shift(Inputs(s.log), s.inQueue);
    Shift(Outputs(s.log), s.outQueue);
  }

  lemma CommitKeepsHistory(s: State, eventReady: bool)
    ensures var t := CommitInput(s, eventReady).0;
            InputHistory(t) == InputHistory(s) && OutputHistory(t) == OutputHistory(s)
  {
    MarkKeepsHistory(s, Configuring(s.inFormat, s.inSize));
  }

  lemma StepKeepsHistory(s: State, copied: bool, eventReady: bool)
    requires Ok(s)
    ensures var t := Step(s, copied, eventReady).0;
            InputHistory(t) == InputHistory(s) && OutputHistory(t) == OutputHistory(s)
  {
    if !s.needsConfiguring && s.inQueue != [] {
      var i := s.inQueue[0];
      if i.cmd != Data {
        TakeInput(s, Event(i));
        if i.cmd.FormatChanged? {
          CommitKeepsHistory(s.(inQueue := s.inQueue[1..], log := s.log + [Event(i)], inFormat := i.cmd.format), eventReady);
        }
      } else if !s.failed && s.outQueue != [] {
        var o := s.outQueue[0];
        TakeBoth(s, if |o.data| < i.length then Dropped(i, o) else Copied(i, o, Filled(o, i)));
      }
    }
  }

  lemma MarkKeepsHistory(s: State, e: Entry)
    requires e.Configuring? || e == Configured
    ensures Inputs(s.log + [e]) == Inputs(s.log) && Outputs(s.log + [e]) == Outputs(s.log)
  {
    LogAppend(s.log, e);
    assert Inputs(s.log) + [] == Inputs(s.log) && Outputs(s.log) + [] == Outputs(s.log);
  }

  lemma FlushInputKeepsHistory(s: State)
    ensures Inputs(s.log + [FlushedInput(s.inQueue)]) + [] == InputHistory(s)
    ensures Outputs(s.log + [FlushedInput(s.inQueue)]) == Outputs(s.log)
  {
    LogAppend(s.log, FlushedInput(s.inQueue));
  }

  lemma FlushOutputKeepsHistory(s: State)
    ensures Outputs(s.log + [FlushedOutput(s.outQueue)]) + [] == OutputHistory(s)
    ensures Inputs(s.log + [FlushedOutput(s.outQueue)]) == Inputs(s.log)
  {
    LogAppend(s.log, FlushedOutput(s.outQueue));
  }

  lemma ApplyKeepsHistory(s: State, op: Op)
    requires Ok(s) && OpOk(op) && !op.SendInput? && !op.SendOutput?
    ensures InputHistory(Apply(s, op)) == InputHistory(s) && OutputHistory(Apply(s, op)) == OutputHistory(s)
  {
    match op
    case Process(copied, eventReady) => StepKeepsHistory(s, copied, eventReady);
    case FlushInput => FlushInputKeepsHistory(s);
    case FlushOutput => FlushOutputKeepsHistory(s);
    case CommitInputFormat(format, eventReady) => CommitKeepsHistory(s.(inFormat := format), eventReady);
    case CommitOutputFormat(_) => MarkKeepsHistory(s, Configured);
    case EnableOutput(_) =>
  }

  lemma Append(a: seq<Header>, q: seq<Header>, h: Header)
    ensures a + (q + [h]) == (a + q) + [h] && a + [] == a
  {
  }

  lemma ApplyExtendsHistory(s: State, op: Op)
    requires Ok(s) && OpOk(op)
    ensures InputHistory(Apply(s, op)) == InputHistory(s) + if op.SendInput? then [op.h] else []
    ensures OutputHistory(Apply(s, op)) == OutputHistory(s) + if op.SendOutput? then [op.h] else []
  {
    assert InputHistory(s) + [] == InputHistory(s) && OutputHistory(s) + [] == OutputHistory(s);
    if op.SendInput? {
      Append(Inputs(s.log), s.inQueue, op.h);
    } else if op.SendOutput? {
      Append(Outputs(s.log), s.outQueue, op.h);
    } else {
      ApplyKeepsHistory(s, op);
    }
  }

  /** The output port is waiting exactly since an unanswered Configuring. */
  function Waiting(log: seq<Entry>): bool {
    log != [] && (log[|log| - 1].Configuring? || (log[|log| - 1] != Configured && Waiting(log[..|log| - 1])))
  }

  /** Entries tell the truth: a copy put the input's bytes and metadata in the output, which was
      large enough; a drop found it too small; and no entry moved a buffer from the input to the
      output, or took an event, while the output port was waiting. */
  ghost predicate EntryOk(log: seq<Entry>, j: nat)
    requires j < |log|
  {
    match log[j]
    case Copied(i, o, r) =>
      && HeaderOk(i) && HeaderOk(r) && i.length <= |o.data|
      && i.cmd == Data && Slice(r) == Slice(i) && r.offset == 0 && r.meta == i.meta && r.id == o.id && |r.data| == |o.data|
      && !Waiting(log[..j])
    case Dropped(i, o) => i.cmd == Data && |o.data| < i.length && !Waiting(log[..j])
    case Event(i) => i.cmd != Data && !Waiting(log[..j])
    case _ => true
  }

  ghost predicate LogOk(log: seq<Entry>) {
    forall j :: 0 <= j < |log| ==> EntryOk(log, j)
  }

  ghost predicate Inv(s: State) {
    Ok(s) && LogOk(s.log) && s.needsConfiguring == Waiting(s.log)
  }

  lemma AppendKeepsLog(log: seq<Entry>, e: Entry)
    requires LogOk(log) && EntryOk(log + [e], |log|)
    ensures LogOk(log + [e])
    ensures Waiting(log + [e]) == (e.Configuring? || (e != Configured && Waiting(log)))
  {
    assert (log + [e])[..|log|] == log;
    forall j | 0 <= j < |log| ensures EntryOk(log + [e], j) {
      assert EntryOk(log, j);
      assert (log + [e])[..j] == log[..j];
    }
  }

  lemma CommitInputKeeps(s: State, eventReady: bool)
    requires Inv(s)
    ensures Inv(CommitInput(s, eventReady).0)
  {
    AppendKeepsLog(s.log, Configuring(s.inFormat, s.inSize));
  }

  lemma StepKeeps(s: State, copied: bool, eventReady: bool)
    requires Inv(s)
    ensures Inv(Step(s, copied, eventReady).0)
  {
    if !s.needsConfiguring && s.inQueue != [] {
      var i := s.inQueue[0];
      var t := s.(inQueue := s.inQueue[1..]);
      assert s.log == (s.log + [Event(i)])[..|s.log|];
      if i.cmd != Data {
        AppendKeepsLog(s.log, Event(i));
        var u := t.(log := t.log + [Event(i)]);
        if i.cmd.FormatChanged? { CommitInputKeeps(u.(inFormat := i.cmd.format), eventReady); }
      } else if !s.failed && s.outQueue != [] {
        var o := s.outQueue[0];
        if |o.data| < i.length {
          assert s.log == (s.log + [Dropped(i, o)])[..|s.log|];
          AppendKeepsLog(s.log, Dropped(i, o));
        } else {
          assert s.log == (s.log + [Copied(i, o, Filled(o, i))])[..|s.log|];
          AppendKeepsLog(s.log, Copied(i, o, Filled(o, i)));
        }
      }
    }
  }

  lemma ApplyKeeps(s: State, op: Op)
    requires Inv(s) && OpOk(op)
    ensures Inv(Apply(s, op))
  {
    match op
    case Process(copied, eventReady) => StepKeeps(s, copied, eventReady);
    case CommitInputFormat(format, eventReady) => CommitInputKeeps(s.(inFormat := format), eventReady);
    case CommitOutputFormat(_) => AppendKeepsLog(s.log, Configured);
    case FlushInput => AppendKeepsLog(s.log, FlushedInput(s.inQueue));
    case FlushOutput => AppendKeepsLog(s.log, FlushedOutput(s.outQueue));
    case _ =>
  }

  ghost predicate IsRun(ss: seq<State>, ops: seq<Op>) {
    && |ss| == |ops| + 1
    && ss[0].inQueue == [] && ss[0].outQueue == [] && ss[0].log == [] && !ss[0].needsConfiguring
    && (forall i :: 0 <= i < |ss| ==> Ok(ss[i]))
    && forall i :: 0 <= i < |ops| ==> OpOk(ops[i]) && ss[i + 1] == Apply(ss[i], ops[i])
  }

  function SentInputs(ops: seq<Op>): seq<Header> {
    if ops == [] then []
    else SentInputs(ops[..|ops| - 1]) + if ops[|ops| - 1].SendInput? then [ops[|ops| - 1].h] else []
  }

  function SentOutputs(ops: seq<Op>): seq<Header> {
    if ops == [] then []
    else SentOutputs(ops[..|ops| - 1]) + if ops[|ops| - 1].SendOutput? then [ops[|ops| - 1].h] else []
  }

  /** The copy is an order-preserving pump: in every run the inputs are accounted for in the
      order sent, and so are the outputs; each copy carries its input's bytes; and nothing
      crosses while the output port waits for its format to be committed. */
  lemma {:induction false} PumpsInOrder(ss: seq<State>, ops: seq<Op>, k: nat)
    requires IsRun(ss, ops) && k < |ss|
    ensures InputHistory(ss[k]) == SentInputs(ops[..k])
    ensures OutputHistory(ss[k]) == SentOutputs(ops[..k])
    ensures Inv(ss[k])
  {
    if k > 0 {
      PumpsInOrder(ss, ops, k - 1);
      ApplyExtendsHistory(ss[k - 1], ops[k - 1]);
      ApplyKeeps(ss[k - 1], ops[k - 1]);
      assert ops[..k][..k - 1] == ops[..k - 1];
    }
  }

  /** Nothing crosses between a format event that makes the output port wait and the commit that
      answers it. */
  lemma NothingCrosses(ss: seq<State>, ops: seq<Op>, k: nat, i: nat, j: nat)
    requires IsRun(ss, ops) && k < |ss|
    requires i < j < |ss[k].log| && ss[k].log[i].Configuring? && forall m :: i < m < j ==> ss[k].log[m] != Configured
    ensures !ss[k].log[j].Copied? && !ss[k].log[j].Dropped? && !ss[k].log[j].Event?
  {
    PumpsInOrder(ss, ops, k);
    StillWaiting(ss[k].log, i, j);
    assert EntryOk(ss[k].log, j);
  }

  lemma {:induction false} StillWaiting(log: seq<Entry>, i: nat, j: nat)
    requires i < j <= |log| && log[i].Configuring? && forall m :: i < m < j ==> log[m] != Configured
    ensures Waiting(log[..j])
    decreases j
  {
    assert log[..j][..j - 1] == log[..j - 1];
    if j > i + 1 { StillWaiting(log, i, j - 1); }
  }

  /** The entries in which an input met an output. */
  function Meetings(log: seq<Entry>): seq<Entry> {
    if log == [] then []
    else
      var e := log[|log| - 1];
      Meetings(log[..|log| - 1]) + if e.Copied? || e.Dropped? then [e] else []
  }

  function DataOnly(q: seq<Header>): seq<Header> {
    if q == [] then [] else DataOnly(q[..|q| - 1]) + if q[|q| - 1].cmd == Data then [q[|q| - 1]] else []
  }

  lemma {:induction false} DataOnlyAppend(a: seq<Header>, b: seq<Header>)
    ensures DataOnly(a + b) == DataOnly(a) + DataOnly(b)
  {
    if b == [] {
      assert a + b == a;
    } else {
      assert (a + b)[..|a + b| - 1] == a + b[..|b| - 1];
      DataOnlyAppend(a, b[..|b| - 1]);
    }
  }

  ghost predicate Unflushed(log: seq<Entry>) {
    forall j :: 0 <= j < |log| ==> !log[j].FlushedInput? && !log[j].FlushedOutput?
  }

  /** In a log the meetings are between the data inputs and the outputs, each in order; one that
      met an output too small is lost with it, and no other. */
  ghost predicate MetInOrder(log: seq<Entry>, inputs: seq<Header>, outputs: seq<Header>) {
    var ms := Meetings(log);
    && |ms| == |inputs| == |outputs|
    && forall j :: 0 <= j < |ms| ==>
         && (ms[j].Copied? || ms[j].Dropped?)
         && InputsOf(ms[j]) == [inputs[j]] && OutputsOf(ms[j]) == [outputs[j]]
         && (ms[j].Dropped? <==> |outputs[j].data| < inputs[j].length)
         && (ms[j].Copied? ==> HeaderOk(inputs[j]) && HeaderOk(ms[j].after) && Slice(ms[j].after) == Slice(inputs[j]))
  }

  lemma {:induction false} LogMeets(log: seq<Entry>)
    requires LogOk(log) && Unflushed(log)
    ensures MetInOrder(log, DataOnly(Inputs(log)), Outputs(log))
  {
    if log != [] {
      var prefix, e := log[..|log| - 1], log[|log| - 1];
      forall j | 0 <= j < |prefix| ensures EntryOk(prefix, j) && prefix[j] == log[j] {
        assert EntryOk(log, j) && prefix[..j] == log[..j];
      }
      LogMeets(prefix);
      DataOnlyAppend(Inputs(prefix), InputsOf(e));
      assert EntryOk(log, |log| - 1);
      MeetsOne(log, prefix, e);
    }
  }

  lemma MeetsOne(log: seq<Entry>, prefix: seq<Entry>, e: Entry)
    requires log == prefix + [e] && MetInOrder(prefix, DataOnly(Inputs(prefix)), Outputs(prefix))
    requires EntryOk(log, |prefix|) && !e.FlushedInput? && !e.FlushedOutput?
    requires DataOnly(Inputs(prefix) + InputsOf(e)) == DataOnly(Inputs(prefix)) + DataOnly(InputsOf(e))
    ensures MetInOrder(log, DataOnly(Inputs(log)), Outputs(log))
  {
    LogAppend(prefix, e);
    assert log[..|prefix|] == prefix;
    if e.Copied? || e.Dropped? {
      DataOne(e.input);
      MetOneMore(log, prefix, e, DataOnly(Inputs(prefix)), Outputs(prefix), e.input, OutputsOf(e)[0]);
    } else {
      assert DataOnly(InputsOf(e)) == [] by { if e.Event? { DataOne(e.input); } }
      assert DataOnly(Inputs(log)) == DataOnly(Inputs(prefix)) && Outputs(log) == Outputs(prefix);
    }
  }

  lemma DataOne(h: Header)
    ensures DataOnly([h]) == if h.cmd == Data then [h] else []
  {
    assert [h][..0] == [];
  }

  lemma MetOneMore(log: seq<Entry>, prefix: seq<Entry>, e: Entry, inputs: seq<Header>, outputs: seq<Header>, i: Header, o: Header)
    requires MetInOrder(prefix, inputs, outputs) && Meetings(log) == Meetings(prefix) + [e]
    requires e.Copied? || e.Dropped?
    requires InputsOf(e) == [i] && OutputsOf(e) == [o] && (e.Dropped? <==> |o.data| < i.length)
    requires e.Copied? ==> HeaderOk(i) && HeaderOk(e.after) && Slice(e.after) == Slice(i)
    ensures MetInOrder(log, inputs + [i], outputs + [o])
  {
  }

  /** Which buffers are lost: in every run without flushes the k-th data input meets the k-th
      output; both are lost exactly if that output is too small for that input, else the output
      gets the input's bytes. So nothing is lost exactly if every output that meets an input
      can hold it. */
  lemma LosesExactlyWhen(ss: seq<State>, ops: seq<Op>, k: nat)
    requires IsRun(ss, ops) && k < |ss| && Unflushed(ss[k].log)
    ensures var n, inputs, outputs := |Meetings(ss[k].log)|, DataOnly(SentInputs(ops[..k])), SentOutputs(ops[..k]);
            && n <= |inputs| && n <= |outputs| && MetInOrder(ss[k].log, inputs[..n], outputs[..n])
            && ((exists j :: 0 <= j < n && Meetings(ss[k].log)[j].Dropped?) <==>
                (exists j :: 0 <= j < n && |outputs[j].data| < inputs[j].length))
  {
    PumpsInOrder(ss, ops, k);
    var s := ss[k];
    LogMeets(s.log);
    DataOnlyAppend(Inputs(s.log), s.inQueue);
    MeetingsInSent(s, DataOnly(SentInputs(ops[..k])), SentOutputs(ops[..k]));
  }

  lemma MeetingsInSent(s: State, inputs: seq<Header>, outputs: seq<Header>)
    requires MetInOrder(s.log, DataOnly(Inputs(s.log)), Outputs(s.log))
    requires inputs == DataOnly(Inputs(s.log)) + DataOnly(s.inQueue) && outputs == Outputs(s.log) + s.outQueue
    ensures var n := |Meetings(s.log)|;
            && n <= |inputs| && n <= |outputs| && MetInOrder(s.log, inputs[..n], outputs[..n])
            && ((exists j :: 0 <= j < n && Meetings(s.log)[j].Dropped?) <==>
                (exists j :: 0 <= j < n && |outputs[j].data| < inputs[j].length))
  {
    var n := |Meetings(s.log)|;
    assert inputs[..n] == DataOnly(Inputs(s.log)) && outputs[..n] == Outputs(s.log);
    assert forall j :: 0 <= j < n ==> inputs[..n][j] == inputs[j] && outputs[..n][j] == outputs[j];
  }

  datatype Side = InPort | OutPort

  function OnSide(side: Side, hs: seq<Header>): (r: seq<(Side, Header)>)
    ensures |r| == |hs|
  {
    seq(|hs|, i requires 0 <= i < |hs| => (side, hs[i]))
  }

  /** What an entry means for the clients: the headers given back, with their ports, and the error
      events. */
  function ReturnsOf(e: Entry): seq<(Side, Header)> {
    match e
    case Copied(i, _, r) => [(InPort, i.(length := 0)), (OutPort, r)]
    case Event(i) => [(InPort, i.(length := 0))]
    case FlushedInput(hs) => OnSide(InPort, hs)
    case FlushedOutput(hs) => OnSide(OutPort, hs)
    case _ => []
  }

  function ErrorsOf(e: Entry, failed: bool): nat {
    if failed && (e.Dropped? || (e.Event? && e.input.cmd.FormatChanged?)) then 1 else 0
  }

  // ---------------------------------------------------------------- the component in place

  class Component {
    var inQueue: seq<Header>
    var outQueue: seq<Header>
    var needsConfiguring: bool
    var failed: bool
    var inFormat: Format
    var outFormat: Format
    var outEnabled: bool
    var inSize: nat
    var outSizeMin: nat
    var outSizeRecommended: nat
    ghost var log: seq<Entry>
    ghost var returned: seq<(Side, Header)>   // headers given back to the clients, as they then are
    ghost var errors: nat             // error events sent, or that could not be sent

    ghost function View(): State
      reads this
    {
      State(inQueue, outQueue, needsConfiguring, failed, inFormat, outFormat, outEnabled, inSize, outSizeMin, outSizeRecommended, log)
    }

    constructor (format: Format, size: nat)
      ensures View() == State([], [], false, false, format, format, false, size, size, size, [])
    {
      inQueue, outQueue, needsConfiguring, failed := [], [], false, false;
      inFormat, outFormat, outEnabled := format, format, false;
      inSize, outSizeMin, outSizeRecommended := size, size, size;
      log, returned, errors := [], [], 0;
    }

    /** What a call has given back and reported, going by the first entry it added to the log. */
    ghost predicate Told(before: seq<Entry>, returnedBefore: seq<(Side, Header)>, errorsBefore: nat)
      reads this
    {
      && before <= log
      && (if log == before then returned == returnedBefore && errors == errorsBefore
          else returned == returnedBefore + ReturnsOf(log[|before|]) && errors == errorsBefore + ErrorsOf(log[|before|], failed))
    }

    method DoProcessing(copied: bool, eventReady: bool) returns (again: bool)
      requires Ok(View())
      modifies this
      ensures (View(), again) == Step(old(View()), copied, eventReady)
      ensures returned == old(returned) + if old(log) < log then ReturnsOf(log[|old(log)|]) else []
      ensures errors == old(errors) +
                if log != old(log) && failed && old(inQueue) != [] && old(inQueue)[0].cmd != OtherEvent then 1 else 0
    {
      if needsConfiguring || inQueue == [] { return false; }
      var input := inQueue[0];
      inQueue := inQueue[1..];
      if input.cmd != Data {
        HandleEvent(input, copied, eventReady);
        return true;
      }
      if failed || outQueue == [] {
        inQueue := [input] + inQueue;
        assert inQueue == old(inQueue);
        return false;
      }
      var output := outQueue[0];
      outQueue := outQueue[1..];
      again := CopyBuffer(input, output);
    }

    method HandleEvent(input: Header, copied: bool, eventReady: bool)
      requires input.cmd != Data
      modifies this
      ensures View() == TakeEvent(old(View()), input, copied, eventReady)
      ensures Told(old(log), old(returned), old(errors))
    {
      log := log + [Event(input)];
      if input.cmd.FormatChanged? {
        SetInputFormat(input.cmd.format, copied, eventReady);
        if failed { errors := errors + 1; }
      }
      returned := returned + [(InPort, input.(length := 0))];
    }

    method SetInputFormat(format: Format, copied: bool, eventReady: bool)
      modifies this`failed, this`inFormat, this`outSizeMin, this`outSizeRecommended, this`outFormat, this`needsConfiguring, this`log
      ensures View() == ChangeFormat(old(View()), format, copied, eventReady)
      ensures old(log) <= log
    {
      failed := !copied;
      if !failed {
        inFormat := format;
        var ok := CommitInputFormat(eventReady);
        failed := !ok;
      }
    }

    method CopyBuffer(input: Header, output: Header) returns (again: bool)
      requires HeaderOk(input)
      modifies this
      ensures (View(), again) == Meet(old(View()), input, output)
      ensures Told(old(log), old(returned), old(errors))
    {
      if |output.data| < input.length {
        failed := true;
        errors := errors + 1;
        log := log + [Dropped(input, output)];
        return false;
      }
      var filled := output.(data := input.data[input.offset..input.offset + input.length] + output.data[input.length..]);
      filled := filled.(length := input.length, offset := 0, meta := input.meta);
      log := log + [Copied(input, output, filled)];
      returned := returned + [(InPort, input.(length := 0)), (OutPort, filled)];
      return true;
    }

    method CommitInputFormat(eventReady: bool) returns (ok: bool)
      modifies this`outSizeMin, this`outSizeRecommended, this`outFormat, this`needsConfiguring, this`log
      ensures (View(), ok) == CommitInput(old(View()), eventReady)
    {
      if inFormat == outFormat && outSizeMin == outSizeRecommended && outSizeMin == inSize {
        return true;
      }
      if !outEnabled {
        outSizeMin, outSizeRecommended := inSize, inSize;
        outFormat := inFormat;
        return true;
      }
      if !eventReady { return false; }
      needsConfiguring := true;
      log := log + [Configuring(inFormat, inSize)];
      return true;
    }

    method CommitOutputFormat(format: Format) returns (ok: bool)
      modifies this
      ensures View() == CommitOutput(old(View()), format)
      ensures ok <==> format == inFormat
    {
      outFormat := format;
      if outFormat != inFormat { return false; }
      needsConfiguring := false;
      log := log + [Configured];
      return true;
    }

    /** Keep processing until nothing more can be done; it ends because every round that asks
        for another has taken a buffer from the input queue. */
    method ProcessingLoop(answers: Answers)
      requires Ok(View())
      modifies this
      ensures Ok(View()) && View() == Loop(old(View()), answers, 0)
    {
      var k := 0;
      var again := true;
      while again
        invariant Ok(View()) && k >= 0
        invariant (if again then Loop(View(), answers, k) else View()) == Loop(old(View()), answers, 0)
        decreases again, |inQueue|
      {
        again := DoProcessing(answers(k).0, answers(k).1);
        k := k + 1;
      }
    }

    method SendBuffer(side: Side, h: Header)
      modifies this`inQueue, this`outQueue
      ensures side == InPort ==> inQueue == old(inQueue) + [h] && outQueue == old(outQueue)
      ensures side == OutPort ==> outQueue == old(outQueue) + [h] && inQueue == old(inQueue)
    {
      if side == InPort { inQueue := inQueue + [h]; } else { outQueue := outQueue + [h]; }
    }

    /** Give back, in order and as it is, everything queued on a port. */
    method FlushPort(side: Side)
      requires Ok(View())
      modifies this`inQueue, this`outQueue, this`returned, this`log
      ensures View() == Apply(old(View()), if side == InPort then FlushInput else FlushOutput)
      ensures returned == old(returned) + OnSide(side, if side == InPort then old(inQueue) else old(outQueue))
    {
      if side == InPort {
        GiveBack(InPort, inQueue);
        log := log + [FlushedInput(inQueue)];
        inQueue := [];
      } else {
        GiveBack(OutPort, outQueue);
        log := log + [FlushedOutput(outQueue)];
        outQueue := [];
      }
    }

    method GiveBack(side: Side, hs: seq<Header>)
      modifies this`returned
      ensures returned == old(returned) + OnSide(side, hs)
    {
      for i := 0 to |hs|
        invariant returned == old(returned) + OnSide(side, hs)[..i]
      {
        returned := returned + [(side, hs[i])];
      }
    }
  }
}
