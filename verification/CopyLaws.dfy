/** What the copy component is for: it copies whatever it can, it stops only for a reason, and its
    output port follows the input format. */
module CopyLaws {
  import opened CInt
  import opened Sequences
  import opened CopyComponent

  /** The output port has the input port's format and buffer size. */
  predicate Agrees(s: State) {
    s.outFormat == s.inFormat && s.outSizeMin == s.inSize && s.outSizeRecommended == s.inSize
  }

  /** When the output port must follow, and how: not if it agrees; at once while it is disabled; else
      by an event asking for the input's format and size, after which it waits; and if there is no
      buffer for the event the commit fails and changes nothing. */
  lemma OutputFollows(s: State, eventReady: bool)
    ensures var (t, ok) := CommitInput(s, eventReady);
            && (ok <==> Agrees(s) || !s.outEnabled || eventReady)
            && (Agrees(s) || !ok ==> t == s)
            && (!Agrees(s) && !s.outEnabled ==>
                  Agrees(t) && t == s.(outFormat := t.outFormat, outSizeMin := t.outSizeMin, outSizeRecommended := t.outSizeRecommended))
            && (!Agrees(s) && s.outEnabled && ok ==>
                  t.needsConfiguring && t.log == s.log + [Configuring(s.inFormat, s.inSize)]
                  && t == s.(needsConfiguring := true, log := t.log))
  {
  }

  /** A commit on the output port ends the waiting exactly if it is for the input's format. */
  lemma OutputCommits(s: State, format: Format)
    ensures var t := CommitOutput(s, format);
            && t.outFormat == format
            && (format == s.inFormat ==> !t.needsConfiguring && t.log == s.log + [Configured])
            && (format != s.inFormat ==> t.needsConfiguring == s.needsConfiguring && t.log == s.log)
            && t == s.(outFormat := t.outFormat, needsConfiguring := t.needsConfiguring, log := t.log)
  {
  }

  /** Data that cannot go on, for want of an output or after an error. */
  predicate Stuck(s: State) {
    s.inQueue != [] && s.inQueue[0].cmd == Data && (s.failed || s.outQueue == [])
  }

  predicate CanCopy(s: State) {
    && !s.needsConfiguring && s.inQueue != [] && s.inQueue[0].cmd == Data && !s.failed && s.outQueue != []
    && s.inQueue[0].length <= |s.outQueue[0].data|
  }

  /** Input i has been copied to output o, which then is r. */
  predicate IsCopy(i: Header, o: Header, r: Header)
    requires HeaderOk(i)
  {
    && HeaderOk(r) && Slice(r) == Slice(i) && r.offset == 0 && r.meta == i.meta
    && r.id == o.id && r.cmd == o.cmd && |r.data| == |o.data|
    && forall k :: i.length <= k < |o.data| ==> r.data[k] == o.data[k]
  }

  /** The cases of a call. Whenever it can copy, it does. */
  lemma StepCopies(s: State, copied: bool, eventReady: bool)
    requires Ok(s) && CanCopy(s)
    ensures var (t, again) := Step(s, copied, eventReady);
            && again && t.inQueue == s.inQueue[1..] && t.outQueue == s.outQueue[1..]
            && |t.log| == |s.log| + 1 && s.log <= t.log
            && t.log[|s.log|].Copied? && t.log[|s.log|].input == s.inQueue[0] && t.log[|s.log|].before == s.outQueue[0]
            && IsCopy(s.inQueue[0], s.outQueue[0], t.log[|s.log|].after)
            && t == s.(inQueue := t.inQueue, outQueue := t.outQueue, log := t.log)
  {
  }

  /** An output too small for the input takes both away and leaves the component in error. */
  lemma StepDrops(s: State, copied: bool, eventReady: bool)
    requires Ok(s) && !s.needsConfiguring && s.inQueue != [] && s.inQueue[0].cmd == Data && !s.failed && s.outQueue != []
    requires |s.outQueue[0].data| < s.inQueue[0].length
    ensures var (t, again) := Step(s, copied, eventReady);
            && !again && t.failed && t.inQueue == s.inQueue[1..] && t.outQueue == s.outQueue[1..]
            && t.log == s.log + [Dropped(s.inQueue[0], s.outQueue[0])]
            && t == s.(inQueue := t.inQueue, outQueue := t.outQueue, failed := true, log := t.log)
  {
  }

  /** It does nothing exactly if it waits, has no input, or its first input is stuck. */
  lemma StepIdles(s: State, copied: bool, eventReady: bool)
    requires Ok(s)
    ensures Step(s, copied, eventReady) == (s, false) <==> s.needsConfiguring || s.inQueue == [] || Stuck(s)
  {
  }

  /** An event is taken and answered; only a change of format changes anything, and the component is
      in error afterwards exactly if that could not be carried out. */
  lemma StepTakesEvent(s: State, copied: bool, eventReady: bool)
    requires Ok(s) && !s.needsConfiguring && s.inQueue != [] && s.inQueue[0].cmd != Data
    ensures var (t, again) := Step(s, copied, eventReady);
            var i := s.inQueue[0];
            && again && t.inQueue == s.inQueue[1..] && t.outQueue == s.outQueue
            && s.log + [Event(i)] <= t.log
            && (i.cmd == OtherEvent ==> t == s.(inQueue := t.inQueue, log := s.log + [Event(i)]))
            && (i.cmd.FormatChanged? ==>
                  && t.inFormat == (if copied then i.cmd.format else s.inFormat)
                  && (t.failed <==> !copied || !(Agrees(s.(inFormat := i.cmd.format)) || !s.outEnabled || eventReady))
                  && (!t.failed ==> Agrees(t) || t.needsConfiguring)
                  && (t.needsConfiguring ==> t.log == s.log + [Event(i), Configuring(i.cmd.format, s.inSize)])
                  && (!t.needsConfiguring ==> t.log == s.log + [Event(i)]))
  {
    if s.inQueue[0].cmd.FormatChanged? {
      OutputFollows(s.(inQueue := s.inQueue[1..], log := s.log + [Event(s.inQueue[0])], inFormat := s.inQueue[0].cmd.format), eventReady);
    }
  }

  // ---------------------------------------------------------------- the loop

  predicate Halted(s: State) {
    s.needsConfiguring || s.inQueue == [] || Stuck(s) || (s.log != [] && s.log[|s.log| - 1].Dropped?)
  }

  /** The loop stops only for a reason: the output port waits, the input queue is empty, its head
      is data that cannot go on, or buffers were lost. */
  lemma {:induction false} LoopProgresses(s: State, answers: Answers, k: nat)
    requires Ok(s)
    ensures Halted(Loop(s, answers, k))
    decreases |s.inQueue|
  {
    var (t, again) := Step(s, answers(k).0, answers(k).1);
    if again {
      LoopProgresses(t, answers, k + 1);
    } else {
      StepIdles(s, answers(k).0, answers(k).1);
    }
  }

  /** Only data, every output large enough for the input it meets, and nothing in the way. */
  ghost predicate Flowing(s: State) {
    && Ok(s) && !s.needsConfiguring && !s.failed
    && (forall j :: 0 <= j < |s.inQueue| ==> s.inQueue[j].cmd == Data)
    && forall j :: 0 <= j < |s.inQueue| && j < |s.outQueue| ==> s.inQueue[j].length <= |s.outQueue[j].data|
  }

  ghost predicate CopiedAll(s: State, t: State, n: nat)
    requires Ok(s) && n <= |s.inQueue| && n <= |s.outQueue|
  {
    && t.inQueue == s.inQueue[n..] && t.outQueue == s.outQueue[n..] && |t.log| == |s.log| + n && s.log <= t.log
    && forall j :: 0 <= j < n ==> CopiedAt(t.log[|s.log| + j], s.inQueue[j], s.outQueue[j])
  }

  predicate CopiedAt(e: Entry, i: Header, o: Header)
    requires HeaderOk(i)
  {
    e.Copied? && e.input == i && e.before == o && IsCopy(i, o, e.after)
  }

  lemma CopiedFirst(s: State, t: State, u: State, n: nat)
    requires Ok(s) && CanCopy(s) && t.inQueue == s.inQueue[1..] && t.outQueue == s.outQueue[1..] && Ok(t)
    requires |t.log| == |s.log| + 1 && s.log <= t.log && CopiedAt(t.log[|s.log|], s.inQueue[0], s.outQueue[0])
    requires n <= |t.inQueue| && n <= |t.outQueue| && CopiedAll(t, u, n)
    ensures CopiedAll(s, u, n + 1)
  {
    forall j | 0 <= j < n + 1 ensures CopiedAt(u.log[|s.log| + j], s.inQueue[j], s.outQueue[j]) {
      if j > 0 {
        assert CopiedAt(u.log[|t.log| + (j - 1)], t.inQueue[j - 1], t.outQueue[j - 1]);
      }
    }
  }

  /** The pump: with n data inputs and m outputs that can hold them, the loop copies the k-th input
      to the k-th output for each of the first min(n, m), and so leaves one queue empty. */
  lemma {:induction false} LoopCopies(s: State, answers: Answers, k: nat)
    requires Flowing(s)
    ensures CopiedAll(s, Loop(s, answers, k), Min(|s.inQueue|, |s.outQueue|))
    decreases |s.inQueue|
  {
    if s.inQueue == [] || s.outQueue == [] {
      StepIdles(s, answers(k).0, answers(k).1);
      assert s.inQueue[0..] == s.inQueue && s.outQueue[0..] == s.outQueue;
    } else {
      StepCopies(s, answers(k).0, answers(k).1);
      var t := Step(s, answers(k).0, answers(k).1).0;
      LoopCopies(t, answers, k + 1);
      CopiedFirst(s, t, Loop(t, answers, k + 1), Min(|t.inQueue|, |t.outQueue|));
    }
  }

  // ---------------------------------------------------------------- the other operations

  /** Buffers queue up in the order sent, and enabling the output port is remembered. */
  lemma PortOperations(s: State, h: Header, enabled: bool, format: Format, eventReady: bool)
    requires Ok(s) && HeaderOk(h)
    ensures var t := Apply(s, SendInput(h)); t.inQueue == s.inQueue + [h] && t == s.(inQueue := t.inQueue)
    ensures var t := Apply(s, SendOutput(h)); t.outQueue == s.outQueue + [h] && t == s.(outQueue := t.outQueue)
    ensures var t := Apply(s, EnableOutput(enabled)); t.outEnabled == enabled && t == s.(outEnabled := enabled)
    ensures Apply(s, CommitInputFormat(format, eventReady)).inFormat == format
    ensures Agrees(s.(inFormat := format)) ==> Apply(s, CommitInputFormat(format, eventReady)) == s.(inFormat := format)
  {
  }

  /** A flush returns everything queued on its port, and touches nothing else. */
  lemma FlushEmpties(s: State)
    requires Ok(s)
    ensures var t := Apply(s, FlushInput);
            t.inQueue == [] && t.log == s.log + [FlushedInput(s.inQueue)] && t == s.(inQueue := [], log := t.log)
    ensures var t := Apply(s, FlushOutput);
            t.outQueue == [] && t.log == s.log + [FlushedOutput(s.outQueue)] && t == s.(outQueue := [], log := t.log)
  {
  }

  // ---------------------------------------------------------------- every buffer comes back

  /** Which buffers, with their ports. */
  ghost function Tags(rs: seq<(Side, Header)>): multiset<(Side, nat)> {
    multiset(seq(|rs|, i requires 0 <= i < |rs| => (rs[i].0, rs[i].1.id)))
  }

  lemma TagsAppend(a: seq<(Side, Header)>, b: seq<(Side, Header)>)
    ensures Tags(a + b) == Tags(a) + Tags(b)
  {
    assert seq(|a + b|, i requires 0 <= i < |a + b| => ((a + b)[i].0, (a + b)[i].1.id))
        == seq(|a|, i requires 0 <= i < |a| => (a[i].0, a[i].1.id)) + seq(|b|, i requires 0 <= i < |b| => (b[i].0, b[i].1.id));
  }

  lemma SideAppend(side: Side, a: seq<Header>, b: seq<Header>)
    ensures OnSide(side, a + b) == OnSide(side, a) + OnSide(side, b)
    ensures Tags(OnSide(side, a + b)) == Tags(OnSide(side, a)) + Tags(OnSide(side, b))
  {
    TagsAppend(OnSide(side, a), OnSide(side, b));
  }

  /** Everything given back in the course of a log, and the buffers it has lost. */
  function Returned(log: seq<Entry>): seq<(Side, Header)> {
    if log == [] then [] else Returned(log[..|log| - 1]) + ReturnsOf(log[|log| - 1])
  }

  function Lost(log: seq<Entry>): seq<(Side, Header)> {
    if log == [] then []
    else
      var e := log[|log| - 1];
      Lost(log[..|log| - 1]) + LostIn(e)
  }

  function LostIn(e: Entry): seq<(Side, Header)> {
    if e.Dropped? then [(InPort, e.input), (OutPort, e.output)] else []
  }

  lemma TagsOne(side: Side, h: Header)
    ensures Tags([(side, h)]) == multiset{(side, h.id)} && OnSide(side, [h]) == [(side, h)]
  {
    assert seq(1, i requires 0 <= i < 1 => ([(side, h)][i].0, [(side, h)][i].1.id)) == [(side, h.id)];
  }

  lemma TagsTwo(s1: Side, h1: Header, s2: Side, h2: Header)
    ensures Tags([(s1, h1), (s2, h2)]) == multiset{(s1, h1.id)} + multiset{(s2, h2.id)}
  {
    TagsOne(s1, h1);
    TagsOne(s2, h2);
    TagsAppend([(s1, h1)], [(s2, h2)]);
    assert [(s1, h1)] + [(s2, h2)] == [(s1, h1), (s2, h2)];
  }

  lemma TagsNone()
    ensures Tags([]) == multiset{} && OnSide(InPort, []) == [] && OnSide(OutPort, []) == []
  {
  }

  /** The buffers an entry accounts for are returned or lost, on the ports they came from. */
  lemma EntryReturns(e: Entry)
    requires e.Copied? ==> e.after.id == e.before.id
    ensures Tags(ReturnsOf(e)) + Tags(LostIn(e)) == Tags(OnSide(InPort, InputsOf(e))) + Tags(OnSide(OutPort, OutputsOf(e)))
  {
    TagsNone();
    match e
    case Copied(i, o, r) =>
      TagsTwo(InPort, i.(length := 0), OutPort, r);
      TagsOne(InPort, i);
      TagsOne(OutPort, o);
    case Event(i) =>
      TagsOne(InPort, i.(length := 0));
      TagsOne(InPort, i);
    case Dropped(i, o) =>
      TagsTwo(InPort, i, OutPort, o);
      TagsOne(InPort, i);
      TagsOne(OutPort, o);
    case _ =>
  }

  /** Inputs that were copied, or were events, go back empty; outputs as the copy left them. */
  lemma ReturnedHeaders(e: Entry)
    ensures e.Copied? || e.Event? ==> ReturnsOf(e) != [] && ReturnsOf(e)[0] == (InPort, e.input.(length := 0))
    ensures e.Copied? ==> |ReturnsOf(e)| == 2 && ReturnsOf(e)[1] == (OutPort, e.after)
    ensures e.FlushedInput? || e.FlushedOutput? ==>
              |ReturnsOf(e)| == |e.headers| && forall j :: 0 <= j < |e.headers| ==> ReturnsOf(e)[j].1 == e.headers[j]
  {
  }

  lemma LogReturnsStep(prefix: seq<Entry>, e: Entry, r: multiset<(Side, nat)>, l: multiset<(Side, nat)>, i: multiset<(Side, nat)>, o: multiset<(Side, nat)>)
    requires r == Tags(Returned(prefix)) && l == Tags(Lost(prefix))
    requires i == Tags(OnSide(InPort, Inputs(prefix))) && o == Tags(OnSide(OutPort, Outputs(prefix)))
    ensures Tags(Returned(prefix + [e])) == r + Tags(ReturnsOf(e)) && Tags(Lost(prefix + [e])) == l + Tags(LostIn(e))
    ensures Tags(OnSide(InPort, Inputs(prefix + [e]))) == i + Tags(OnSide(InPort, InputsOf(e)))
    ensures Tags(OnSide(OutPort, Outputs(prefix + [e]))) == o + Tags(OnSide(OutPort, OutputsOf(e)))
  {
    assert (prefix + [e])[..|prefix|] == prefix;
    TagsAppend(Returned(prefix), ReturnsOf(e));
    TagsAppend(Lost(prefix), LostIn(e));
    SideAppend(InPort, Inputs(prefix), InputsOf(e));
    SideAppend(OutPort, Outputs(prefix), OutputsOf(e));
  }

  ghost predicate Balanced(log: seq<Entry>) {
    Tags(Returned(log)) + Tags(Lost(log)) == Tags(OnSide(InPort, Inputs(log))) + Tags(OnSide(OutPort, Outputs(log)))
  }

  lemma BalanceStep(prefix: seq<Entry>, e: Entry)
    requires Balanced(prefix) && (e.Copied? ==> e.after.id == e.before.id)
    ensures Balanced(prefix + [e])
  {
    EntryReturns(e);
    var r, l := Tags(Returned(prefix)), Tags(Lost(prefix));
    var i, o := Tags(OnSide(InPort, Inputs(prefix))), Tags(OnSide(OutPort, Outputs(prefix)));
    LogReturnsStep(prefix, e, r, l, i, o);
    AddSums(r, l, i, o, Tags(ReturnsOf(e)), Tags(LostIn(e)), Tags(OnSide(InPort, InputsOf(e))), Tags(OnSide(OutPort, OutputsOf(e))));
  }

  lemma {:induction false} LogReturns(log: seq<Entry>)
    requires LogOk(log)
    ensures Balanced(log)
  {
    if log == [] {
      TagsNone();
    } else {
      PrefixOk(log, log[..|log| - 1]);
      LogReturns(log[..|log| - 1]);
      BalanceStep(log[..|log| - 1], log[|log| - 1]);
      assert log[..|log| - 1] + [log[|log| - 1]] == log;
    }
  }

  lemma PrefixOk(log: seq<Entry>, prefix: seq<Entry>)
    requires LogOk(log) && log != [] && prefix == log[..|log| - 1]
    ensures LogOk(prefix) && (log[|log| - 1].Copied? ==> log[|log| - 1].after.id == log[|log| - 1].before.id)
  {
    forall j | 0 <= j < |prefix| ensures EntryOk(prefix, j) {
      assert EntryOk(log, j) && prefix[..j] == log[..j];
    }
    assert EntryOk(log, |log| - 1);
  }

  /** In every run each buffer sent to a port is still queued there, was given back on that port, or
      was lost to an output too small, exactly once. */
  lemma EveryBufferComesBack(ss: seq<State>, ops: seq<Op>, k: nat)
    requires IsRun(ss, ops) && k < |ss|
    ensures var s := ss[k];
            Tags(OnSide(InPort, SentInputs(ops[..k]))) + Tags(OnSide(OutPort, SentOutputs(ops[..k])))
            == Tags(Returned(s.log)) + Tags(Lost(s.log)) + Tags(OnSide(InPort, s.inQueue)) + Tags(OnSide(OutPort, s.outQueue))
  {
    PumpsInOrder(ss, ops, k);
    LogReturns(ss[k].log);
    SideAppend(InPort, Inputs(ss[k].log), ss[k].inQueue);
    SideAppend(OutPort, Outputs(ss[k].log), ss[k].outQueue);
  }
}
