/** A steady stream, followed from the moment the clock starts over: the first media time, and every
    one after it. */
module ClockSteady {
  import opened CInt
  import opened Wrappers
  import opened MovingAverage
  import opened ClockStream
  import opened ClockControl
  import opened ClockComponent
  import opened ClockLaws

  datatype Report = Report(stc: int, pts: int)

  /** Reports whose time-stamps run ahead of their arrival by d, each for another frame. */
  predicate SteadyBy(rs: seq<Report>, d: int, threshold: int) {
    && (forall i :: 0 <= i < |rs| ==> Plausible(rs[i].stc) && Plausible(rs[i].pts) && rs[i].pts == rs[i].stc + d)
    && forall i :: 0 < i < |rs| ==> rs[i].stc != rs[i - 1].stc && Abs(rs[i].stc - rs[i - 1].stc) <= threshold
  }

  /** The component after reports on one port. */
  ghost function Reported(c: Component, port: nat, rs: seq<Report>): (r: Component)
    requires ComponentOk(c) && port < |c.streams|
    ensures ComponentOk(r) && |r.streams| == |c.streams|
  {
    if rs == [] then c
    else
      var last := rs[|rs| - 1];
      Process(Reported(c, port, rs[..|rs| - 1]), InputInfo(port, last.stc, last.pts))
  }

  /** A stream that has seen nothing but offset d. */
  predicate Measures(s: StreamView, d: int, last: Report, samples: nat) {
    && Sane(s) && s.started && s.pts == last.pts && s.stc == last.stc
    && |s.avg.window| == (if samples < s.avg.length then samples else s.avg.length)
    && (forall i :: 0 <= i < |s.avg.window| ==> s.avg.window[i] == d)
    && (s.avg.window != [] ==> s.mtOffAvg == d)
  }

  lemma OneMoreSample(s: StreamView, d: int, last: Report, samples: nat, r: Report, threshold: int)
    requires Measures(s, d, last, samples) && last.pts == last.stc + d && r.pts == r.stc + d
    requires Plausible(r.stc) && Plausible(r.pts) && r.stc != last.stc && Abs(r.stc - last.stc) <= threshold
    ensures var (t, event) := UpdateStream(s, r.stc, r.pts, threshold);
            event == FrameComplete && Measures(t, d, r, samples + 1) && t.avg.window != [] && t.avg.length == s.avg.length && t.id == s.id
  {
    SampleIs(s, d, last, samples);
  }

  lemma SampleIs(s: StreamView, d: int, last: Report, samples: nat)
    requires Measures(s, d, last, samples) && last.pts == last.stc + d
    ensures Measures(InsertOffset(s), d, last, samples + 1) && InsertOffset(s).avg.window != [] && InsertOffset(s).avg.length == s.avg.length && InsertOffset(s).id == s.id
  {
    InsertOffsetStaysSane(s);
    InsertStaysSane(s.avg, d, -2 * TIME_LIMIT, 2 * TIME_LIMIT);
    AverageBetween(InsertRing(s.avg, d), d, d);
  }

  lemma FreshAges(s: StreamView, stc: int, drop: int, reset: int)
    requires StreamOk(s) && (s.avg.window == [] || (s.stc == stc && 0 <= drop && 0 <= reset && s.mtOffAvg == Average(s.avg) && s.mtOffStd == Average(s.std)))
    requires AsNew(s) || s.avg.window != []
    ensures AgeStream(s, stc, drop, reset) == s
  {
  }

  /** The other ports are silent, and no setting has changed. */
  ghost predicate Alone(c: Component, d: Component, port: nat) {
    && |d.streams| == |c.streams| && port < |c.streams|
    && (forall i :: 0 <= i < |c.streams| && i != port ==> d.streams[i] == c.streams[i])
    && d.discontThreshold == c.discontThreshold && d.ctrl.latency == c.ctrl.latency && d.ctrl.frameDuration == c.ctrl.frameDuration
  }

  /** After n reports: the stream measures d, and from the second on the clock runs so that a frame
      is presented the target latency after it arrived. */
  ghost predicate Follows(c: Component, d: Component, port: nat, offset: int, last: Report, n: nat)
    requires n > 0
  {
    && ComponentOk(d) && Alone(c, d, port)
    && d.streams[port].Some? && Measures(d.streams[port].value, offset, last, n - 1)
    && d.streams[port].value.avg.length == (if c.streams[port].Some? then c.streams[port].value.avg.length else c.filterLength)
    && d.streams[port].value.id == (if c.streams[port].Some? then c.streams[port].value.id else port)
    && (n > 1 ==> d.streams[port].value.mtOffStd == MeanOf(d.streams[port].value.std))
    && (n == 1 ==> d.ctrl == c.ctrl)
    && (n > 1 ==>
          && !d.ctrl.discont
          && d.ctrl.mediaTime == last.stc + offset - c.ctrl.latency.target
          && d.ctrl.mtOffClk == offset - c.ctrl.latency.target)
  }

  function MeanOf(r: Ring): int {
    if r.window == [] then 0 else Average(r)
  }

  predicate Ready(c: Component, port: nat) {
    && ComponentOk(c) && port < |c.streams| && AllNew(c.streams) && c.ctrl.discont
    && c.ctrl.latency.attackRate >= 0 && 0 <= c.ctrl.frameDuration <= c.ctrl.latency.target
  }

  lemma FirstReport(c: Component, port: nat, offset: int, r: Report)
    requires Ready(c, port) && Plausible(r.stc) && Plausible(r.pts)
    ensures Follows(c, Process(c, InputInfo(port, r.stc, r.pts)), port, offset, r, 1)
  {
    assert AsNew(StreamAt(c, port));
    NewIsSane(StreamAt(c, port));
  }

  lemma NewIsSane(s: StreamView)
    requires AsNew(s)
    ensures Sane(s)
  {
  }

  lemma OnlyOneActive(ss: seq<Option<StreamView>>, port: nat, i: nat, k: nat)
    requires StreamsOk(ss) && port < |ss| && Extremes(ss, i, k) && forall j :: 0 <= j < |ss| && j != port ==> !Active(ss[j])
    ensures i == port && k == port
  {
  }

  /** The update after a report finds just this stream, and ageing changes none. */
  lemma UpdateFinds(c: Component, d: Component, port: nat, offset: int, r: Report, samples: nat)
    requires Ready(c, port) && ComponentOk(d) && Alone(c, d, port) && samples > 0
    requires d.streams[port].Some? && Measures(d.streams[port].value, offset, r, samples) && d.streams[port].value.avg.window != []
    requires d.streams[port].value.mtOffStd == Average(d.streams[port].value.std)
    ensures Adjusted(d, r.stc) == d.(pendingScale := false, ctrl := ControlStep(d.ctrl, r.stc, d.streams[port].value, d.streams[port].value))
  {
    var s := d.streams[port].value;
    AverageBetween(s.avg, offset, offset);
    var aged := AgeAll(d.streams, d.ctrl, r.stc);
    forall j | 0 <= j < |d.streams| && d.streams[j].Some? ensures Sane(d.streams[j].value) && aged[j] == d.streams[j] {
      if j != port { NewIsSane(d.streams[j].value); }
      FreshAges(d.streams[j].value, r.stc, 6 * d.ctrl.frameDuration, d.ctrl.latency.target * 2);
    }
    assert aged == d.streams;
    var aged', i, k := PicksExtremes(d, r.stc);
    assert Active(aged[port]) && AnyActive(aged);
    OnlyOneActive(aged, port, i, k);
    assert d.(streams := aged) == d;
  }

  lemma NextReport(c: Component, d: Component, port: nat, offset: int, last: Report, n: nat, r: Report)
    requires Ready(c, port) && n > 0 && Follows(c, d, port, offset, last, n)
    requires last.pts == last.stc + offset && r.pts == r.stc + offset
    requires Plausible(r.stc) && Plausible(r.pts) && r.stc != last.stc && Abs(r.stc - last.stc) <= c.discontThreshold
    ensures Follows(c, Process(d, InputInfo(port, r.stc, r.pts)), port, offset, r, n + 1)
  {
    StreamHears(c, d, port, offset, last, n, r);
    var e := WithInput(d, port, r.stc, r.pts);
    UpdateFinds(c, e, port, offset, r, n);
    StepStays(e.ctrl, r.stc, e.streams[port].value, offset);
  }

  lemma StreamHears(c: Component, d: Component, port: nat, offset: int, last: Report, n: nat, r: Report)
    requires Ready(c, port) && n > 0 && Follows(c, d, port, offset, last, n)
    requires last.pts == last.stc + offset && r.pts == r.stc + offset
    requires Plausible(r.stc) && Plausible(r.pts) && r.stc != last.stc && Abs(r.stc - last.stc) <= c.discontThreshold
    ensures var e := WithInput(d, port, r.stc, r.pts);
            && InputEvent(d, port, r.stc, r.pts) == FrameComplete && Alone(c, e, port) && e.ctrl == d.ctrl
            && e.streams[port].Some? && Measures(e.streams[port].value, offset, r, n) && e.streams[port].value.avg.window != []
            && e.streams[port].value.avg.length == d.streams[port].value.avg.length && e.streams[port].value.id == d.streams[port].value.id
            && e.streams[port].value.mtOffStd == Average(e.streams[port].value.std)
  {
    OneMoreSample(d.streams[port].value, offset, last, n - 1, r, c.discontThreshold);
  }

  /** The clock starts at, or stays at, the stream's offset less the latency. */
  lemma StepStays(c: Control, stc: int, s: StreamView, offset: int)
    requires c.latency.attackPeriod > 0 && c.latency.attackRate >= 0 && Sane(s) && s.avg.window != [] && s.mtOffAvg == offset
    requires c.discont || (c.mtOffClk == offset - c.latency.target && c.frameDuration <= c.latency.target)
    ensures var d := ControlStep(c, stc, s, s);
            && !d.discont && d.latency == c.latency && d.frameDuration == c.frameDuration
            && d.mtOffClk == offset - c.latency.target && d.mediaTime == stc + offset - c.latency.target
  {
    if !c.discont { StepBounded(c, stc, s, s); }
  }

  /** Once the clock has started over, a single stream whose time-stamps run ahead of their arrival
      by d sets the media time to arrival + d - latency with the second report, and keeps it there
      with every report after that. */
  lemma {:induction false} SteadyStreamIsFollowed(c: Component, port: nat, d: int, rs: seq<Report>)
    requires Ready(c, port) && rs != [] && SteadyBy(rs, d, c.discontThreshold)
    ensures Follows(c, Reported(c, port, rs), port, d, rs[|rs| - 1], |rs|)
    ensures |rs| > 1 ==> Reported(c, port, rs).ctrl.mediaTime == rs[|rs| - 1].stc + d - c.ctrl.latency.target
  {
    var prefix, r := rs[..|rs| - 1], rs[|rs| - 1];
    if prefix == [] {
      FirstReport(c, port, d, r);
    } else {
      SteadyStreamIsFollowed(c, port, d, prefix);
      NextReport(c, Reported(c, port, prefix), port, d, prefix[|prefix| - 1], |prefix|, r);
    }
  }
}
