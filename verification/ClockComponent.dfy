/** The clock component: streams, control loop and the events that drive them. */
module ClockComponent {
  import opened CInt
  import opened Wrappers
  import opened MovingAverage
  import opened ClockStream
  import opened ClockControl

  datatype Rational = Rational(num: int, den: int)

  predicate RationalEqual(a: Rational, b: Rational) {
    if a.num != b.num && a.num * b.num == 0 then false else a.num * b.den == b.num * a.den
  }

  datatype Component = Component(
    ctrl: Control,
    streams: seq<Option<StreamView>>,
    discontThreshold: int,
    filterLength: nat,
    scale: Rational,
    pendingScale: bool)

  predicate ComponentOk(c: Component) {
    && StreamsOk(c.streams)
    && 1 <= c.filterLength <= MAX_FILTER_LENGTH
    && c.ctrl.latency.attackPeriod > 0
  }

  function AgeOne(s: Option<StreamView>, c: Control, stc: int): Option<StreamView>
    requires s.Some? ==> StreamOk(s.value)
  {
    if s.None? then None else Some(AgeStream(s.value, stc, 6 * c.frameDuration, c.latency.target * 2))
  }

  function AgeAll(ss: seq<Option<StreamView>>, c: Control, stc: int): (r: seq<Option<StreamView>>)
    requires StreamsOk(ss)
    ensures |r| == |ss| && StreamsOk(r)
  {
    seq(|ss|, i requires 0 <= i < |ss| => AgeOne(ss[i], c, stc))
  }

  /** Apply the control loop, if it finds a minimum and a maximum stream. */
  function Adjusted(c: Component, stc: int): (r: Component)
    requires ComponentOk(c)
    ensures StreamsOk(r.streams)
  {
    var ss := AgeAll(c.streams, c.ctrl, stc);
    var p := Scan(ss, |ss|);
    ScanSelects(ss, |ss|);
    if p.min.None? || p.max.None? then c.(streams := ss)
    else
      c.(streams := ss, pendingScale := false,
         ctrl := ControlStep(c.ctrl, stc, ss[p.min.value].value, ss[p.max.value].value))
  }

  /** The control loop after the streams have been aged and scanned. */
  function Controlled(aged: Component, stc: int, p: Pick): Component
    requires ComponentOk(aged) && PickOk(aged.streams, |aged.streams|, p)
  {
    if p.min.None? || p.max.None? then aged
    else
      aged.(pendingScale := false,
            ctrl := ControlStep(aged.ctrl, stc, aged.streams[p.min.value].value, aged.streams[p.max.value].value))
  }

  lemma AdjustedIsControlled(c: Component, stc: int, aged: Component)
    requires ComponentOk(c) && aged == c.(streams := AgeAll(c.streams, c.ctrl, stc))
    ensures ComponentOk(aged)
    ensures var p := Scan(aged.streams, |aged.streams|);
            PickOk(aged.streams, |aged.streams|, p) && Adjusted(c, stc) == Controlled(aged, stc, p)
  {
    ScanSelects(aged.streams, |aged.streams|);
  }

  function ResetOne(s: Option<StreamView>): Option<StreamView>
    requires s.Some? ==> StreamOk(s.value)
  {
    if s.None? then None else Some(ResetStream(s.value))
  }

  function Rebased(c: Component): (r: Component)
    requires ComponentOk(c)
    ensures ComponentOk(r)
  {
    c.(streams := seq(|c.streams|, i requires 0 <= i < |c.streams| => ResetOne(c.streams[i])),
       ctrl := c.ctrl.(discont := true))
  }

  datatype Event =
    | InputInfo(port: nat, stc: int, pts: int)
    | LatencyChange(latency: Latency)
    | ScaleChange(scale: Rational)
    | DiscontThreshold(threshold: int)
    | Other

  predicate EventOk(c: Component, e: Event) {
    && (e.InputInfo? ==> e.port < |c.streams|)
    && (e.LatencyChange? ==> e.latency.attackPeriod > 0)
  }

  /** The stream of a port, created when its first data arrives. */
  function StreamAt(c: Component, port: nat): StreamView
    requires ComponentOk(c) && port < |c.streams|
  {
    if c.streams[port].Some? then c.streams[port].value else NewStream(port, c.filterLength)
  }

  function InputEvent(c: Component, port: nat, stc: int, pts: int): StreamEvent
    requires ComponentOk(c) && port < |c.streams|
  {
    UpdateStream(StreamAt(c, port), stc, pts, c.discontThreshold).1
  }

  function WithInput(c: Component, port: nat, stc: int, pts: int): (r: Component)
    requires ComponentOk(c) && port < |c.streams|
    ensures ComponentOk(r)
  {
    ApplyKeepsStream(StreamAt(c, port), Update(stc, pts, c.discontThreshold));
    c.(streams := c.streams[port := Some(UpdateStream(StreamAt(c, port), stc, pts, c.discontThreshold).0)])
  }

  function Process(c: Component, e: Event): (r: Component)
    requires ComponentOk(c) && EventOk(c, e)
    ensures ComponentOk(r)
  {
    match e
    case InputInfo(port, stc, pts) =>
      (match InputEvent(c, port, stc, pts)
       case FrameComplete => Adjusted(WithInput(c, port, stc, pts), stc)
       case Discontinuity => Rebased(WithInput(c, port, stc, pts))
       case _ => WithInput(c, port, stc, pts))
    case LatencyChange(l) => Rebased(c.(ctrl := c.ctrl.(latency := l)))
    case ScaleChange(s) =>
      if s.num == 0 then c.(scale := s, pendingScale := false)
      else if !RationalEqual(c.scale, s) && s.num == s.den then Rebased(c.(scale := s, pendingScale := true))
      else c
    case DiscontThreshold(t) => c.(discontThreshold := t)
    case Other => c
  }

  // ---------------------------------------------------------------- whole runs

  predicate StreamsSane(ss: seq<Option<StreamView>>) {
    forall i :: 0 <= i < |ss| && ss[i].Some? ==> Sane(ss[i].value)
  }

  predicate ComponentSane(c: Component) {
    ComponentOk(c) && StreamsSane(c.streams) && c.ctrl.latency.attackRate >= 0
  }

  predicate PlausibleEvent(e: Event) {
    && (e.InputInfo? ==> Plausible(e.stc) && (e.pts == TIME_UNKNOWN || Plausible(e.pts)))
    && (e.LatencyChange? ==> e.latency.attackRate >= 0)
  }

  lemma AgeAllStaysSane(ss: seq<Option<StreamView>>, c: Control, stc: int)
    requires StreamsOk(ss) && StreamsSane(ss)
    ensures StreamsSane(AgeAll(ss, c, stc))
  {
    forall i | 0 <= i < |ss| && ss[i].Some? ensures Sane(AgeAll(ss, c, stc)[i].value) {
      AgeStaysSane(ss[i].value, stc, 6 * c.frameDuration, c.latency.target * 2);
    }
  }

  lemma WithInputStaysSane(c: Component, port: nat, stc: int, pts: int)
    requires ComponentSane(c) && port < |c.streams|
    requires Plausible(stc) && (pts == TIME_UNKNOWN || Plausible(pts))
    ensures ComponentSane(WithInput(c, port, stc, pts))
  {
    ApplyStaysSane(StreamAt(c, port), Update(stc, pts, c.discontThreshold));
  }

  lemma ProcessStaysSane(c: Component, e: Event)
    requires ComponentSane(c) && EventOk(c, e) && PlausibleEvent(e)
    ensures ComponentSane(Process(c, e))
  {
    if e.InputInfo? {
      WithInputStaysSane(c, e.port, e.stc, e.pts);
      var d := WithInput(c, e.port, e.stc, e.pts);
      AgeAllStaysSane(d.streams, d.ctrl, e.stc);
    }
  }

  /** An event that neither is nor follows a discontinuity and does not turn wall time back. */
  predicate Smooth(c: Component, e: Event)
    requires ComponentOk(c) && EventOk(c, e)
  {
    && !c.ctrl.discont && !Process(c, e).ctrl.discont
    && !e.LatencyChange?
    && (e.InputInfo? ==> c.ctrl.stcAtUpdate <= e.stc)
  }

  /** What one update may do to the clock offset. */
  predicate Bounded(c: Control, d: Control) {
    && c.stcAtUpdate <= d.stcAtUpdate
    && d.latency == c.latency
    && Abs(d.mtOffClk - c.mtOffClk) * c.latency.attackPeriod <= (d.stcAtUpdate - c.stcAtUpdate) * c.latency.attackRate
    && (d.mtOffClk != c.mtOffClk ==> Min(c.mtOffClk, d.mtOffTarget) <= d.mtOffClk <= Max(c.mtOffClk, d.mtOffTarget))
  }

  lemma ControlStepBounded(k: Control, stc: int, min: StreamView, max: StreamView)
    requires k.latency.attackPeriod > 0 && k.latency.attackRate >= 0
    requires !k.discont && k.stcAtUpdate <= stc && Sane(min)
    ensures Bounded(k, ControlStep(k, stc, min, max))
  {
    StepBounded(k, stc, min, max);
    CapBounded(stc, k.stcAtUpdate, k.latency);
    MulMono(Abs(ControlStep(k, stc, min, max).mtOffClk - k.mtOffClk),
            AdjustmentCap(stc, k.stcAtUpdate, k.latency), k.latency.attackPeriod);
  }

  lemma AdjustedBounded(c: Component, stc: int)
    requires ComponentSane(c) && !c.ctrl.discont && c.ctrl.stcAtUpdate <= stc
    ensures Bounded(c.ctrl, Adjusted(c, stc).ctrl)
  {
    var ss := AgeAll(c.streams, c.ctrl, stc);
    AgeAllStaysSane(c.streams, c.ctrl, stc);
    ScanSelects(ss, |ss|);
    var p := Scan(ss, |ss|);
    if p.min.Some? && p.max.Some? {
      ControlStepBounded(c.ctrl, stc, ss[p.min.value].value, ss[p.max.value].value);
    } else {
      Standstill(c.ctrl);
    }
  }

  lemma Standstill(c: Control)
    ensures Bounded(c, c)
  {
  }

  /** One event: the clock moves only in a control update, towards its new target without
      passing it, and by no more than the wall time since the last update allows. */
  lemma EventBounded(c: Component, e: Event)
    requires ComponentSane(c) && EventOk(c, e) && PlausibleEvent(e) && Smooth(c, e)
    ensures Bounded(c.ctrl, Process(c, e).ctrl)
  {
    Standstill(c.ctrl);
    if e.InputInfo? && InputEvent(c, e.port, e.stc, e.pts).FrameComplete? {
      WithInputStaysSane(c, e.port, e.stc, e.pts);
      AdjustedBounded(WithInput(c, e.port, e.stc, e.pts), e.stc);
    }
  }

  /** A run: the states before, between and after a sequence of events. */
  ghost predicate IsRun(cs: seq<Component>, es: seq<Event>) {
    && |cs| == |es| + 1
    && (forall i :: 0 <= i < |cs| ==> ComponentOk(cs[i]))
    && (forall i :: 0 <= i < |es| ==> EventOk(cs[i], es[i]) && cs[i + 1] == Process(cs[i], es[i]))
  }

  ghost predicate SmoothRun(cs: seq<Component>, es: seq<Event>) {
    && IsRun(cs, es) && ComponentSane(cs[0])
    && forall i :: 0 <= i < |es| ==> PlausibleEvent(es[i]) && Smooth(cs[i], es[i])
  }

  /** Everything the clock offset moves over a run, up and down. */
  function Movement(ks: seq<Control>): nat {
    if |ks| <= 1 then 0 else Abs(ks[1].mtOffClk - ks[0].mtOffClk) + Movement(ks[1..])
  }

  lemma {:induction false} BoundedMovement(ks: seq<Control>)
    requires |ks| > 0 && forall i :: 0 <= i < |ks| - 1 ==> Bounded(ks[i], ks[i + 1])
    ensures var first, last := ks[0], ks[|ks| - 1];
            && last.latency == first.latency && first.stcAtUpdate <= last.stcAtUpdate
            && Movement(ks) * first.latency.attackPeriod
               <= (last.stcAtUpdate - first.stcAtUpdate) * first.latency.attackRate
            && Abs(last.mtOffClk - first.mtOffClk) <= Movement(ks)
  {
    if |ks| > 1 {
      assert Bounded(ks[0], ks[1]);
      BoundedMovement(ks[1..]);
      AddBounds(Abs(ks[1].mtOffClk - ks[0].mtOffClk), Movement(ks[1..]),
                ks[1].stcAtUpdate - ks[0].stcAtUpdate, ks[|ks| - 1].stcAtUpdate - ks[1].stcAtUpdate,
                ks[0].latency.attackPeriod, ks[0].latency.attackRate);
    }
  }

  lemma {:induction false} RunStaysSane(cs: seq<Component>, es: seq<Event>, i: nat)
    requires SmoothRun(cs, es) && i < |cs|
    ensures ComponentSane(cs[i])
  {
    if i > 0 {
      RunStaysSane(cs, es, i - 1);
      ProcessStaysSane(cs[i - 1], es[i - 1]);
    }
  }

  function Controls(cs: seq<Component>): (ks: seq<Control>)
    ensures |ks| == |cs| && forall i :: 0 <= i < |ks| ==> ks[i] == cs[i].ctrl
  {
    seq(|cs|, i requires 0 <= i < |cs| => cs[i].ctrl)
  }

  /** The slew-rate bound: over any run without a discontinuity and with non-decreasing wall
      time, however noisy the streams, the clock offset moves in total by at most
      attack_rate / attack_period times the wall time that passed between updates; and in each
      step it moves towards its target without passing it. */
  lemma SlewRateBound(cs: seq<Component>, es: seq<Event>)
    requires SmoothRun(cs, es)
    ensures var ks, first, last := Controls(cs), cs[0].ctrl, cs[|es|].ctrl;
            && (forall i :: 0 <= i < |es| ==> Bounded(ks[i], ks[i + 1]))
            && first.stcAtUpdate <= last.stcAtUpdate
            && Movement(ks) * first.latency.attackPeriod
               <= (last.stcAtUpdate - first.stcAtUpdate) * first.latency.attackRate
            && Abs(last.mtOffClk - first.mtOffClk) <= Movement(ks)
  {
    RunBounded(cs, es);
    BoundedMovement(Controls(cs));
  }

  lemma RunBounded(cs: seq<Component>, es: seq<Event>)
    requires SmoothRun(cs, es)
    ensures forall i :: 0 <= i < |es| ==> Bounded(Controls(cs)[i], Controls(cs)[i + 1])
  {
    var ks := Controls(cs);
    forall i | 0 <= i < |es| ensures Bounded(ks[i], ks[i + 1]) {
      RunStaysSane(cs, es, i);
      EventBounded(cs[i], es[i]);
    }
  }

  lemma AddBounds(a: int, b: int, s: int, t: int, p: int, r: int)
    requires a * p <= s * r && b * p <= t * r
    ensures (a + b) * p <= (s + t) * r
  {
    Distribute(a, b, p);
    Distribute(s, t, r);
  }

  lemma Distribute(a: int, b: int, k: int)
    ensures (a + b) * k == a * k + b * k
  {
  }

  // ---------------------------------------------------------------- the component in place

  class Clock {
    var ctrl: Control
    var streams: seq<Stream?>
    var discontThreshold: int
    var filterLength: nat
    var scale: Rational
    var pendingScale: bool
    ghost var Repr: set<object>

    ghost predicate Valid()
      reads this, Repr
    {
      && this in Repr
      && (forall i :: 0 <= i < |streams| && streams[i] != null ==>
            streams[i].Footprint() <= Repr && this !in streams[i].Footprint() && streams[i].Valid())
      && (forall i, j :: 0 <= i < j < |streams| && streams[i] != null && streams[j] != null ==>
            streams[i].Footprint() !! streams[j].Footprint())
      && 1 <= filterLength <= MAX_FILTER_LENGTH
      && ctrl.latency.attackPeriod > 0
    }

    ghost function StreamView(i: nat): (v: Option<ClockStream.StreamView>)
      requires Valid() && i < |streams|
      reads this, Repr
      ensures v.Some? ==> StreamOk(v.value)
    {
      if streams[i] == null then None else Some(streams[i].View())
    }

    ghost function StreamViews(): (r: seq<Option<ClockStream.StreamView>>)
      requires Valid()
      reads this, Repr
      ensures |r| == |streams| && StreamsOk(r)
    {
      seq(|streams|, i requires 0 <= i < |streams| && Valid() reads this, Repr => StreamView(i))
    }

    ghost function View(): (c: Component)
      requires Valid()
      reads this, Repr
      ensures ComponentOk(c)
    {
      Component(ctrl, StreamViews(), discontThreshold, filterLength, scale, pendingScale)
    }

    ghost function StreamOf(o: Option<nat>): Stream?
      requires o.Some? ==> o.value < |streams|
      reads this
    {
      if o.Some? then streams[o.value] else null
    }

    /** Age every stream and pick the minimum and the maximum. */
    method GetMtOffAvg(stc: int) returns (minimum: Stream?, maximum: Stream?)
      requires Valid()
      modifies Repr - {this}
      ensures Valid()
      ensures View() == old(View()).(streams := AgeAll(old(StreamViews()), ctrl, stc))
      ensures var p := Scan(StreamViews(), |streams|);
              && PickOk(StreamViews(), |streams|, p)
              && minimum == StreamOf(p.min) && maximum == StreamOf(p.max)
    {
      ghost var before := StreamViews();
      ghost var aged := AgeAll(before, ctrl, stc);
      ScanSelects(aged, |aged|);
      minimum, maximum := ScanStreams(stc, aged, before);
      assert StreamViews() == aged;
    }

    method ScanStreams(stc: int, ghost aged: seq<Option<ClockStream.StreamView>>, ghost before: seq<Option<ClockStream.StreamView>>)
      returns (minimum: Stream?, maximum: Stream?)
      requires Valid() && |streams| == |aged| == |before| && Scanned(0, aged, before)
      requires StreamsOk(aged) && StreamsOk(before) && forall j :: 0 <= j < |aged| ==> aged[j] == AgeOne(before[j], ctrl, stc)
      modifies Repr - {this}
      ensures Valid() && Scanned(|streams|, aged, before)
      ensures var p := Scan(aged, |aged|);
              PickOk(aged, |aged|, p) && minimum == StreamOf(p.min) && maximum == StreamOf(p.max)
    {
      ghost var p := Scan(aged, 0);
      var avgMin, avgMax := MAX_TIME, MIN_TIME;
      minimum, maximum := null, null;
      for i := 0 to |streams|
        invariant Valid() && Scanned(i, aged, before)
        invariant p == Scan(aged, i) && PickOk(aged, i, p)
        invariant avgMin == p.avgMin && avgMax == p.avgMax
        invariant minimum == StreamOf(p.min) && maximum == StreamOf(p.max)
      {
        ScanPicks(aged, i + 1);
        p := Scan(aged, i + 1);
        avgMin, avgMax, minimum, maximum := ScanRound(i, stc, avgMin, avgMax, minimum, maximum, aged, before, Scan(aged, i));
      }
    }

    method ScanRound(i: nat, stc: int, avgMin: int, avgMax: int, min: Stream?, max: Stream?,
                     ghost aged: seq<Option<ClockStream.StreamView>>, ghost before: seq<Option<ClockStream.StreamView>>, ghost p: Pick)
      returns (avgMin': int, avgMax': int, min': Stream?, max': Stream?)
      requires Valid() && i < |streams| == |aged| == |before| && Scanned(i, aged, before)
      requires before[i].Some? ==> StreamOk(before[i].value)
      requires aged[i] == AgeOne(before[i], ctrl, stc)
      requires PickFits(p) && avgMin == p.avgMin && avgMax == p.avgMax && min == StreamOf(p.min) && max == StreamOf(p.max)
      modifies Repr - {this}
      ensures Valid() && Scanned(i + 1, aged, before)
      ensures (aged[i].Some? ==> StreamOk(aged[i].value)) && PickFits(ConsiderOne(p, i, aged[i]))
      ensures var q := ConsiderOne(p, i, aged[i]);
              avgMin' == q.avgMin && avgMax' == q.avgMax && min' == StreamOf(q.min) && max' == StreamOf(q.max)
    {
      assert StreamView(i) == before[i];
      if streams[i] == null {
        avgMin', avgMax', min', max' := avgMin, avgMax, min, max;
      } else {
        AgeStreamAt(i, stc, aged, before);
        assert StreamView(i) == aged[i];
        avgMin', avgMax', min', max' := ConsiderStream(i, avgMin, avgMax, min, max, p);
      }
    }

    ghost predicate PickFits(p: Pick)
      reads this
    {
      (p.min.Some? ==> p.min.value < |streams|) && (p.max.Some? ==> p.max.value < |streams|)
    }

    /** The first i streams have been aged and the others have not. */
    ghost predicate Scanned(i: nat, aged: seq<Option<ClockStream.StreamView>>, before: seq<Option<ClockStream.StreamView>>)
      requires Valid() && i <= |streams| == |aged| == |before|
      reads this, Repr
    {
      forall j :: 0 <= j < |streams| ==> StreamView(j) == if j < i then aged[j] else before[j]
    }

    method ConsiderStream(i: nat, avgMin: int, avgMax: int, min: Stream?, max: Stream?, ghost p: Pick)
      returns (avgMin': int, avgMax': int, min': Stream?, max': Stream?)
      requires Valid() && i < |streams| && streams[i] != null
      requires PickFits(p) && avgMin == p.avgMin && avgMax == p.avgMax && min == StreamOf(p.min) && max == StreamOf(p.max)
      ensures var q := ConsiderOne(p, i, StreamView(i));
              && PickFits(q) && avgMin' == q.avgMin && avgMax' == q.avgMax && min' == StreamOf(q.min) && max' == StreamOf(q.max)
    {
      avgMin', avgMax', min', max' := avgMin, avgMax, min, max;
      var stream := streams[i];
      if stream.avgFilter.count == 0 { return; }
      var avgBias := AverageBias(stream.avgFilter.length, stream.avgFilter.count, stream.mtOffAvg);
      if stream.mtOffAvg + avgBias < avgMin {
        avgMin', min' := stream.mtOffAvg, stream;
      }
      if stream.mtOffAvg - avgBias > avgMax {
        avgMax', max' := stream.mtOffAvg, stream;
      }
    }

    /** Age the next stream of the scan, leaving the others alone. */
    method AgeStreamAt(i: nat, stc: int, ghost aged: seq<Option<ClockStream.StreamView>>, ghost before: seq<Option<ClockStream.StreamView>>)
      requires Valid() && i < |streams| == |aged| == |before| && streams[i] != null
      requires Scanned(i, aged, before)
      requires before[i].Some? && StreamOk(before[i].value) && aged[i] == AgeOne(before[i], ctrl, stc)
      modifies streams[i].Footprint()
      ensures Valid() && Scanned(i + 1, aged, before)
    {
      assert StreamView(i) == before[i];
      streams[i].AgeBy(stc, 6 * ctrl.frameDuration, ctrl.latency.target * 2);
    }

    method AdjustClocks(stc: int)
      requires Valid()
      modifies Repr
      ensures Valid() && unchanged(this`streams) && Repr == old(Repr)
      ensures View() == Adjusted(old(View()), stc)
    {
      ghost var before := View();
      var min, max := GetMtOffAvg(stc);
      AdjustedIsControlled(before, stc, View());
      Control(stc, min, max, Scan(StreamViews(), |streams|));
    }

    method Control(stc: int, min: Stream?, max: Stream?, ghost p: Pick)
      requires Valid() && PickOk(StreamViews(), |streams|, p) && min == StreamOf(p.min) && max == StreamOf(p.max)
      modifies this`ctrl, this`pendingScale
      ensures Valid() && View() == Controlled(old(View()), stc, p)
    {
      if min == null || max == null { return; }
      ApplyUpdate(stc, min, max, p.min.value, p.max.value);
    }

    method ApplyUpdate(stc: int, min: Stream, max: Stream, ghost i: nat, ghost j: nat)
      requires Valid() && i < |streams| && j < |streams| && min == streams[i] && max == streams[j]
      modifies this`ctrl, this`pendingScale
      ensures Valid()
      ensures View() == old(View()).(pendingScale := false,
                ctrl := ControlStep(old(ctrl), stc, old(StreamView(i)).value, old(StreamView(j)).value))
    {
      ghost var views := StreamViews();
      ControlUpdate(stc, min, max);
      pendingScale := false;
      assert StreamViews() == views;
    }

    /** Restart the clock after a discontinuity, else run the control loop once. */
    method ControlUpdate(stc: int, min: Stream, max: Stream)
      requires ctrl.latency.attackPeriod > 0
      requires min.Valid() && max.Valid() && this !in min.Footprint() && this !in max.Footprint()
      modifies this`ctrl
      ensures ctrl == ControlStep(old(ctrl), stc, min.View(), max.View())
    {
      var stcPrev := ctrl.stcAtUpdate;
      ctrl := ctrl.(streamMinId := min.id, streamMaxId := max.id, stcAtUpdate := stc);
      if ctrl.discont {
        var offset := min.mtOffAvg - ctrl.latency.target;
        ctrl := ctrl.(discont := false, mtOffClk := offset, mtOffTarget := offset, mediaTime := offset + stc);
      } else {
        var targetMax := max.mtOffAvg - ctrl.latency.target;
        var targetMin := min.mtOffAvg - ctrl.frameDuration;
        var target := if targetMax < targetMin then targetMax else targetMin;
        var stcDelta := if stc > stcPrev then stc - stcPrev else 0;
        var adjPMax := DivTrunc(stcDelta * ctrl.latency.attackRate, ctrl.latency.attackPeriod);
        var adjP := target - ctrl.mtOffClk;
        if adjP < -adjPMax {
          adjP := -adjPMax;
        } else if adjP > adjPMax {
          adjP := adjPMax;
        }
        var adjM := Max(ONE - ShiftRight(min.mtOffStd * Pow2(ctrl.frameRateLog2), 4), 0);
        var adj := ShiftRight(adjP * adjM, ONE);
        adj := ShiftRight(DivTrunc(adj * (min.avgFilter.count * 256), min.avgFilter.length), 256);
        var offset := ctrl.mtOffClk + adj;
        ctrl := ctrl.(mtOffTarget := target, adjP := adjP, adjM := adjM, adj := adj,
                      mtOffClk := offset, mediaTime := offset + stc);
      }
    }

    method ResetClocks()
      requires Valid()
      modifies Repr
      ensures Valid() && unchanged(this`streams) && Repr == old(Repr)
      ensures View() == Rebased(old(View()))
    {
      ghost var before := StreamViews();
      ghost var after := Rebased(View()).streams;
      for i := 0 to |streams|
        invariant unchanged(this)
        invariant Valid() && |streams| == |after| && Scanned(i, after, before)
      {
        if streams[i] != null { ResetStreamAt(i, after, before); }
      }
      assert StreamViews() == after;
      MarkDiscontinuity();
    }

    method MarkDiscontinuity()
      requires Valid()
      modifies this`ctrl
      ensures Valid() && View() == old(View()).(ctrl := old(ctrl).(discont := true))
    {
      ghost var views := StreamViews();
      ctrl := ctrl.(discont := true);
      assert StreamViews() == views;
    }

    method ResetStreamAt(i: nat, ghost after: seq<Option<ClockStream.StreamView>>, ghost before: seq<Option<ClockStream.StreamView>>)
      requires Valid() && i < |streams| == |after| == |before| && streams[i] != null
      requires Scanned(i, after, before)
      requires before[i].Some? && StreamOk(before[i].value) && after[i] == ResetOne(before[i])
      modifies streams[i].Footprint()
      ensures Valid() && Scanned(i + 1, after, before)
    {
      assert StreamView(i) == before[i];
      streams[i].Reset();
    }

    /** Handle a time-stamp report, creating the port's stream on its first data. */
    method ProcessInput(port: nat, stc: int, pts: int)
      requires Valid() && port < |streams|
      modifies Repr
      ensures Valid() && fresh(Repr - old(Repr))
      ensures View() == Process(old(View()), InputInfo(port, stc, pts))
    {
      CreateStream(port);
      var event := UpdateStreamAt(port, stc, pts);
      assert View() == WithInput(old(View()), port, stc, pts);
      assert event == InputEvent(old(View()), port, stc, pts);
      if event == FrameComplete {
        AdjustClocks(stc);
      } else if event == Discontinuity {
        ResetClocks();
      }
    }

    method CreateStream(port: nat)
      requires Valid() && port < |streams|
      modifies this
      ensures Valid() && fresh(Repr - old(Repr)) && |streams| == |old(streams)| && streams[port] != null
      ensures View() == old(View()).(streams := old(StreamViews())[port := Some(StreamAt(old(View()), port))])
    {
      ghost var before, c := StreamViews(), View();
      if streams[port] != null {
        assert before[port := Some(StreamAt(c, port))] == before;
        return;
      }
      var stream := new Stream(port, filterLength);
      Install(port, stream);
    }

    method Install(port: nat, stream: Stream)
      requires Valid() && port < |streams| && streams[port] == null
      requires stream.Footprint() !! Repr && stream.Valid()
      modifies this
      ensures Valid() && Repr == old(Repr) + stream.Footprint() && streams == old(streams)[port := stream]
      ensures View() == old(View()).(streams := old(StreamViews())[port := Some(stream.View())])
    {
      ghost var before := StreamViews();
      streams := streams[port := stream];
      Repr := Repr + stream.Footprint();
      assert StreamViews() == before[port := Some(stream.View())];
    }

    method UpdateStreamAt(port: nat, stc: int, pts: int) returns (event: StreamEvent)
      requires Valid() && port < |streams| && streams[port] != null
      modifies Repr - {this}
      ensures Valid() && View() == WithInput(old(View()), port, stc, pts)
      ensures event == InputEvent(old(View()), port, stc, pts)
    {
      ghost var before, c := StreamViews(), View();
      event := streams[port].Update(stc, pts, discontThreshold);
      assert StreamViews() == before[port := StreamView(port)];
    }

    /** Change settings that no stream depends on. */
    method Configure(latency: Latency, threshold: int, newScale: Rational, pending: bool)
      requires Valid() && latency.attackPeriod > 0
      modifies this`ctrl, this`discontThreshold, this`scale, this`pendingScale
      ensures Valid() && View() == old(View()).(ctrl := old(ctrl).(latency := latency), discontThreshold := threshold,
                                                scale := newScale, pendingScale := pending)
    {
      ghost var views := StreamViews();
      ctrl := ctrl.(latency := latency);
      discontThreshold, scale, pendingScale := threshold, newScale, pending;
      assert StreamViews() == views;
    }

    /** The action thread's handling of one event. */
    method ProcessEvent(e: Event)
      requires Valid() && EventOk(View(), e)
      modifies Repr
      ensures Valid() && fresh(Repr - old(Repr)) && View() == Process(old(View()), e)
    {
      match e
      case InputInfo(port, stc, pts) =>
        ProcessInput(port, stc, pts);
      case LatencyChange(latency) =>
        Configure(latency, discontThreshold, scale, pendingScale);
        ResetClocks();
      case ScaleChange(s) =>
        if s.num == 0 {
          Configure(ctrl.latency, discontThreshold, s, false);
        } else if !RationalEqual(scale, s) && s.num == s.den {
          Configure(ctrl.latency, discontThreshold, s, true);
          ResetClocks();
        }
      case DiscontThreshold(threshold) =>
        Configure(ctrl.latency, threshold, scale, pendingScale);
      case Other =>
    }
  }
}
