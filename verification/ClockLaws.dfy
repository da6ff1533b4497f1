/** What the clock component is for, stated without its control functions: where the clock starts,
    what it follows, and what makes it start again. */
module ClockLaws {
  import opened CInt
  import opened Wrappers
  import opened MovingAverage
  import opened ClockStream
  import opened ClockControl
  import opened ClockComponent

  // ---------------------------------------------------------------- the numbers of an update

  /** q is a / b rounded down. */
  predicate RoundedDown(q: int, a: int, b: int) {
    q * b <= a < (q + 1) * b
  }

  lemma DivRoundsDown(a: int, b: int)
    requires b > 0
    ensures RoundedDown(a / b, a, b)
  {
    assert a == (a / b) * b + a % b;
    assert (a / b + 1) * b == (a / b) * b + b;
  }

  /** The bias of a filter is the share of the average that its missing samples are. */
  lemma BiasIsMissingShare(s: StreamView)
    requires StreamOk(s)
    ensures RoundedDown(Bias(s), (s.avg.length - |s.avg.window|) * Abs(s.mtOffAvg), s.avg.length)
    ensures 0 <= Bias(s) <= Abs(s.mtOffAvg)
  {
    var missing, size := s.avg.length - |s.avg.window|, Abs(s.mtOffAvg);
    MulMono(0, missing, size);
    DivRoundsDown(missing * size, s.avg.length);
    BiasNonNegative(s);
    MulMono(missing, s.avg.length, size);
    DivAtMost(missing * size, s.avg.length, size) by { assert missing * size <= size * s.avg.length; }
  }

  /** The confidence falls from 2^20 by a quarter of the spread times the rounded frame rate. */
  lemma ConfidenceIs(std: int, frameRateLog2: nat)
    requires std >= 0
    ensures var lost, m := std * Pow2(frameRateLog2), ConfidenceFactor(std, frameRateLog2);
            if lost >= 4 * 0x10_0000 then m == 0 else RoundedDown(0x10_0000 - m, lost, 4)
  {
    MulMono(0, std, Pow2(frameRateLog2));
    DivRoundsDown(std * Pow2(frameRateLog2), 4);
  }

  /** The cap is the wall time since the last update times the attack rate, over the period. */
  lemma CapIs(stc: int, stcPrev: int, latency: Latency)
    requires latency.attackPeriod > 0 && latency.attackRate >= 0
    ensures var cap := AdjustmentCap(stc, stcPrev, latency);
            if stc <= stcPrev then cap == 0 else RoundedDown(cap, (stc - stcPrev) * latency.attackRate, latency.attackPeriod)
  {
    if stc > stcPrev {
      MulMono(0, stc - stcPrev, latency.attackRate);
      DivRoundsDown((stc - stcPrev) * latency.attackRate, latency.attackPeriod);
    }
  }

  /** The adjustment made is the capped one times confidence and filter fill, but for rounding:
      less than two microseconds below and less than one above. */
  predicate Scaled(r: int, p: int, m: int, count: nat, length: nat) {
    p * m * count - 2 * (length * ONE) < r * (length * ONE) < p * m * count + length * ONE
  }

  lemma ShareIs(a: int, count: nat, length: nat)
    requires count <= length && 0 < length
    ensures var r := ShiftRight(DivTrunc(a * (count * 256), length), 256);
            a * count - length < r * length < a * count + length
  {
    var n := a * (count * 256);
    var q := DivTrunc(n, length);
    TruncIs(n, length);
    assert n == 256 * (a * count);
    DivRoundsDown(q, 256);
    ShareBounds(q / 256, q, n, a * count, length);
  }

  /** Truncated division is off by less than one. */
  lemma TruncIs(n: int, length: nat)
    requires 0 < length
    ensures n - length < DivTrunc(n, length) * length < n + length
    ensures n >= 0 ==> DivTrunc(n, length) * length <= n
    ensures n <= 0 ==> DivTrunc(n, length) * length >= n
  {
    if n >= 0 {
      DivRoundsDown(n, length);
      NextMultiple(n / length, length);
    } else {
      DivRoundsDown(-n, length);
      NextMultiple((-n) / length, length);
      Negated((-n) / length, length);
    }
  }

  lemma NextMultiple(q: int, b: int)
    ensures (q + 1) * b == q * b + b
  {
  }

  lemma Negated(q: int, b: int)
    ensures -q * b == -(q * b)
  {
  }

  lemma ShareBounds(r: int, q: int, n: int, x: int, length: nat)
    requires 0 < length && n == 256 * x && 256 * r <= q < 256 * r + 256
    requires n - length < q * length < n + length
    ensures x - length < r * length < x + length
  {
    MulMono(256 * r, q, length);
    MulMono(q, 256 * r + 255, length);
    assert (256 * r) * length == 256 * (r * length);
    assert (256 * r + 255) * length == 256 * (r * length) + 255 * length;
  }

  lemma ModulateIs(p: int, m: int, count: nat, length: nat)
    requires 0 <= m <= ONE && count <= length && 0 < length
    ensures Scaled(Modulate(p, m, count, length), p, m, count, length)
  {
    var a := ShiftRight(p * m, ONE);
    var r := Modulate(p, m, count, length);
    DivRoundsDown(p * m, ONE);
    ShareIs(a, count, length);
    MulMono(a * ONE, p * m, count);
    MulMono(p * m, a * ONE + ONE - 1, count);
    assert (a * ONE) * count == ONE * (a * count);
    assert (a * ONE + ONE - 1) * count == ONE * (a * count) + (ONE - 1) * count;
    assert r * (length * ONE) == ONE * (r * length);
    assert length * ONE == ONE * length;
    assert (ONE - 1) * count <= ONE * length by { MulMono(count, length, ONE); }
  }

  // ---------------------------------------------------------------- one control update of the component

  /** Average and bias are far from the ends of the range. */
  lemma AgedInRange(s: StreamView, stc: int, drop: int, reset: int)
    requires Sane(s)
    ensures var r := AgeStream(s, stc, drop, reset);
            && Sane(r)
            && (r.avg.window != [] ==> MIN_TIME < r.mtOffAvg - Bias(r) && r.mtOffAvg + Bias(r) < MAX_TIME)
  {
    AgeStaysSane(s, stc, drop, reset);
    var r := AgeStream(s, stc, drop, reset);
    if r.avg.window != [] {
      AverageBetween(r.avg, -2 * TIME_LIMIT, 2 * TIME_LIMIT);
      BiasIsMissingShare(r);
    }
  }

  /** Streams i and k are active, none is more than its bias below i or above k. */
  ghost predicate Extremes(ss: seq<Option<StreamView>>, i: nat, k: nat)
    requires StreamsOk(ss)
  {
    && i < |ss| && Active(ss[i]) && k < |ss| && Active(ss[k])
    && forall j :: 0 <= j < |ss| && Active(ss[j]) ==>
         && ss[i].value.mtOffAvg <= ss[j].value.mtOffAvg + Bias(ss[j].value)
         && ss[j].value.mtOffAvg - Bias(ss[j].value) <= ss[k].value.mtOffAvg
  }

  ghost predicate AnyActive(ss: seq<Option<StreamView>>) {
    exists j :: 0 <= j < |ss| && Active(ss[j])
  }

  lemma PicksExtremes(c: Component, stc: int) returns (aged: seq<Option<StreamView>>, i: nat, k: nat)
    requires ComponentSane(c)
    ensures aged == AgeAll(c.streams, c.ctrl, stc) && StreamsSane(aged)
    ensures !AnyActive(aged) ==> Adjusted(c, stc) == c.(streams := aged)
    ensures AnyActive(aged) ==>
              && Extremes(aged, i, k)
              && Adjusted(c, stc) == c.(streams := aged, pendingScale := false,
                                        ctrl := ControlStep(c.ctrl, stc, aged[i].value, aged[k].value))
  {
    aged := AgeAll(c.streams, c.ctrl, stc);
    AgeAllStaysSane(c.streams, c.ctrl, stc);
    ScanSelects(aged, |aged|);
    var p := Scan(aged, |aged|);
    i, k := 0, 0;
    if AnyActive(aged) {
      var j :| 0 <= j < |aged| && Active(aged[j]);
      AgedInRange(c.streams[j].value, stc, 6 * c.ctrl.frameDuration, c.ctrl.latency.target * 2);
      assert BeatsStream(p, aged[j]);
      i, k := p.min.value, p.max.value;
      PickIsExtreme(aged, p);
    }
  }

  lemma PickIsExtreme(ss: seq<Option<StreamView>>, p: Pick)
    requires StreamsOk(ss) && PickOk(ss, |ss|, p) && p.min.Some? && p.max.Some?
    requires forall j :: 0 <= j < |ss| ==> BeatsStream(p, ss[j])
    ensures Extremes(ss, p.min.value, p.max.value)
  {
    forall j | 0 <= j < |ss| && Active(ss[j])
      ensures ss[p.min.value].value.mtOffAvg <= ss[j].value.mtOffAvg + Bias(ss[j].value)
      ensures ss[j].value.mtOffAvg - Bias(ss[j].value) <= ss[p.max.value].value.mtOffAvg
    {
      assert BeatsStream(p, ss[j]);
    }
  }

  /** Where the clock starts: at the first update after a discontinuity that finds an active stream
      the media time is set so that the earliest stream - none is more than its bias earlier - is
      presented the target latency after it arrives; this is also the target, and the
      discontinuity is over. Without an active stream nothing but the ageing happens. */
  lemma StartsBehindEarliest(c: Component, stc: int) returns (i: nat)
    requires ComponentSane(c) && c.ctrl.discont
    ensures var d, aged := Adjusted(c, stc), AgeAll(c.streams, c.ctrl, stc);
            && StreamsOk(aged) && d.streams == aged
            && (!AnyActive(aged) ==> d.ctrl == c.ctrl && d.pendingScale == c.pendingScale)
            && (AnyActive(aged) ==>
                  && !d.ctrl.discont && !d.pendingScale
                  && d.ctrl.stcAtUpdate == stc
                  && d.ctrl.mtOffClk == d.ctrl.mtOffTarget == d.ctrl.mediaTime - stc
                  && i < |aged| && Active(aged[i]) && d.ctrl.streamMinId == aged[i].value.id && d.ctrl.mtOffClk + c.ctrl.latency.target == aged[i].value.mtOffAvg
                  && forall j :: 0 <= j < |aged| && Active(aged[j]) ==>
                       d.ctrl.mediaTime - stc + c.ctrl.latency.target <= aged[j].value.mtOffAvg + Bias(aged[j].value))
  {
    var aged, k;
    aged, i, k := PicksExtremes(c, stc);
  }

  /** The proportional part of an update: the gap, as far as the cap allows. */
  predicate Capped(p: int, gap: int, cap: int) {
    if Abs(gap) <= cap then p == gap else p == if gap < 0 then -cap else cap
  }

  /** What the clock follows from then on: the offset that leaves the latest stream its latency and
      the earliest one a frame, whichever is less; and by how much it follows in one update: the
      gap as far as the cap allows, scaled by the confidence in the earliest stream and by how
      full its filter is. */
  lemma FollowsExtremes(c: Component, stc: int) returns (i: nat, k: nat, p: int)
    requires ComponentSane(c) && !c.ctrl.discont
    ensures var d, aged := Adjusted(c, stc), AgeAll(c.streams, c.ctrl, stc);
            && StreamsOk(aged) && d.streams == aged
            && (!AnyActive(aged) ==> d.ctrl == c.ctrl && d.pendingScale == c.pendingScale)
            && (AnyActive(aged) ==>
                  && Extremes(aged, i, k)
                  && !d.ctrl.discont && !d.pendingScale && d.ctrl.stcAtUpdate == stc && d.ctrl.mediaTime == d.ctrl.mtOffClk + stc
                  && d.ctrl.mtOffTarget == Min(aged[k].value.mtOffAvg - c.ctrl.latency.target, aged[i].value.mtOffAvg - c.ctrl.frameDuration)
                  && d.ctrl.streamMinId == aged[i].value.id && d.ctrl.streamMaxId == aged[k].value.id
                  && d.ctrl.adjP == p && d.ctrl.adj == d.ctrl.mtOffClk - c.ctrl.mtOffClk
                  && d.ctrl.adjM == ConfidenceFactor(aged[i].value.mtOffStd, c.ctrl.frameRateLog2)
                  && Capped(p, d.ctrl.mtOffTarget - c.ctrl.mtOffClk, AdjustmentCap(stc, c.ctrl.stcAtUpdate, c.ctrl.latency))
                  && Scaled(d.ctrl.mtOffClk - c.ctrl.mtOffClk, p, ConfidenceFactor(aged[i].value.mtOffStd, c.ctrl.frameRateLog2),
                            |aged[i].value.avg.window|, aged[i].value.avg.length))
  {
    var aged;
    aged, i, k := PicksExtremes(c, stc);
    p := 0;
    if AnyActive(aged) {
      p := StepFollows(c.ctrl, stc, aged[i].value, aged[k].value);
    }
  }

  lemma StepFollows(c: Control, stc: int, min: StreamView, max: StreamView) returns (p: int)
    requires c.latency.attackPeriod > 0 && c.latency.attackRate >= 0 && !c.discont && Sane(min)
    ensures var d := ControlStep(c, stc, min, max);
            && !d.discont && d.stcAtUpdate == stc && d.mediaTime == d.mtOffClk + stc
            && d.mtOffTarget == Min(max.mtOffAvg - c.latency.target, min.mtOffAvg - c.frameDuration)
            && d.streamMinId == min.id && d.streamMaxId == max.id && d.adjP == p && d.adj == d.mtOffClk - c.mtOffClk
            && d.adjM == ConfidenceFactor(min.mtOffStd, c.frameRateLog2)
            && Capped(p, d.mtOffTarget - c.mtOffClk, AdjustmentCap(stc, c.stcAtUpdate, c.latency))
            && Scaled(d.mtOffClk - c.mtOffClk, p, ConfidenceFactor(min.mtOffStd, c.frameRateLog2), |min.avg.window|, min.avg.length)
  {
    var m := ConfidenceFactor(min.mtOffStd, c.frameRateLog2);
    var cap := AdjustmentCap(stc, c.stcAtUpdate, c.latency);
    ConfidenceInUnit(min.mtOffStd, c.frameRateLog2);
    CapBounded(stc, c.stcAtUpdate, c.latency);
    p := RateLimit(Target(c, min, max) - c.mtOffClk, cap);
    ModulateIs(p, m, |min.avg.window|, min.avg.length);
  }

  /** What silence does: a stream not heard of for more than twice the target latency is forgotten,
      one silent for more than six frames loses its oldest sample with every update. */
  lemma SilenceForgets(c: Component, stc: int, j: nat)
    requires ComponentSane(c) && Plausible(stc) && j < |c.streams| && c.streams[j].Some?
    ensures Adjusted(c, stc).streams[j].Some?
    ensures var s, t := c.streams[j].value, Adjusted(c, stc).streams[j].value;
            var silence := stc - s.stc;
            && (silence > 2 * c.ctrl.latency.target ==> t.avg.window == [] && t.std.window == [])
            && (silence <= 2 * c.ctrl.latency.target && silence > 6 * c.ctrl.frameDuration && s.avg.window != [] ==>
                  t.avg.window == s.avg.window[1..] && t.std.window == s.std.window[1..])
            && (silence <= 2 * c.ctrl.latency.target && silence <= 6 * c.ctrl.frameDuration ==>
                  t.avg.window == s.avg.window && t.std.window == s.std.window)
            && t.id == s.id && t.started == s.started && t.pts == s.pts && t.stc == s.stc && t.avg.length == s.avg.length
  {
    var aged, i, k := PicksExtremes(c, stc);
  }

  ghost predicate FirstLeast(ss: seq<Option<StreamView>>, n: nat, i: nat, avg: int)
    requires n <= |ss|
  {
    && i < n && Active(ss[i]) && ss[i].value.mtOffAvg == avg
    && forall j :: 0 <= j < n && Active(ss[j]) ==> avg <= ss[j].value.mtOffAvg && (j < i ==> avg < ss[j].value.mtOffAvg)
  }

  ghost predicate FirstGreatest(ss: seq<Option<StreamView>>, n: nat, i: nat, avg: int)
    requires n <= |ss|
  {
    && i < n && Active(ss[i]) && ss[i].value.mtOffAvg == avg
    && forall j :: 0 <= j < n && Active(ss[j]) ==> ss[j].value.mtOffAvg <= avg && (j < i ==> ss[j].value.mtOffAvg < avg)
  }

  /** Streams with full filters have no bias: of those the first with the least average is the
      earliest, and the first with the greatest is the latest. */
  lemma {:induction false} FullStreamsInOrder(ss: seq<Option<StreamView>>, n: nat)
    requires n <= |ss| && StreamsOk(ss)
    requires forall j :: 0 <= j < n && Active(ss[j]) ==> |ss[j].value.avg.window| == ss[j].value.avg.length
    ensures var p := Scan(ss, n);
            && (p.min.Some? ==> FirstLeast(ss, n, p.min.value, p.avgMin))
            && (p.max.Some? ==> FirstGreatest(ss, n, p.max.value, p.avgMax))
  {
    if n > 0 {
      FullStreamsInOrder(ss, n - 1);
      ScanSelects(ss, n - 1);
      if Active(ss[n - 1]) { BiasNonNegative(ss[n - 1].value); }
      forall j | 0 <= j < n - 1 && Active(ss[j])
        ensures Scan(ss, n - 1).avgMin <= ss[j].value.mtOffAvg <= Scan(ss, n - 1).avgMax
      {
        assert BeatsStream(Scan(ss, n - 1), ss[j]);
        BiasNonNegative(ss[j].value);
      }
    }
  }

  // ---------------------------------------------------------------- what makes it start again

  /** A stream without any history. */
  predicate AsNew(s: StreamView) {
    1 <= s.avg.length <= MAX_FILTER_LENGTH && s.std.length == s.avg.length && s == NewStream(s.id, s.avg.length)
  }

  predicate AllNew(ss: seq<Option<StreamView>>) {
    forall i :: 0 <= i < |ss| && ss[i].Some? ==> AsNew(ss[i].value)
  }

  /** Everything is forgotten but the clock's offset, which stays until the clock starts again. */
  ghost predicate StartedOver(c: Component, d: Component) {
    && |d.streams| == |c.streams| && AllNew(d.streams)
    && (forall i :: 0 <= i < |c.streams| && c.streams[i].Some? ==>
          d.streams[i].Some? && d.streams[i].value.id == c.streams[i].value.id && d.streams[i].value.avg.length == c.streams[i].value.avg.length)
    && d.ctrl.discont && d.ctrl == c.ctrl.(discont := true, latency := d.ctrl.latency)
    && d.filterLength == c.filterLength
  }

  lemma RebasedStartsOver(c: Component)
    requires ComponentOk(c)
    ensures StartedOver(c, Rebased(c))
    ensures var d := Rebased(c);
            d.ctrl.latency == c.ctrl.latency && d.discontThreshold == c.discontThreshold && d.scale == c.scale && d.pendingScale == c.pendingScale
  {
  }

  /** A jump of a port's times makes the clock start over. */
  predicate JumpsAt(c: Component, port: nat, stc: int, pts: int)
    requires port < |c.streams|
  {
    && pts != TIME_UNKNOWN && c.streams[port].Some? && c.streams[port].value.started
    && (Abs(pts - c.streams[port].value.pts) > c.discontThreshold || Abs(stc - c.streams[port].value.stc) > c.discontThreshold)
  }

  lemma JumpStartsOver(c: Component, port: nat, stc: int, pts: int)
    requires ComponentSane(c) && port < |c.streams| && Plausible(stc) && (pts == TIME_UNKNOWN || Plausible(pts))
    ensures InputEvent(c, port, stc, pts) == Discontinuity <==> JumpsAt(c, port, stc, pts)
    ensures JumpsAt(c, port, stc, pts) ==>
              var d := Process(c, InputInfo(port, stc, pts));
              && StartedOver(c, d) && d.ctrl.latency == c.ctrl.latency
              && d.discontThreshold == c.discontThreshold && d.scale == c.scale && d.pendingScale == c.pendingScale
  {
    if JumpsAt(c, port, stc, pts) {
      RebasedStartsOver(c);
      assert WithInput(c, port, stc, pts) == c by { assert c.streams[port := c.streams[port]] == c.streams; }
    }
  }

  /** And so does a new latency setting, which holds from then on. */
  lemma LatencyStartsOver(c: Component, l: Latency)
    requires ComponentOk(c) && l.attackPeriod > 0
    ensures var d := Process(c, LatencyChange(l));
            && StartedOver(c, d) && d.ctrl.latency == l
            && d.discontThreshold == c.discontThreshold && d.scale == c.scale && d.pendingScale == c.pendingScale
  {
    RebasedStartsOver(c.(ctrl := c.ctrl.(latency := l)));
  }

  /** Equal rates; a rate of 0 differs from every other. */
  predicate SameRate(a: Rational, b: Rational) {
    (a.num == 0 <==> b.num == 0) && a.num * b.den == b.num * a.den
  }

  lemma RationalEqualIs(a: Rational, b: Rational)
    ensures RationalEqual(a, b) <==> SameRate(a, b)
  {
    if a.num == 0 { assert a.num * b.num == 0; }
    if b.num == 0 { assert a.num * b.num == 0; }
    if a.num != 0 && b.num != 0 { NonZeroProduct(a.num, b.num); }
  }

  lemma NonZeroProduct(a: int, b: int)
    requires a != 0 && b != 0
    ensures a * b != 0
  {
    if a > 0 && b > 0 { MulMono(1, a, b); }
    else if a > 0 { MulMono(1, a, -b); assert a * -b == -(a * b); }
    else if b > 0 { MulMono(1, -a, b); assert -a * b == -(a * b); }
    else { MulMono(1, -a, -b); assert -a * -b == a * b; }
  }

  /** A new discontinuity threshold holds from then on, and changes nothing else; nor do the events
      that are only passed on. */
  lemma ThresholdChanges(c: Component, t: int)
    requires ComponentOk(c)
    ensures var d := Process(c, DiscontThreshold(t)); d.discontThreshold == t && d == c.(discontThreshold := t)
    ensures Process(c, Other) == c
  {
  }

  /** Pausing takes effect at once and changes nothing else. Resuming at normal speed, when that is
      a change, makes the clock start over and waits for the next update; other speeds are
      ignored. */
  lemma ScaleChanges(c: Component, s: Rational)
    requires ComponentOk(c)
    ensures var d := Process(c, ScaleChange(s));
            && (s.num == 0 ==> d == c.(scale := s, pendingScale := false))
            && (s.num != 0 && s.num == s.den && !RationalEqual(c.scale, s) ==>
                  StartedOver(c, d) && d.scale == s && d.pendingScale && d.ctrl.latency == c.ctrl.latency && d.discontThreshold == c.discontThreshold)
            && (s.num != 0 && (s.num != s.den || RationalEqual(c.scale, s)) ==> d == c)
  {
    RebasedStartsOver(c.(scale := s, pendingScale := true));
  }
}
