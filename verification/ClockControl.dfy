/** The clock component's control loop: stream selection and the rate-limited adjustment. */
module ClockControl {
  import opened CInt
  import opened Wrappers
  import opened MovingAverage
  import opened ClockStream

  const ONE: int := 1_048_576  // 1 << 20

  datatype Latency = Latency(target: int, attackPeriod: int, attackRate: int)

  datatype Control = Control(
    discont: bool, streamMinId: nat, streamMaxId: nat,
    mtOffTarget: int, mtOffClk: int,
    adjP: int, adjM: int, adj: int,
    stcAtUpdate: int,
    frameDuration: int, frameRateLog2: nat,
    latency: Latency,
    mediaTime: int)  // the media time last given to the clock ports

  // ---------------------------------------------------------------- the adjustment

  function ConfidenceFactor(std: int, frameRateLog2: nat): int {
    Max(ONE - ShiftRight(std * Pow2(frameRateLog2), 4), 0)
  }

  function RateLimit(gap: int, cap: int): int {
    if gap < -cap then -cap else if gap > cap then cap else gap
  }

  /** Scale the proportional adjustment by the confidence and by how full the filter is. */
  function Modulate(adjP: int, adjM: int, count: nat, length: nat): int
    requires length > 0
  {
    ShiftRight(DivTrunc(ShiftRight(adjP * adjM, ONE) * (count * 256), length), 256)
  }

  function AdjustmentCap(stc: int, stcPrev: int, latency: Latency): int
    requires latency.attackPeriod > 0
  {
    var delta := if stc > stcPrev then stc - stcPrev else 0;
    DivTrunc(delta * latency.attackRate, latency.attackPeriod)
  }

  lemma ShiftShrinks(p: int, m: int)
    requires 0 <= m <= ONE
    ensures p >= 0 ==> 0 <= ShiftRight(p * m, ONE) <= p
    ensures p <= 0 ==> p <= ShiftRight(p * m, ONE) <= 0
    ensures p < 0 && m > 0 ==> ShiftRight(p * m, ONE) < 0
    ensures m == ONE ==> ShiftRight(p * m, ONE) == p
  {
    if p >= 0 {
      MulMono(m, ONE, p);
      MulMono(0, p, m);
    } else {
      MulMono(m, ONE, -p);
      MulMono(0, -p, m);
      assert -p * m == -(p * m);
      if m > 0 {
        MulMono(1, -p, m);
        assert p * m <= -1;
      }
    }
  }

  lemma ShareOfMagnitude(a: nat, count: nat, length: nat)
    requires count <= length && 0 < length
    ensures var q := (a * (count * 256)) / length;
            && 0 <= q <= a * 256
            && (count == length ==> q == a * 256)
            && (q < 256 <==> a * count < length)
            && (a > 0 && count > 0 && length <= 256 ==> q >= 1)
  {
    var n := a * (count * 256);
    assert n == (a * count) * 256 && n == count * (a * 256);
    MulMono(count, length, a * 256);
    DivAtMost(n, length, a * 256) by { assert n <= (a * 256) * length; }
    MulMono(0, a, count);
    DivAtLeast(n, length, 0) by { assert 0 * length == 0; }
    if count == length {
      DivAtLeast(n, length, a * 256) by { assert (a * 256) * length == n; }
    }
    if a * count < length {
      DivBelow(n, length, 256) by { assert n < 256 * length; }
    } else {
      DivAtLeast(n, length, 256) by { assert 256 * length <= n; }
    }
    if a > 0 && count > 0 && length <= 256 {
      MulMono(1, a, count);
      DivAtLeast(n, length, 1) by { assert 1 * length <= n; }
    }
  }

  /** The second half of the modulation is a division of adj * count by length, rounded down
      above zero and, below zero, rounded by truncation and then by flooring. */
  lemma ShareShrinks(a: int, count: nat, length: nat)
    requires count <= length && 0 < length
    ensures var r := ShiftRight(DivTrunc(a * (count * 256), length), 256);
            && (a >= 0 ==> 0 <= r <= a)
            && (a <= 0 ==> a <= r <= 0)
            && (count == length ==> r == a)
            && (a > 0 ==> (r == 0 <==> a * count < length))
            && (a < 0 && count > 0 && length <= 256 ==> r < 0)
  {
    var n := a * (count * 256);
    if a >= 0 {
      ShareOfMagnitude(a, count, length);
      MulMono(0, a, count * 256);
    } else {
      ShareOfMagnitude(-a, count, length);
      MulMono(0, -a, count * 256);
      assert -a * (count * 256) == -n;
      assert DivTrunc(n, length) == -((-n) / length);
    }
  }

  /** The modulated adjustment never exceeds the proportional one and never changes its sign. */
  lemma ModulateShrinks(p: int, m: int, count: nat, length: nat)
    requires 0 <= m <= ONE && count <= length && 0 < length
    ensures p >= 0 ==> 0 <= Modulate(p, m, count, length) <= p
    ensures p <= 0 ==> p <= Modulate(p, m, count, length) <= 0
    ensures m == ONE && count == length ==> Modulate(p, m, count, length) == p
  {
    ShiftShrinks(p, m);
    ShareShrinks(ShiftRight(p * m, ONE), count, length);
  }

  /** Exactly when an update leaves the clock where it is. Flooring makes every downward
      correction move by at least one; small upward corrections can be lost entirely. */
  lemma StallsExactlyWhen(p: int, m: int, count: nat, length: nat)
    requires 0 <= m <= ONE && 0 < count <= length <= 256
    ensures Modulate(p, m, count, length) == 0 <==>
            p == 0 || m == 0 || (p > 0 && ShiftRight(p * m, ONE) * count < length)
  {
    ShiftShrinks(p, m);
    ShareShrinks(ShiftRight(p * m, ONE), count, length);
  }

  /** The clock offset after one update towards `target`. */
  function Move(clk: int, target: int, cap: int, m: int, count: nat, length: nat): int
    requires length > 0
  {
    clk + Modulate(RateLimit(target - clk, cap), m, count, length)
  }

  /** No overshoot: the new offset lies between the old one and the target, inclusive,
      and no further from the old one than the cap. */
  lemma NoOvershoot(clk: int, target: int, cap: int, m: int, count: nat, length: nat)
    requires 0 <= m <= ONE && count <= length && 0 < length && cap >= 0
    ensures Min(clk, target) <= Move(clk, target, cap, m, count, length) <= Max(clk, target)
    ensures Abs(Move(clk, target, cap, m, count, length) - clk) <= cap
    ensures Abs(target - Move(clk, target, cap, m, count, length)) <= Abs(target - clk)
  {
    ModulateShrinks(RateLimit(target - clk, cap), m, count, length);
  }

  function SumCaps(caps: seq<nat>): nat {
    if caps == [] then 0 else caps[0] + SumCaps(caps[1..])
  }

  /** Successive updates towards a fixed target, at the same confidence and filter fill. */
  function MoveAll(clk: int, target: int, caps: seq<nat>, m: int, count: nat, length: nat): int
    requires length > 0
    decreases caps
  {
    if caps == [] then clk
    else MoveAll(Move(clk, target, caps[0], m, count, length), target, caps[1..], m, count, length)
  }

  /** At full confidence and with full filters the distance to a fixed target falls by exactly
      the allowed amount, so the clock locks as soon as the caps add up to the initial distance. */
  lemma {:induction false} LocksOnSchedule(clk: int, target: int, caps: seq<nat>, length: nat)
    requires length > 0
    ensures Abs(target - MoveAll(clk, target, caps, ONE, length, length)) == Max(Abs(target - clk) - SumCaps(caps), 0)
    decreases caps
  {
    if caps != [] {
      var next := Move(clk, target, caps[0], ONE, length, length);
      ModulateShrinks(RateLimit(target - clk, caps[0]), ONE, length, length);
      assert Abs(target - next) == Max(Abs(target - clk) - caps[0], 0);
      LocksOnSchedule(next, target, caps[1..], length);
    }
  }

  /** The gaps below the target that updates with this cap do not close. */
  predicate Lost(gap: int, cap: int, m: int, count: nat, length: nat) {
    ShiftRight(Min(gap, cap) * m, ONE) * count < length
  }

  lemma LostBelow(gap: int, cap: int, gap': int, cap': int, m: int, count: nat, length: nat)
    requires 0 <= m && Lost(gap, cap, m, count, length) && gap' <= gap && cap' <= cap
    ensures Lost(gap', cap', m, count, length)
  {
    var p, p' := Min(gap, cap), Min(gap', cap');
    MulMono(p', p, m);
    assert ShiftRight(p' * m, ONE) <= ShiftRight(p * m, ONE);
    MulMono(ShiftRight(p' * m, ONE), ShiftRight(p * m, ONE), count);
  }

  /** One update towards a target below closes at least one microsecond of the gap. */
  lemma {:induction false} LocksFromAbove(clk: int, target: int, caps: seq<nat>, m: int, count: nat, length: nat)
    requires 0 < m <= ONE && 0 < count <= length <= 256 && target <= clk
    requires forall i :: 0 <= i < |caps| ==> caps[i] > 0
    ensures target <= MoveAll(clk, target, caps, m, count, length) <= Max(clk - |caps|, target)
    decreases caps
  {
    if caps != [] {
      NoOvershoot(clk, target, caps[0], m, count, length);
      StallsExactlyWhen(RateLimit(target - clk, caps[0]), m, count, length);
      LocksFromAbove(Move(clk, target, caps[0], m, count, length), target, caps[1..], m, count, length);
    }
  }

  lemma {:induction false} ClimbsUntilLost(clk: int, target: int, caps: seq<nat>, c: int, m: int, count: nat, length: nat)
    requires 0 < m <= ONE && 0 < count <= length <= 256 && clk <= target
    requires forall i :: 0 <= i < |caps| ==> c <= caps[i]
    ensures var z := MoveAll(clk, target, caps, m, count, length);
            && clk <= z <= target
            && (Lost(target - z, c, m, count, length) || clk + |caps| <= z)
    decreases caps
  {
    if caps != [] {
      var next := Move(clk, target, caps[0], m, count, length);
      NoOvershoot(clk, target, caps[0], m, count, length);
      StallsExactlyWhen(RateLimit(target - clk, caps[0]), m, count, length);
      ClimbsUntilLost(next, target, caps[1..], c, m, count, length);
      if next == clk {
        assert Lost(target - clk, caps[0], m, count, length);
        LostBelow(target - clk, caps[0], target - MoveAll(clk, target, caps, m, count, length), c, m, count, length);
      }
    }
  }

  /** Where the clock comes to rest at any fixed confidence and filter fill, after as many updates
      as the initial distance, each allowed to move by at least c: from above exactly at the
      target; from below at the target or within the band of gaps that rounding loses. */
  lemma Settles(clk: int, target: int, caps: seq<nat>, c: nat, m: int, count: nat, length: nat)
    requires 0 < m <= ONE && 0 < count <= length <= 256 && 0 < c
    requires |caps| >= Abs(target - clk) && forall i :: 0 <= i < |caps| ==> c <= caps[i]
    ensures var z := MoveAll(clk, target, caps, m, count, length);
            && (target <= clk ==> z == target)
            && (clk < target ==> clk <= z <= target && (z == target || Lost(target - z, c, m, count, length)))
  {
    if target <= clk {
      LocksFromAbove(clk, target, caps, m, count, length);
    } else {
      ClimbsUntilLost(clk, target, caps, c, m, count, length);
    }
  }

  /** And there it stays: an update with cap c leaves the clock where it is exactly at the target
      and, below it, in that band. */
  lemma RestsExactlyWhen(clk: int, target: int, c: nat, m: int, count: nat, length: nat)
    requires 0 < m <= ONE && 0 < count <= length <= 256 && 0 < c
    ensures Move(clk, target, c, m, count, length) == clk <==>
            clk == target || (clk < target && Lost(target - clk, c, m, count, length))
  {
    StallsExactlyWhen(RateLimit(target - clk, c), m, count, length);
  }

  // ---------------------------------------------------------------- stream selection

  /** Running minimum and maximum of the scan: stream indices and their unbiased averages. */
  datatype Pick = Pick(min: Option<nat>, avgMin: int, max: Option<nat>, avgMax: int)

  /** A penalty for filters that are not full. */
  function AverageBias(length: nat, count: nat, avg: int): int
    requires length > 0
  {
    DivTrunc((length - count) * Abs(avg), length)
  }

  function Bias(s: StreamView): int
    requires StreamOk(s)
  {
    AverageBias(s.avg.length, |s.avg.window|, s.mtOffAvg)
  }

  predicate Active(s: Option<StreamView>) {
    s.Some? && s.value.avg.window != []
  }

  function Consider(p: Pick, i: nat, avg: int, bias: int): Pick {
    var q := if avg + bias < p.avgMin then p.(min := Some(i), avgMin := avg) else p;
    if avg - bias > q.avgMax then q.(max := Some(i), avgMax := avg) else q
  }

  function ConsiderOne(p: Pick, i: nat, s: Option<StreamView>): Pick
    requires s.Some? ==> StreamOk(s.value)
  {
    if Active(s) then Consider(p, i, s.value.mtOffAvg, Bias(s.value)) else p
  }

  predicate StreamsOk(ss: seq<Option<StreamView>>) {
    forall i :: 0 <= i < |ss| && ss[i].Some? ==> StreamOk(ss[i].value)
  }

  function Scan(ss: seq<Option<StreamView>>, n: nat): Pick
    requires n <= |ss| && StreamsOk(ss)
  {
    if n == 0 then Pick(None, MAX_TIME, None, MIN_TIME)
    else
      ConsiderOne(Scan(ss, n - 1), n - 1, ss[n - 1])
  }

  predicate PickedIn(ss: seq<Option<StreamView>>, o: Option<nat>, avg: int) {
    o.Some? ==> o.value < |ss| && Active(ss[o.value]) && ss[o.value].value.mtOffAvg == avg
  }

  lemma BiasNonNegative(s: StreamView)
    requires StreamOk(s)
    ensures Bias(s) >= 0
    ensures |s.avg.window| == s.avg.length ==> Bias(s) == 0
  {
    MulMono(0, s.avg.length - |s.avg.window|, Abs(s.mtOffAvg));
    DivAtLeast((s.avg.length - |s.avg.window|) * Abs(s.mtOffAvg), s.avg.length, 0);
  }

  /** The pick is at least as good as a stream with this average and bias. */
  predicate Beats(p: Pick, avg: int, bias: int) {
    && p.avgMin <= avg + bias
    && avg - bias <= p.avgMax
    && (avg + bias < MAX_TIME ==> p.min.Some?)
    && (MIN_TIME < avg - bias ==> p.max.Some?)
  }

  predicate BeatsStream(p: Pick, s: Option<StreamView>)
    requires s.Some? ==> StreamOk(s.value)
  {
    Active(s) ==> Beats(p, s.value.mtOffAvg, Bias(s.value))
  }

  predicate PickOk(ss: seq<Option<StreamView>>, n: nat, p: Pick) {
    && (if p.min.Some? then p.min.value < n && PickedIn(ss, p.min, p.avgMin) && p.avgMin < MAX_TIME else p.avgMin == MAX_TIME)
    && (if p.max.Some? then p.max.value < n && PickedIn(ss, p.max, p.avgMax) && p.avgMax > MIN_TIME else p.avgMax == MIN_TIME)
  }

  lemma ConsiderKeepsBeating(p: Pick, i: nat, avg: int, bias: int, avg': int, bias': int)
    requires bias >= 0 && p.avgMin <= MAX_TIME && MIN_TIME <= p.avgMax
    requires p.min.None? ==> p.avgMin == MAX_TIME
    requires p.max.None? ==> p.avgMax == MIN_TIME
    ensures Beats(Consider(p, i, avg, bias), avg, bias)
    ensures Beats(p, avg', bias') ==> Beats(Consider(p, i, avg, bias), avg', bias')
  {
  }

  /** The selected minimum is at or below every active stream's average plus its bias - in
      particular below every full stream - and symmetrically for the maximum; something is
      selected as soon as one active stream is in range, and only active streams are selected. */
  lemma {:induction false} ScanSelects(ss: seq<Option<StreamView>>, n: nat)
    requires n <= |ss| && StreamsOk(ss)
    ensures PickOk(ss, n, Scan(ss, n))
    ensures forall j :: 0 <= j < n ==> BeatsStream(Scan(ss, n), ss[j])
  {
    if n > 0 {
      ScanSelects(ss, n - 1);
      if Active(ss[n - 1]) {
        var p, s := Scan(ss, n - 1), ss[n - 1].value;
        BiasNonNegative(s);
        forall j | 0 <= j < n ensures BeatsStream(Scan(ss, n), ss[j]) {
          if Active(ss[j]) {
            ConsiderKeepsBeating(p, n - 1, s.mtOffAvg, Bias(s), ss[j].value.mtOffAvg, Bias(ss[j].value));
          }
        }
      }
    }
  }

  lemma ScanPicks(ss: seq<Option<StreamView>>, n: nat)
    requires n <= |ss| && StreamsOk(ss)
    ensures PickOk(ss, n, Scan(ss, n))
  {
    ScanSelects(ss, n);
  }

  // ---------------------------------------------------------------- one control update

  function Restart(c: Control, stc: int, min: StreamView): Control {
    var offset := min.mtOffAvg - c.latency.target;
    c.(discont := false, mtOffClk := offset, mtOffTarget := offset, mediaTime := offset + stc)
  }

  function Target(c: Control, min: StreamView, max: StreamView): int {
    Min(max.mtOffAvg - c.latency.target, min.mtOffAvg - c.frameDuration)
  }

  function Adjust(c: Control, stc: int, stcPrev: int, min: StreamView, max: StreamView): Control
    requires c.latency.attackPeriod > 0 && StreamOk(min)
  {
    var target := Target(c, min, max);
    var adjP := RateLimit(target - c.mtOffClk, AdjustmentCap(stc, stcPrev, c.latency));
    var adjM := ConfidenceFactor(min.mtOffStd, c.frameRateLog2);
    var adj := Modulate(adjP, adjM, |min.avg.window|, min.avg.length);
    c.(mtOffTarget := target, adjP := adjP, adjM := adjM, adj := adj,
       mtOffClk := c.mtOffClk + adj, mediaTime := c.mtOffClk + adj + stc)
  }

  function ControlStep(c: Control, stc: int, min: StreamView, max: StreamView): (d: Control)
    requires c.latency.attackPeriod > 0 && StreamOk(min)
    ensures d.latency == c.latency
  {
    var d := c.(streamMinId := min.id, streamMaxId := max.id, stcAtUpdate := stc);
    if c.discont then Restart(d, stc, min) else Adjust(d, stc, c.stcAtUpdate, min, max)
  }

  lemma ConfidenceInUnit(std: int, frameRateLog2: nat)
    requires std >= 0
    ensures 0 <= ConfidenceFactor(std, frameRateLog2) <= ONE
    ensures ConfidenceFactor(std, frameRateLog2) == ONE <==> std * Pow2(frameRateLog2) < 4
    ensures ConfidenceFactor(std, frameRateLog2) == 0 <==> std * Pow2(frameRateLog2) >= 4 * ONE
  {
    MulMono(0, std, Pow2(frameRateLog2));
  }

  lemma CapBounded(stc: int, stcPrev: int, latency: Latency)
    requires latency.attackPeriod > 0 && latency.attackRate >= 0
    ensures AdjustmentCap(stc, stcPrev, latency) >= 0
    ensures stc >= stcPrev ==>
              AdjustmentCap(stc, stcPrev, latency) * latency.attackPeriod <= (stc - stcPrev) * latency.attackRate
  {
    var delta := if stc > stcPrev then stc - stcPrev else 0;
    MulMono(0, delta, latency.attackRate);
    DivAtLeast(delta * latency.attackRate, latency.attackPeriod, 0);
    var n, p := delta * latency.attackRate, latency.attackPeriod;
    assert n == (n / p) * p + n % p;
  }

  /** One update without a discontinuity: the target is the largest offset that leaves the
      latest stream its latency and the earliest one a frame; the clock stays between its old
      offset and the target and moves by at most the rate limit, whatever the spread. */
  lemma StepBounded(c: Control, stc: int, min: StreamView, max: StreamView)
    requires c.latency.attackPeriod > 0 && c.latency.attackRate >= 0
    requires !c.discont && Sane(min)
    ensures var d := ControlStep(c, stc, min, max);
            && Min(c.mtOffClk, d.mtOffTarget) <= d.mtOffClk <= Max(c.mtOffClk, d.mtOffTarget)
            && Abs(d.mtOffClk - c.mtOffClk) <= AdjustmentCap(stc, c.stcAtUpdate, c.latency)
            && d.mediaTime == d.mtOffClk + stc
            && d.mtOffTarget <= max.mtOffAvg - c.latency.target
            && d.mtOffTarget <= min.mtOffAvg - c.frameDuration
            && (d.mtOffTarget == max.mtOffAvg - c.latency.target || d.mtOffTarget == min.mtOffAvg - c.frameDuration)
  {
    var cap := AdjustmentCap(stc, c.stcAtUpdate, c.latency);
    ConfidenceInUnit(min.mtOffStd, c.frameRateLog2);
    CapBounded(stc, c.stcAtUpdate, c.latency);
    NoOvershoot(c.mtOffClk, Target(c, min, max), cap, ConfidenceFactor(min.mtOffStd, c.frameRateLog2),
                |min.avg.window|, min.avg.length);
  }
}
