/** Per-stream timing state of the clock component. */
module ClockStream {
  import opened CInt
  import opened MovingAverage

  datatype StreamEvent = NoEvent | Started | Discontinuity | FrameComplete

  datatype StreamView = StreamView(
    id: nat, started: bool, pts: int, stc: int,
    mtOff: int, mtOffAvg: int, mtOffStd: int,
    avg: Ring, std: Ring)

  /** The average is read through the cached sum of both filters, so their cursors must agree. */
  predicate StreamOk(s: StreamView) {
    RingOk(s.avg) && RingOk(s.std) && SameCursors(s.avg, s.std)
  }

  function NewStream(id: nat, length: nat): StreamView
    requires length > 0
  {
    StreamView(id, false, 0, 0, 0, 0, 0, InitRing(length), InitRing(length))
  }

  function ResetStream(s: StreamView): StreamView
    requires StreamOk(s)
  {
    StreamView(s.id, false, 0, 0, 0, 0, 0, InitRing(s.avg.length), InitRing(s.std.length))
  }

  /** ABS of an int64 difference. */
  function AbsDelta(a: int, b: int): int {
    Wrap(Abs(Wrap(a - b)))
  }

  function InsertOffset(s: StreamView): StreamView
    requires StreamOk(s)
  {
    var mtOff := Wrap(s.pts - s.stc);
    var avg := InsertRing(s.avg, mtOff);
    var mtOffAvg := Average(avg);
    var std := InsertRing(s.std, AbsDelta(mtOff, mtOffAvg));
    s.(mtOff := mtOff, avg := avg, mtOffAvg := mtOffAvg, std := std, mtOffStd := Average(std))
  }

  function UpdateStream(s: StreamView, stc: int, pts: int, threshold: int): (StreamView, StreamEvent)
    requires StreamOk(s)
  {
    if pts == TIME_UNKNOWN then (s, NoEvent)
    else if !s.started then (s.(started := true, pts := pts, stc := stc), Started)
    else if AbsDelta(pts, s.pts) > threshold || AbsDelta(stc, s.stc) > threshold then (s, Discontinuity)
    else if Wrap(pts - s.pts) != 0 then (InsertOffset(s).(pts := pts, stc := stc), FrameComplete)
    else (s.(pts := pts, stc := stc), NoEvent)
  }

  /** Drop or discard samples that have become too old by wall time `stc`. */
  function ExpireSamples(s: StreamView, stc: int, dropThreshold: int, resetThreshold: int): StreamView
    requires StreamOk(s)
  {
    var delta := Wrap(stc - s.stc);
    if delta > resetThreshold then s.(avg := InitRing(s.avg.length), std := InitRing(s.std.length))
    else if delta > dropThreshold then s.(avg := DropRing(s.avg), std := DropRing(s.std))
    else s
  }

  /** Refresh the averages; only the first filter is tested for emptiness. */
  function Refresh(s: StreamView): StreamView
    requires StreamOk(s)
  {
    if s.avg.window == [] then s
    else s.(mtOffAvg := Average(s.avg), mtOffStd := Average(s.std))
  }

  lemma ExpireKeepsStream(s: StreamView, stc: int, dropThreshold: int, resetThreshold: int)
    requires StreamOk(s)
    ensures StreamOk(ExpireSamples(s, stc, dropThreshold, resetThreshold))
  {
    DropKeepsRing(s.avg);
    DropKeepsRing(s.std);
  }

  function AgeStream(s: StreamView, stc: int, dropThreshold: int, resetThreshold: int): (r: StreamView)
    requires StreamOk(s)
    ensures StreamOk(r)
  {
    ExpireKeepsStream(s, stc, dropThreshold, resetThreshold);
    Refresh(ExpireSamples(s, stc, dropThreshold, resetThreshold))
  }

  // ---------------------------------------------------------------- whole runs

  datatype StreamOp =
    | Update(stc: int, pts: int, threshold: int)
    | Age(stc: int, dropThreshold: int, resetThreshold: int)
    | Rebase

  function ApplyStream(s: StreamView, op: StreamOp): (r: StreamView)
    requires StreamOk(s)
  {
    match op
    case Update(stc, pts, threshold) => UpdateStream(s, stc, pts, threshold).0
    case Age(stc, drop, reset) => AgeStream(s, stc, drop, reset)
    case Rebase => ResetStream(s)
  }

  lemma InsertOffsetKeepsStream(s: StreamView)
    requires StreamOk(s)
    ensures StreamOk(InsertOffset(s))
  {
    InsertKeepsRing(s.avg, InsertOffset(s).mtOff);
    InsertKeepsRing(s.std, AbsDelta(InsertOffset(s).mtOff, InsertOffset(s).mtOffAvg));
  }

  lemma ApplyKeepsStream(s: StreamView, op: StreamOp)
    requires StreamOk(s)
    ensures StreamOk(ApplyStream(s, op))
  {
    InsertOffsetKeepsStream(s);
  }

  ghost function RunStream(id: nat, length: nat, ops: seq<StreamOp>): (s: StreamView)
    requires 1 <= length <= MAX_FILTER_LENGTH
    ensures StreamOk(s)
  {
    if ops == [] then NewStream(id, length)
    else
      var s := RunStream(id, length, ops[..|ops| - 1]);
      ApplyKeepsStream(s, ops[|ops| - 1]);
      ApplyStream(s, ops[|ops| - 1])
  }

  /** Time-stamps within about 285 years of zero, in microseconds: 180 deviations of such
      stamps still add up below 2^63, so no sum saturates and no difference wraps. */
  const TIME_LIMIT: int := 0x20_0000_0000_0000

  predicate Plausible(t: int) {
    -TIME_LIMIT <= t <= TIME_LIMIT
  }

  predicate SamplesBetween(w: seq<int>, lo: int, hi: int) {
    forall i :: 0 <= i < |w| ==> lo <= w[i] <= hi
  }

  predicate Sane(s: StreamView) {
    && StreamOk(s)
    && Plausible(s.pts) && Plausible(s.stc)
    && Exact(s.avg) && SamplesBetween(s.avg.window, -2 * TIME_LIMIT, 2 * TIME_LIMIT)
    && Exact(s.std) && SamplesBetween(s.std.window, 0, 4 * TIME_LIMIT)
    && s.mtOffStd >= 0
  }

  predicate SampleLimits(lo: int, hi: int) {
    -4 * TIME_LIMIT <= lo <= 0 <= hi <= 4 * TIME_LIMIT
  }

  lemma SmallTotal(w: seq<int>, lo: int, hi: int)
    requires |w| <= MAX_FILTER_LENGTH && SamplesBetween(w, lo, hi) && SampleLimits(lo, hi)
    ensures InRange(Total(w))
  {
    TotalBetween(w, lo, hi);
    MulMono(|w|, 180, hi);
    MulMono(|w|, 180, -lo);
    assert |w| * -lo == -(|w| * lo);
  }

  lemma DropStaysSane(r: Ring, lo: int, hi: int)
    requires RingOk(r) && Exact(r) && SamplesBetween(r.window, lo, hi) && SampleLimits(lo, hi)
    ensures Exact(DropRing(r)) && SamplesBetween(DropRing(r).window, lo, hi)
  {
    SmallTotal(DropRing(r).window, lo, hi);
  }

  lemma InsertStaysSane(r: Ring, sample: int, lo: int, hi: int)
    requires RingOk(r) && Exact(r) && SamplesBetween(r.window, lo, hi) && SampleLimits(lo, hi)
    requires lo <= sample <= hi
    ensures InRange(sample)
    ensures var r' := InsertRing(r, sample);
            && Exact(r') && SamplesBetween(r'.window, lo, hi)
            && r'.window != [] && lo <= Average(r') <= hi
  {
    DropStaysSane(r, lo, hi);
    var r' := InsertRing(r, sample);
    SmallTotal(r'.window, lo, hi);
    InsertExact(r, sample);
    AverageBetween(r', lo, hi);
  }

  lemma InsertOffsetStaysSane(s: StreamView)
    requires Sane(s)
    ensures Sane(InsertOffset(s))
  {
    InsertOffsetKeepsStream(s);
    var mtOff := s.pts - s.stc;
    InsertStaysSane(s.avg, mtOff, -2 * TIME_LIMIT, 2 * TIME_LIMIT);
    var avg := Average(InsertRing(s.avg, mtOff));
    InsertStaysSane(s.std, Abs(mtOff - avg), 0, 4 * TIME_LIMIT);
  }

  lemma AgeStaysSane(s: StreamView, stc: int, dropThreshold: int, resetThreshold: int)
    requires Sane(s)
    ensures Sane(AgeStream(s, stc, dropThreshold, resetThreshold))
  {
    DropStaysSane(s.avg, -2 * TIME_LIMIT, 2 * TIME_LIMIT);
    DropStaysSane(s.std, 0, 4 * TIME_LIMIT);
    var e := ExpireSamples(s, stc, dropThreshold, resetThreshold);
    if e.avg.window != [] {
      AverageBetween(e.std, 0, 4 * TIME_LIMIT);
    }
  }

  predicate PlausibleOp(op: StreamOp) {
    op.Update? && op.pts != TIME_UNKNOWN ==> Plausible(op.stc) && Plausible(op.pts)
  }

  lemma ApplyStaysSane(s: StreamView, op: StreamOp)
    requires Sane(s) && PlausibleOp(op)
    ensures Sane(ApplyStream(s, op))
  {
    match op
    case Update(stc, pts, threshold) => InsertOffsetStaysSane(s);
    case Age(stc, drop, reset) => AgeStaysSane(s, stc, drop, reset);
    case Rebase =>
  }

  /** Over every sequence of updates, ageings and rebasings the two filters of a stream keep the
      same cursors; with plausible time-stamps the deviation is never negative. */
  lemma {:induction false} Lockstep(id: nat, length: nat, ops: seq<StreamOp>)
    requires 1 <= length <= MAX_FILTER_LENGTH
    ensures SameCursors(RunStream(id, length, ops).avg, RunStream(id, length, ops).std)
    ensures (forall i :: 0 <= i < |ops| ==> PlausibleOp(ops[i])) ==>
              RunStream(id, length, ops).mtOffStd >= 0 && Sane(RunStream(id, length, ops))
  {
    if ops != [] && (forall i :: 0 <= i < |ops| ==> PlausibleOp(ops[i])) {
      Lockstep(id, length, ops[..|ops| - 1]);
      ApplyStaysSane(RunStream(id, length, ops[..|ops| - 1]), ops[|ops| - 1]);
    }
  }

  /** Six reports at wall time 0 whose time-stamps jump between the ends of the range. */
  const JUMPS: seq<int> := [MAX_TIME, -MAX_TIME, MAX_TIME, 0, 1, 2]

  function Reports(n: nat): seq<StreamOp>
    requires n <= |JUMPS|
  {
    if n == 0 then [] else Reports(n - 1) + [Update(0, JUMPS[n - 1], MAX_TIME)]
  }

  lemma ReportsStep(n: nat)
    requires 0 < n <= |JUMPS|
    ensures RunStream(0, 2, Reports(n)) == UpdateStream(RunStream(0, 2, Reports(n - 1)), 0, JUMPS[n - 1], MAX_TIME).0
  {
    assert Reports(n)[..|Reports(n)| - 1] == Reports(n - 1);
  }

  /** A report that is neither the first nor a discontinuity adds a sample to each filter. */
  lemma Inserts(s: StreamView, pts: int, avg: Ring, std: Ring)
    requires StreamOk(s) && s.started && s.stc == 0 && InRange(s.pts) && InRange(pts) && pts != TIME_UNKNOWN && pts != s.pts
    requires avg == InsertRing(s.avg, s.pts) && std == InsertRing(s.std, AbsDelta(s.pts, Average(avg)))
    ensures UpdateStream(s, 0, pts, MAX_TIME).0 == StreamView(s.id, true, pts, 0, s.pts, Average(avg), Average(std), avg, std)
  {
  }

  lemma FirstTwo(s: StreamView)
    requires s == StreamView(0, true, MAX_TIME, 0, 0, 0, 0, InitRing(2), InitRing(2))
    ensures var t := UpdateStream(UpdateStream(s, 0, -MAX_TIME, MAX_TIME).0, 0, MAX_TIME, MAX_TIME).0;
            && t.started && t.id == 0 && t.pts == MAX_TIME && t.stc == 0
            && t.avg == Ring(0, 1, 2, [MAX_TIME, -MAX_TIME], 0) && t.std == Ring(0, 1, 2, [0, MAX_TIME], MAX_TIME)
  {
    Inserts(s, -MAX_TIME, Ring(0, 0, 2, [MAX_TIME], MAX_TIME), Ring(0, 0, 2, [0], 0));
    var t := UpdateStream(s, 0, -MAX_TIME, MAX_TIME).0;
    Inserts(t, MAX_TIME, Ring(0, 1, 2, [MAX_TIME, -MAX_TIME], 0), Ring(0, 1, 2, [0, MAX_TIME], MAX_TIME));
  }

  /** The fourth report saturates the deviation's cached sum at half the total. */
  lemma NextTwo(s: StreamView)
    requires StreamOk(s) && s.started && s.pts == MAX_TIME && s.stc == 0
    requires s.avg == Ring(0, 1, 2, [MAX_TIME, -MAX_TIME], 0) && s.std == Ring(0, 1, 2, [0, MAX_TIME], MAX_TIME)
    ensures var t := UpdateStream(UpdateStream(s, 0, 0, MAX_TIME).0, 0, 1, MAX_TIME).0;
            && t.started && t.pts == 1 && t.stc == 0
            && t.avg == Ring(0, 1, 2, [MAX_TIME, 0], MAX_TIME)
            && t.std == Ring(0, 1, 2, [MAX_TIME, MAX_TIME / 2], MAX_TIME / 2)
  {
    Inserts(s, 0, Ring(1, 0, 2, [-MAX_TIME, MAX_TIME], 0), Ring(1, 0, 2, [MAX_TIME, MAX_TIME], MAX_TIME));
    var t := UpdateStream(s, 0, 0, MAX_TIME).0;
    assert AbsDelta(0, MAX_TIME / 2) == MAX_TIME / 2;
    Inserts(t, 1, Ring(0, 1, 2, [MAX_TIME, 0], MAX_TIME), Ring(0, 1, 2, [MAX_TIME, MAX_TIME / 2], MAX_TIME / 2));
  }

  lemma LastOne(s: StreamView)
    requires StreamOk(s) && s.started && s.pts == 1 && s.stc == 0
    requires s.avg == Ring(0, 1, 2, [MAX_TIME, 0], MAX_TIME)
    requires s.std == Ring(0, 1, 2, [MAX_TIME, MAX_TIME / 2], MAX_TIME / 2)
    ensures var t := UpdateStream(s, 0, 2, MAX_TIME).0;
            t.mtOffStd < 0 && t.std.window == [MAX_TIME / 2, 1] && t.std.sum == MAX_TIME / 2 - MAX_TIME + 1
  {
    Inserts(s, 2, Ring(1, 0, 2, [0, 1], 1), Ring(1, 0, 2, [MAX_TIME / 2, 1], MAX_TIME / 2 - MAX_TIME + 1));
  }

  /** Without the limit the deviation can become negative, in a run none of whose reports is
      rejected as a discontinuity: two samples saturate the cached sum, and when they have been
      dropped it is below zero. */
  lemma SaturationBreaksTheSum()
    ensures var s := RunStream(0, 2, Reports(6));
            s.mtOffStd < 0 && s.std.window == [MAX_TIME / 2, 1] && s.std.sum == MAX_TIME / 2 - MAX_TIME + 1
  {
    var n := 1;
    ReportsStep(n);
    FirstTwo(RunStream(0, 2, Reports(n)));
    ReportsStep(n + 1);
    ReportsStep(n + 2);
    NextTwo(RunStream(0, 2, Reports(n + 2)));
    ReportsStep(n + 3);
    ReportsStep(n + 4);
    LastOne(RunStream(0, 2, Reports(n + 4)));
    ReportsStep(n + 5);
  }

  // ---------------------------------------------------------------- the stream in place

  class Stream {
    const id: nat
    var started: bool
    var pts: int
    var stc: int
    var mtOff: int
    var mtOffAvg: int
    var mtOffStd: int
    const avgFilter: Filter
    const stdFilter: Filter

    ghost function Footprint(): set<object> {
      {this, avgFilter, avgFilter.h, stdFilter, stdFilter.h}
    }

    ghost predicate Valid()
      reads Footprint()
    {
      && avgFilter != stdFilter && avgFilter.h != stdFilter.h
      && avgFilter.Valid() && stdFilter.Valid()
      && SameCursors(avgFilter.View(), stdFilter.View())
    }

    ghost function View(): (s: StreamView)
      requires Valid()
      reads Footprint()
      ensures StreamOk(s)
    {
      StreamView(id, started, pts, stc, mtOff, mtOffAvg, mtOffStd, avgFilter.View(), stdFilter.View())
    }

    constructor (i: nat, filterLength: nat)
      requires 1 <= filterLength <= MAX_FILTER_LENGTH
      ensures Valid() && fresh(Footprint()) && View() == NewStream(i, filterLength)
    {
      id := i;
      started, pts, stc, mtOff, mtOffAvg, mtOffStd := false, 0, 0, 0, 0, 0;
      avgFilter := new Filter(filterLength);
      stdFilter := new Filter(filterLength);
    }

    method ResetFilters()
      requires Valid()
      modifies Footprint() - {this}
      ensures Valid()
      ensures View() == old(View()).(avg := InitRing(old(View()).avg.length), std := InitRing(old(View()).std.length))
    {
      avgFilter.Init(avgFilter.length);
      stdFilter.Init(stdFilter.length);
    }

    method Reset()
      requires Valid()
      modifies Footprint()
      ensures Valid() && View() == ResetStream(old(View()))
    {
      pts, stc, mtOff, mtOffAvg, mtOffStd := 0, 0, 0, 0, 0;
      started := false;
      ResetFilters();
    }

    method RecordOffset()
      requires Valid()
      modifies Footprint()
      ensures Valid() && View() == InsertOffset(old(View()))
    {
      InsertOffsetKeepsStream(View());
      mtOff := Wrap(pts - stc);
      avgFilter.InsertSample(mtOff);
      mtOffAvg := avgFilter.Mean();
      stdFilter.InsertSample(AbsDelta(mtOff, mtOffAvg));
      mtOffStd := stdFilter.Mean();
    }

    method Update(newStc: int, newPts: int, threshold: int) returns (event: StreamEvent)
      requires Valid()
      modifies Footprint()
      ensures Valid()
      ensures (View(), event) == UpdateStream(old(View()), newStc, newPts, threshold)
    {
      event := NoEvent;
      if newPts == TIME_UNKNOWN { return; }
      if !started {
        started, pts, stc := true, newPts, newStc;
        return Started;
      }
      if AbsDelta(newPts, pts) > threshold || AbsDelta(newStc, stc) > threshold {
        return Discontinuity;
      }
      if Wrap(newPts - pts) != 0 {
        RecordOffset();
        event := FrameComplete;
      }
      pts, stc := newPts, newStc;
    }

    /** The ageing half of the scan over all streams. */
    method AgeBy(now: int, dropThreshold: int, resetThreshold: int)
      requires Valid()
      modifies Footprint()
      ensures Valid() && View() == AgeStream(old(View()), now, dropThreshold, resetThreshold)
    {
      ExpireKeepsStream(View(), now, dropThreshold, resetThreshold);
      var delta := Wrap(now - stc);
      if delta > resetThreshold {
        ResetFilters();
      } else if delta > dropThreshold {
        avgFilter.DropSample();
        stdFilter.DropSample();
      }
      if avgFilter.count != 0 {
        mtOffAvg := avgFilter.Mean();
        mtOffStd := stdFilter.Mean();
      }
    }
  }
}
