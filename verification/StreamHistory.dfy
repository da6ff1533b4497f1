/** What a stream of the clock component measures, told from the reports alone: lists of plain
    numbers, without filters, cursors or machine integers. */
module StreamHistory {
  import opened CInt
  import opened Wrappers
  import opened MovingAverage
  import opened ClockStream

  /** The time-stamp and arrival time of a report. */
  datatype Report = Report(pts: int, stc: int)

  predicate PlausibleRun(ops: seq<StreamOp>) {
    forall i :: 0 <= i < |ops| ==> PlausibleOp(ops[i]) && (ops[i].Age? ==> Plausible(ops[i].stc))
  }

  predicate Known(op: StreamOp) {
    op.Update? && op.pts != TIME_UNKNOWN
  }

  /** A report too far from the last one, in media time or in wall time. */
  predicate Jump(last: Report, op: StreamOp)
    requires op.Update?
  {
    Abs(op.pts - last.pts) > op.threshold || Abs(op.stc - last.stc) > op.threshold
  }

  /** What there is to tell: the latest report taken since the clock was last rebased, the offsets
      of the newest complete frames, and how far each was from the mean of the offsets then held,
      itself included; and the latest offset, whether or not it is still held. */
  datatype History = History(last: Option<Report>, offsets: seq<int>, deviations: seq<int>, latest: int)

  /** A report that is taken says that the frame before it is complete if its time-stamp differs. */
  predicate Completes(last: Option<Report>, op: StreamOp) {
    Known(op) && last.Some? && !Jump(last.value, op) && op.pts != last.value.pts
  }

  /** Reports without a time-stamp, and jumps, are not taken. */
  predicate Taken(last: Option<Report>, op: StreamOp) {
    Known(op) && (last.Some? ==> !Jump(last.value, op))
  }

  /** Silence drops the oldest entry, or after a longer time all of them. */
  function AfterSilence(w: seq<int>, silence: int, op: StreamOp): seq<int>
    requires op.Age?
  {
    if silence > op.resetThreshold then [] else if silence > op.dropThreshold && w != [] then w[1..] else w
  }

  function Mean(w: seq<int>): int {
    if w == [] then 0 else DivTrunc(Total(w), |w|)
  }

  /** A complete frame's offset is its time-stamp less its arrival time. */
  function WithFrame(h: History, offset: int, length: nat): History {
    var offsets := Newest(h.offsets + [offset], length);
    h.(offsets := offsets, deviations := Newest(h.deviations + [Abs(offset - Mean(offsets))], length), latest := offset)
  }

  function After(h: History, op: StreamOp, length: nat): History {
    match op
    case Rebase => History(None, [], [], 0)
    case Age(_, _, _) =>
      var silence := if h.last.Some? then op.stc - h.last.value.stc else op.stc;
      h.(offsets := AfterSilence(h.offsets, silence, op), deviations := AfterSilence(h.deviations, silence, op))
    case Update(stc, pts, _) =>
      if !Taken(h.last, op) then h
      else
        var r := if Completes(h.last, op) then WithFrame(h, h.last.value.pts - h.last.value.stc, length) else h;
        r.(last := Some(Report(pts, stc)))
  }

  function Told(length: nat, ops: seq<StreamOp>): History {
    if ops == [] then History(None, [], [], 0)
    else After(Told(length, ops[..|ops| - 1]), ops[|ops| - 1], length)
  }

  // ---------------------------------------------------------------- the stream agrees

  /** The stream has taken these reports and holds these offsets and deviations; its averages are
      their means. */
  ghost predicate Shows(s: StreamView, h: History) {
    && Sane(s)
    && s.started == h.last.Some?
    && (h.last.Some? ==> s.pts == h.last.value.pts && s.stc == h.last.value.stc)
    && (h.last.None? ==> s.stc == 0 && h.offsets == [])
    && s.avg.window == h.offsets && s.std.window == h.deviations && s.mtOff == h.latest
    && (h.offsets != [] ==> s.mtOffAvg == Mean(h.offsets) && s.mtOffStd == Mean(h.deviations))
  }

  lemma NoWrap(a: int, b: int)
    requires Plausible(a) && Plausible(b)
    ensures Wrap(a - b) == a - b && AbsDelta(a, b) == Abs(a - b)
  {
  }

  lemma RingGrows(r: Ring, sample: int, lo: int, hi: int, w: seq<int>)
    requires RingOk(r) && Exact(r) && SamplesBetween(r.window, lo, hi) && SampleLimits(lo, hi) && lo <= sample <= hi && r.window == w
    ensures InRange(sample) && InsertRing(r, sample).window == Newest(w + [sample], r.length) != []
    ensures Average(InsertRing(r, sample)) == Mean(Newest(w + [sample], r.length))
    ensures lo <= Average(InsertRing(r, sample)) <= hi
  {
    InsertStaysSane(r, sample, lo, hi);
  }

  lemma InsertShows(s: StreamView, h: History, offset: int)
    requires Shows(s, h) && h.last.Some? && offset == h.last.value.pts - h.last.value.stc
    ensures Shows(InsertOffset(s), WithFrame(h, offset, s.avg.length))
  {
    InsertOffsetStaysSane(s);
    NoWrap(s.pts, s.stc);
    RingGrows(s.avg, offset, -2 * TIME_LIMIT, 2 * TIME_LIMIT, h.offsets);
    var mean := Mean(Newest(h.offsets + [offset], s.avg.length));
    RingGrows(s.std, Abs(offset - mean), 0, 4 * TIME_LIMIT, h.deviations);
    DeviationFits(offset, mean);
  }

  lemma DeviationFits(offset: int, mean: int)
    requires -2 * TIME_LIMIT <= offset <= 2 * TIME_LIMIT && -2 * TIME_LIMIT <= mean <= 2 * TIME_LIMIT
    ensures AbsDelta(offset, mean) == Abs(offset - mean)
  {
  }

  lemma AgeShows(s: StreamView, h: History, op: StreamOp)
    requires Shows(s, h) && op.Age? && Plausible(op.stc)
    ensures Shows(ApplyStream(s, op), After(h, op, s.avg.length))
  {
    AgeStaysSane(s, op.stc, op.dropThreshold, op.resetThreshold);
    NoWrap(op.stc, s.stc);
  }

  /** The stream takes a report as the history does, and tells the component so. */
  lemma UpdateShows(s: StreamView, h: History, op: StreamOp)
    requires Shows(s, h) && op.Update? && PlausibleOp(op)
    ensures Shows(ApplyStream(s, op), After(h, op, s.avg.length))
    ensures var event := UpdateStream(s, op.stc, op.pts, op.threshold).1;
            && (event == FrameComplete <==> Completes(h.last, op))
            && (event == Discontinuity <==> Known(op) && !Taken(h.last, op))
            && (event == Started <==> Known(op) && h.last.None?)
  {
    if Known(op) && h.last.Some? {
      SameJump(s, h, op);
      if Completes(h.last, op) {
        CompleteShows(s, h, op);
      }
    }
  }

  lemma SameJump(s: StreamView, h: History, op: StreamOp)
    requires Shows(s, h) && op.Update? && PlausibleOp(op) && Known(op) && h.last.Some?
    ensures Jump(h.last.value, op) <==> AbsDelta(op.pts, s.pts) > op.threshold || AbsDelta(op.stc, s.stc) > op.threshold
    ensures Wrap(op.pts - s.pts) == 0 <==> op.pts == h.last.value.pts
  {
    NoWrap(op.pts, s.pts);
    NoWrap(op.stc, s.stc);
  }

  lemma CompleteShows(s: StreamView, h: History, op: StreamOp)
    requires Shows(s, h) && op.Update? && PlausibleOp(op) && Completes(h.last, op)
    ensures Shows(InsertOffset(s).(pts := op.pts, stc := op.stc), After(h, op, s.avg.length))
  {
    InsertShows(s, h, h.last.value.pts - h.last.value.stc);
  }

  lemma {:induction false} LengthStays(id: nat, length: nat, ops: seq<StreamOp>)
    requires 1 <= length <= MAX_FILTER_LENGTH
    ensures RunStream(id, length, ops).avg.length == length && RunStream(id, length, ops).std.length == length
    ensures RunStream(id, length, ops).id == id
  {
    if ops != [] { LengthStays(id, length, ops[..|ops| - 1]); }
  }

  /** What a stream measures: over every sequence of plausible reports, expiries and rebasings its
      filters hold exactly the offsets and deviations told by the reports, and its average and
      deviation are their means. */
  lemma {:induction false} StreamMeasures(id: nat, length: nat, ops: seq<StreamOp>)
    requires 1 <= length <= MAX_FILTER_LENGTH && PlausibleRun(ops)
    ensures Shows(RunStream(id, length, ops), Told(length, ops))
  {
    if ops != [] {
      var prefix, op := ops[..|ops| - 1], ops[|ops| - 1];
      StreamMeasures(id, length, prefix);
      LengthStays(id, length, prefix);
      match op
      case Rebase =>
      case Age(_, _, _) => AgeShows(RunStream(id, length, prefix), Told(length, prefix), op);
      case Update(_, _, _) => UpdateShows(RunStream(id, length, prefix), Told(length, prefix), op);
    }
  }

  /** What the component is told about a report: that a frame is complete, that there was a jump,
      or that the stream has started. */
  lemma EventTells(id: nat, length: nat, ops: seq<StreamOp>, op: StreamOp)
    requires 1 <= length <= MAX_FILTER_LENGTH && PlausibleRun(ops) && PlausibleOp(op) && op.Update?
    ensures var event, last := UpdateStream(RunStream(id, length, ops), op.stc, op.pts, op.threshold).1, Told(length, ops).last;
            && (event == FrameComplete <==> Completes(last, op))
            && (event == Discontinuity <==> Known(op) && !Taken(last, op))
            && (event == Started <==> Known(op) && last.None?)
  {
    StreamMeasures(id, length, ops);
    UpdateShows(RunStream(id, length, ops), Told(length, ops), op);
  }

  /** A rebased stream is as new. */
  lemma RebasedIsNew(id: nat, length: nat, ops: seq<StreamOp>)
    requires 1 <= length <= MAX_FILTER_LENGTH
    ensures RunStream(id, length, ops + [Rebase]) == NewStream(id, length)
  {
    LengthStays(id, length, ops);
    assert (ops + [Rebase])[..|ops|] == ops;
  }

  // ---------------------------------------------------------------- reports without silence

  /** Reports at the given times, none of which jumps. */
  predicate Steady(rs: seq<Report>, threshold: int) {
    && (forall i :: 0 <= i < |rs| ==> Plausible(rs[i].pts) && Plausible(rs[i].stc))
    && forall i :: 0 < i < |rs| ==> Near(rs[i - 1], rs[i], threshold)
  }

  predicate Near(last: Report, r: Report, threshold: int) {
    Abs(r.pts - last.pts) <= threshold && Abs(r.stc - last.stc) <= threshold
  }

  function Updates(rs: seq<Report>, threshold: int): (ops: seq<StreamOp>)
    ensures |ops| == |rs|
  {
    seq(|rs|, i requires 0 <= i < |rs| => Update(rs[i].stc, rs[i].pts, threshold))
  }

  /** The offset of every report that is followed by one with another time-stamp. */
  function FrameOffsets(rs: seq<Report>): seq<int> {
    if |rs| <= 1 then []
    else
      var last := rs[|rs| - 2];
      FrameOffsets(rs[..|rs| - 1]) + if rs[|rs| - 1].pts != last.pts then [last.pts - last.stc] else []
  }

  lemma NewestAgain(w: seq<int>, x: int, n: nat)
    requires n > 0
    ensures Newest(Newest(w, n) + [x], n) == Newest(w + [x], n)
  {
  }

  lemma SteadyStep(h: History, last: Report, r: Report, threshold: int, length: nat, offsets: seq<int>)
    requires h.last == Some(last) && h.offsets == Newest(offsets, length) && length > 0
    requires Plausible(r.pts) && Near(last, r, threshold)
    ensures var t := After(h, Update(r.stc, r.pts, threshold), length);
            t.last == Some(r) && t.offsets == Newest(if r.pts != last.pts then offsets + [last.pts - last.stc] else offsets, length)
  {
    AfterReport(h, last, Update(r.stc, r.pts, threshold), length);
    NewestAgain(offsets, last.pts - last.stc, length);
  }

  lemma ToldOne(length: nat, ops: seq<StreamOp>, op: StreamOp)
    ensures Told(length, ops + [op]) == After(Told(length, ops), op, length)
  {
    assert (ops + [op])[..|ops|] == ops;
  }

  ghost predicate ToldSteady(h: History, rs: seq<Report>, length: nat) {
    h.offsets == Newest(FrameOffsets(rs), length) && h.last == if rs == [] then None else Some(rs[|rs| - 1])
  }

  lemma OneMoreSteady(h: History, prefix: seq<Report>, r: Report, threshold: int, length: nat)
    requires ToldSteady(h, prefix, length) && length > 0 && Plausible(r.pts)
    requires prefix != [] ==> Near(prefix[|prefix| - 1], r, threshold)
    ensures ToldSteady(After(h, Update(r.stc, r.pts, threshold), length), prefix + [r], length)
  {
    var rs := prefix + [r];
    assert rs[..|prefix|] == prefix;
    if prefix != [] {
      var last := prefix[|prefix| - 1];
      assert rs[|rs| - 2] == last;
      assert FrameOffsets(prefix) + [] == FrameOffsets(prefix);
      SteadyStep(h, last, r, threshold, length, FrameOffsets(prefix));
    }
  }

  /** Without silence and jumps the offsets are those of the newest frames that were completed. */
  lemma {:induction false} SteadyReports(length: nat, rs: seq<Report>, threshold: int)
    requires Steady(rs, threshold) && length > 0
    ensures ToldSteady(Told(length, Updates(rs, threshold)), rs, length)
  {
    if rs != [] {
      var prefix, r := rs[..|rs| - 1], rs[|rs| - 1];
      SteadyReports(length, prefix, threshold);
      assert Updates(rs, threshold) == Updates(prefix, threshold) + [Update(r.stc, r.pts, threshold)];
      ToldOne(length, Updates(prefix, threshold), Update(r.stc, r.pts, threshold));
      OneMoreSteady(Told(length, Updates(prefix, threshold)), prefix, r, threshold, length);
      assert prefix + [r] == rs;
    }
  }

  // ---------------------------------------------------------------- only differences matter

  function Shift(op: StreamOp, d: int): StreamOp {
    match op
    case Update(stc, pts, threshold) => if pts == TIME_UNKNOWN then op else Update(stc + d, pts + d, threshold)
    case Age(stc, drop, reset) => Age(stc + d, drop, reset)
    case Rebase => Rebase
  }

  function ShiftAll(ops: seq<StreamOp>, d: int): (r: seq<StreamOp>)
    ensures |r| == |ops|
  {
    seq(|ops|, i requires 0 <= i < |ops| => Shift(ops[i], d))
  }

  function Later(h: History, d: int): History {
    if h.last.None? then h else h.(last := Some(Report(h.last.value.pts + d, h.last.value.stc + d)))
  }

  /** Shifting a plausible report gives a plausible report. */
  predicate MayShift(op: StreamOp, d: int) {
    && PlausibleOp(op) && PlausibleOp(Shift(op, d)) && (Known(op) ==> Plausible(op.pts + d))
    && (op.Age? ==> Plausible(op.stc) && Plausible(op.stc + d))
  }

  predicate MayShiftAll(ops: seq<StreamOp>, d: int) {
    forall i :: 0 <= i < |ops| ==> MayShift(ops[i], d)
  }

  lemma ShiftedStep(h: History, op: StreamOp, length: nat, d: int)
    requires MayShift(op, d)
    requires h.last.None? ==> h.offsets == [] && h.deviations == []
    ensures After(Later(h, d), Shift(op, d), length) == Later(After(h, op, length), d)
    ensures var r := After(h, op, length); r.last.None? ==> r.offsets == [] && r.deviations == []
  {
    match op
    case Rebase =>
    case Age(_, _, _) => ShiftedAge(h, op, length, d);
    case Update(_, _, _) =>
      if h.last.Some? && Known(op) { ShiftedUpdate(h, h.last.value, op, length, d); }
  }

  lemma ShiftedAge(h: History, op: StreamOp, length: nat, d: int)
    requires op.Age? && (h.last.None? ==> h.offsets == [] && h.deviations == [])
    ensures After(Later(h, d), Shift(op, d), length) == Later(After(h, op, length), d)
  {
    if h.last.Some? { assert (op.stc + d) - (h.last.value.stc + d) == op.stc - h.last.value.stc; }
  }

  lemma ShiftedUpdate(h: History, r: Report, op: StreamOp, length: nat, d: int)
    requires op.Update? && MayShift(op, d) && h.last == Some(r) && Known(op)
    ensures After(Later(h, d), Shift(op, d), length) == Later(After(h, op, length), d)
  {
    JumpShifts(r, op, d);
    FrameShifts(h, r, length, d);
    AfterReport(h, r, op, length);
    AfterReport(Later(h, d), Report(r.pts + d, r.stc + d), Shift(op, d), length);
  }

  lemma AfterReport(h: History, last: Report, op: StreamOp, length: nat)
    requires h.last == Some(last) && Known(op)
    ensures After(h, op, length)
         == if Jump(last, op) then h
            else (if op.pts != last.pts then WithFrame(h, last.pts - last.stc, length) else h).(last := Some(Report(op.pts, op.stc)))
  {
  }

  lemma JumpShifts(r: Report, op: StreamOp, d: int)
    requires op.Update? && MayShift(op, d) && Known(op)
    ensures Known(Shift(op, d)) && Jump(Report(r.pts + d, r.stc + d), Shift(op, d)) == Jump(r, op)
    ensures Shift(op, d).pts == r.pts + d <==> op.pts == r.pts
  {
  }

  lemma FrameShifts(h: History, r: Report, length: nat, d: int)
    requires h.last == Some(r)
    ensures WithFrame(Later(h, d), (r.pts + d) - (r.stc + d), length) == Later(WithFrame(h, r.pts - r.stc, length), d)
  {
    assert (r.pts + d) - (r.stc + d) == r.pts - r.stc;
  }

  lemma {:induction false} ShiftedHistory(length: nat, ops: seq<StreamOp>, d: int)
    requires MayShiftAll(ops, d)
    ensures Told(length, ShiftAll(ops, d)) == Later(Told(length, ops), d)
    ensures var h := Told(length, ops); h.last.None? ==> h.offsets == [] && h.deviations == []
  {
    if ops != [] {
      var prefix := ops[..|ops| - 1];
      assert ShiftAll(ops, d)[..|ops| - 1] == ShiftAll(prefix, d);
      ShiftedHistory(length, prefix, d);
      ShiftedStep(Told(length, prefix), ops[|ops| - 1], length, d);
    }
  }

  /** Translation: adding the same time to every time-stamp and every wall time changes neither
      filter nor average. */
  lemma OnlyDifferencesMatter(id: nat, length: nat, ops: seq<StreamOp>, d: int)
    requires 1 <= length <= MAX_FILTER_LENGTH && MayShiftAll(ops, d)
    ensures var s, t := RunStream(id, length, ops), RunStream(id, length, ShiftAll(ops, d));
            && t.avg.window == s.avg.window && t.std.window == s.std.window
            && (s.avg.window != [] ==> t.mtOffAvg == s.mtOffAvg && t.mtOffStd == s.mtOffStd)
  {
    StreamMeasures(id, length, ops);
    StreamMeasures(id, length, ShiftAll(ops, d));
    ShiftedHistory(length, ops, d);
  }
}
