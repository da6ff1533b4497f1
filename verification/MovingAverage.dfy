/** The moving-average filter of the clock component: a ring buffer with a cached running sum. */
module MovingAverage {
  import opened CInt

  const MAX_FILTER_LENGTH: nat := 180

  /** The value of a filter: its two cursors and the samples it holds, oldest first. */
  datatype Ring = Ring(first: nat, last: nat, length: nat, window: seq<int>, sum: int)

  function IndexWrap(index: nat, length: nat): nat {
    if index + 1 < length then index + 1 else 0
  }

  /** The buffer slot of the i-th oldest sample. */
  function Slot(first: nat, i: nat, length: nat): nat
    requires first < length && i < length
  {
    if first + i < length then first + i else first + i - length
  }

  /** The newest sample sits count - 1 slots after the oldest, cyclically. */
  function LastSlot(first: nat, count: nat, length: nat): int {
    if first + count == 0 then length - 1
    else if first + count - 1 < length then first + count - 1
    else first + count - 1 - length
  }

  predicate RingOk(r: Ring) {
    && 1 <= r.length <= MAX_FILTER_LENGTH
    && r.first < r.length
    && |r.window| <= r.length
    && r.last == LastSlot(r.first, |r.window|, r.length)
    && InRange(r.sum)
  }

  function InitRing(length: nat): Ring
    requires length > 0
  {
    Ring(0, length - 1, length, [], 0)
  }

  function DropRing(r: Ring): Ring {
    if r.window == [] then r
    else Ring(IndexWrap(r.first, r.length), r.last, r.length, r.window[1..], Wrap(r.sum - r.window[0]))
  }

  /** What is left after making room for one more sample. */
  function MakeRoom(r: Ring): Ring {
    if |r.window| == r.length then DropRing(r) else r
  }

  function InsertRing(r: Ring, sample: int): Ring
    requires InRange(r.sum) && InRange(sample)
  {
    var s := MakeRoom(r);
    Ring(s.first, IndexWrap(s.last, s.length), s.length, s.window + [sample], SaturateAdd(s.sum, sample))
  }

  /** `last` is determined by `first`, `count` and `length`, modulo `length`. */
  lemma LastDetermined(r: Ring)
    requires RingOk(r)
    ensures r.last == (r.first + |r.window| + r.length - 1) % r.length
  {
    var k := r.first + |r.window| + r.length - 1;
    var q := if k < r.length then 0 else if k < 2 * r.length then 1 else 2;
    ModIs(k, r.length, q, k - q * r.length);
  }

  lemma ModIs(k: nat, length: nat, q: nat, r: nat)
    requires 0 < length && r < length && k == q * length + r && q <= 2
    ensures k % length == r
  {
    var d, m := k / length, k % length;
    assert k == d * length + m;
    if d < q {
      MulMono(d + 1, q, length);
    } else if d > q {
      MulMono(q + 1, d, length);
    }
  }

  lemma DropKeepsRing(r: Ring)
    requires RingOk(r)
    ensures RingOk(DropRing(r))
  {
  }

  lemma InsertKeepsRing(r: Ring, sample: int)
    requires RingOk(r) && InRange(sample)
    ensures RingOk(InsertRing(r, sample))
  {
  }

  function Average(r: Ring): int
    requires r.window != []
  {
    DivTrunc(r.sum, |r.window|)
  }

  // ---------------------------------------------------------------- sums

  function Total(w: seq<int>): int {
    if w == [] then 0 else w[0] + Total(w[1..])
  }

  lemma {:induction false} TotalAppend(w: seq<int>, x: int)
    ensures Total(w + [x]) == Total(w) + x
  {
    if w != [] {
      assert (w + [x])[1..] == w[1..] + [x];
      TotalAppend(w[1..], x);
    }
  }

  lemma {:induction false} TotalBetween(w: seq<int>, lo: int, hi: int)
    requires forall i :: 0 <= i < |w| ==> lo <= w[i] <= hi
    ensures |w| * lo <= Total(w) <= |w| * hi
  {
    if w != [] {
      TotalBetween(w[1..], lo, hi);
      assert |w| * lo == |w[1..]| * lo + lo && |w| * hi == |w[1..]| * hi + hi;
    }
  }

  predicate Exact(r: Ring) {
    r.sum == Total(r.window)
  }

  /** Dropping keeps the cached sum exact precisely when the remaining total fits in an int64. */
  lemma DropExact(r: Ring)
    requires RingOk(r) && Exact(r)
    ensures Exact(DropRing(r)) <==> InRange(Total(DropRing(r).window))
  {
  }

  /** Inserting keeps the cached sum exact precisely when the new total fits in an int64. */
  lemma InsertExact(r: Ring, sample: int)
    requires RingOk(r) && InRange(sample) && Exact(MakeRoom(r))
    ensures Exact(InsertRing(r, sample)) <==> InRange(Total(InsertRing(r, sample).window))
  {
    if |r.window| == r.length { DropKeepsRing(r); }
    TotalAppend(MakeRoom(r).window, sample);
    SaturateAddIsClamp(MakeRoom(r).sum, sample);
  }

  /** The average the clock uses lies between the smallest and the largest sample held. */
  lemma AverageBetween(r: Ring, lo: int, hi: int)
    requires Exact(r) && r.window != []
    requires forall i :: 0 <= i < |r.window| ==> lo <= r.window[i] <= hi
    ensures lo <= Average(r) <= hi
  {
    TotalBetween(r.window, lo, hi);
    DivTruncBounds(r.sum, |r.window|, lo, hi);
  }

  // ---------------------------------------------------------------- whole runs

  datatype FilterOp = Reset | Drop | Insert(sample: int)

  function ApplyRing(r: Ring, op: FilterOp): Ring
    requires RingOk(r) && (op.Insert? ==> InRange(op.sample))
  {
    match op
    case Reset => InitRing(r.length)
    case Drop => DropRing(r)
    case Insert(x) => InsertRing(r, x)
  }

  lemma ApplyKeepsRing(r: Ring, op: FilterOp)
    requires RingOk(r) && (op.Insert? ==> InRange(op.sample))
    ensures RingOk(ApplyRing(r, op))
  {
    match op
    case Reset =>
    case Drop => DropKeepsRing(r);
    case Insert(x) => InsertKeepsRing(r, x);
  }

  predicate OpsInRange(ops: seq<FilterOp>) {
    forall i :: 0 <= i < |ops| && ops[i].Insert? ==> InRange(ops[i].sample)
  }

  ghost function RunRing(length: nat, ops: seq<FilterOp>): (r: Ring)
    requires 1 <= length <= MAX_FILTER_LENGTH && OpsInRange(ops)
    ensures RingOk(r) && r.length == length
  {
    if ops == [] then InitRing(length)
    else
      var r := RunRing(length, ops[..|ops| - 1]);
      ApplyKeepsRing(r, ops[|ops| - 1]);
      ApplyRing(r, ops[|ops| - 1])
  }

  /** The reference: a list from which everything but the newest `length` samples falls off. */
  function Newest(w: seq<int>, n: nat): seq<int> {
    if |w| <= n then w else w[|w| - n..]
  }

  function RunFifo(length: nat, ops: seq<FilterOp>): seq<int> {
    if ops == [] then []
    else
      var w := RunFifo(length, ops[..|ops| - 1]);
      match ops[|ops| - 1]
      case Reset => []
      case Drop => if w == [] then [] else w[1..]
      case Insert(x) => Newest(w + [x], length)
  }

  /** What an insertion leaves of the FIFO before the new sample comes in. */
  function Room(w: seq<int>, length: nat): seq<int> {
    if |w| == length && w != [] then w[1..] else w
  }

  /** Every total the filter passes through fits in an int64. */
  ghost predicate TotalsFit(length: nat, ops: seq<FilterOp>) {
    ops == [] ||
    (var prefix := ops[..|ops| - 1];
     && TotalsFit(length, prefix)
     && InRange(Total(RunFifo(length, ops)))
     && (ops[|ops| - 1].Insert? ==> InRange(Total(Room(RunFifo(length, prefix), length)))))
  }

  /** The cached sum is the total of the samples held, after every operation and, within an
      insertion, after making room. */
  ghost predicate StaysExact(length: nat, ops: seq<FilterOp>)
    requires 1 <= length <= MAX_FILTER_LENGTH && OpsInRange(ops)
  {
    Exact(RunRing(length, ops)) &&
    (ops == [] ||
     (var prefix := ops[..|ops| - 1];
      && StaysExact(length, prefix)
      && (ops[|ops| - 1].Insert? ==> Exact(MakeRoom(RunRing(length, prefix))))))
  }

  /** Over any sequence of resets, drops and insertions the ring buffer holds exactly the
      bounded FIFO's samples; and its cached sum is their total throughout exactly when no
      total that the filter passes through overflows. */
  lemma {:induction false} RingRefinesFifo(length: nat, ops: seq<FilterOp>)
    requires 1 <= length <= MAX_FILTER_LENGTH && OpsInRange(ops)
    ensures RunRing(length, ops).window == RunFifo(length, ops)
    ensures StaysExact(length, ops) <==> TotalsFit(length, ops)
  {
    if ops != [] {
      var prefix, op := ops[..|ops| - 1], ops[|ops| - 1];
      RingRefinesFifo(length, prefix);
      var r := RunRing(length, prefix);
      if Exact(r) { ExactStep(r, op); }
    }
  }

  /** One operation on an exact filter: the totals it passes through decide. */
  lemma ExactStep(r: Ring, op: FilterOp)
    requires RingOk(r) && Exact(r) && (op.Insert? ==> InRange(op.sample))
    ensures (Exact(ApplyRing(r, op)) && (op.Insert? ==> Exact(MakeRoom(r)))) <==>
            (InRange(Total(ApplyRing(r, op).window)) && (op.Insert? ==> InRange(Total(MakeRoom(r).window))))
  {
    match op
    case Reset =>
    case Drop => DropExact(r);
    case Insert(x) =>
      if |r.window| == r.length { DropExact(r); }
      if Exact(MakeRoom(r)) { InsertExact(r, x); }
  }

  /** Two filters that see the same operations, with any samples, move their cursors together. */
  predicate SameCursors(a: Ring, b: Ring) {
    a.first == b.first && a.last == b.last && a.length == b.length && |a.window| == |b.window|
  }

  // ---------------------------------------------------------------- the filter in place

  class Filter {
    var first: nat
    var last: nat
    var count: nat
    var length: nat
    var sum: int
    const h: array<int>
    ghost var window: seq<int>  // the samples held, oldest first

    ghost predicate Valid()
      reads this, h
    {
      && h.Length == MAX_FILTER_LENGTH
      && RingOk(View())
      && count == |window|
      && forall i :: 0 <= i < count ==> window[i] == h[Slot(first, i, length)]
    }

    ghost function View(): Ring
      reads this
    {
      Ring(first, last, length, window, sum)
    }

    constructor (n: nat)
      requires 1 <= n <= MAX_FILTER_LENGTH
      ensures Valid() && fresh(h) && View() == InitRing(n)
    {
      h := new int[MAX_FILTER_LENGTH](_ => 0);
      first, last, count, length, sum := 0, n - 1, 0, n, 0;
      window := [];
    }

    method Init(n: nat)
      requires h.Length == MAX_FILTER_LENGTH && 1 <= n <= MAX_FILTER_LENGTH
      modifies this, h
      ensures Valid() && View() == InitRing(n)
    {
      forall i | 0 <= i < h.Length { h[i] := 0; }
      first, count, sum := 0, 0, 0;
      last := n - 1;
      length := n;
      window := [];
    }

    method DropSample()
      requires Valid()
      modifies this
      ensures Valid() && View() == DropRing(old(View()))
    {
      if count == 0 { return; }
      assert window[0] == h[Slot(first, 0, length)];
      sum := Wrap(sum - h[first]);
      first := IndexWrap(first, length);
      count := count - 1;
      window := window[1..];
    }

    method InsertSample(sample: int)
      requires Valid() && InRange(sample)
      modifies this, h
      ensures Valid() && View() == InsertRing(old(View()), sample)
    {
      InsertKeepsRing(View(), sample);
      if count == length {
        DropSample();
      }
      last := IndexWrap(last, length);
      h[last] := sample;
      sum := SaturateAdd(sum, sample);
      count := count + 1;
      window := window + [sample];
      assert last == Slot(first, count - 1, length);
    }

    /** The truncated average of the samples held, from the cached sum. */
    method Mean() returns (m: int)
      requires Valid() && count != 0
      ensures m == Average(View())
    {
      m := DivTrunc(sum, count);
    }
  }
}
