/** Playing 32-bit samples on a 16-bit device: as 16-bit samples, but with two input bytes for each
    byte of output and a conversion in between. */
module Narrowing {
  import opened CInt
  import opened AudioQueue

  /** Four bytes of a sample to two; for signed integers these are the upper two. */
  type Sample = (byte, byte, byte, byte) -> (byte, byte)

  function Narrow(convert: Sample, bs: seq<byte>): (r: seq<byte>)
    ensures |r| == |bs| / 4 * 2
  {
    if |bs| < 4 then []
    else
      var (x, y) := convert(bs[0], bs[1], bs[2], bs[3]);
      [x, y] + Narrow(convert, bs[4..])
  }

  lemma {:induction false} NarrowAppend(convert: Sample, a: seq<byte>, b: seq<byte>)
    requires |a| % 4 == 0
    ensures Narrow(convert, a + b) == Narrow(convert, a) + Narrow(convert, b)
  {
    if a == [] {
      assert a + b == b;
    } else {
      var (x, y) := convert(a[0], a[1], a[2], a[3]);
      assert (a + b)[4..] == a[4..] + b;
      NarrowAppend(convert, a[4..], b);
      assert [x, y] + (Narrow(convert, a[4..]) + Narrow(convert, b)) == ([x, y] + Narrow(convert, a[4..])) + Narrow(convert, b);
    }
  }

  /** The k-th sample of the output is the conversion of the k-th sample of the input. */
  lemma {:induction false} NarrowAt(convert: Sample, bs: seq<byte>, k: nat)
    requires 4 * k + 4 <= |bs|
    ensures 2 * k + 2 <= |Narrow(convert, bs)|
    ensures (Narrow(convert, bs)[2 * k], Narrow(convert, bs)[2 * k + 1]) == convert(bs[4 * k], bs[4 * k + 1], bs[4 * k + 2], bs[4 * k + 3])
  {
    if k > 0 { NarrowAt(convert, bs[4..], k - 1); }
  }

  /** One round: from the first buffer as much as fits once narrowed. */
  function NarrowRound(s: Playback, size: nat, convert: Sample): (Playback, nat)
    requires s.queue != [] && QueueOk(s.queue)
  {
    var b := s.queue[0];
    var bytes := if b.length > 2 * size then 2 * size else b.length;
    (Consume(s, bytes, Narrow(convert, b.data[b.offset..b.offset + bytes])), size - bytes / 2)
  }

  lemma NarrowRoundShrinks(s: Playback, size: nat, convert: Sample)
    requires s.queue != [] && QueueOk(s.queue) && size > 0
    ensures var (t, left) := NarrowRound(s, size, convert);
            QueueOk(t.queue) && left <= size && |t.queue| <= |s.queue| && (left > 0 || left == size ==> |t.queue| < |s.queue|)
  {
  }

  function NarrowCallback(s: Playback, size: nat, convert: Sample): Playback
    requires QueueOk(s.queue)
    decreases size, |s.queue|
  {
    if size == 0 || s.queue == [] then s
    else
      NarrowRoundShrinks(s, size, convert);
      NarrowCallback(NarrowRound(s, size, convert).0, NarrowRound(s, size, convert).1, convert)
  }

  /** Buffers hold whole samples. */
  predicate Aligned(q: seq<Buffer>) {
    forall i :: 0 <= i < |q| ==> q[i].length % 4 == 0
  }

  /** The same playback, had the bytes taken been played as they are. */
  function Narrowed(s: Playback, convert: Sample): Playback {
    s.(played := Narrow(convert, s.played))
  }

  lemma ConsumesAgree(s: Playback, bytes: nat, chunk: seq<byte>, convert: Sample)
    requires s.queue != [] && bytes <= s.queue[0].length && |s.played| % 4 == 0
    ensures Consume(Narrowed(s, convert), bytes, Narrow(convert, chunk)) == Narrowed(Consume(s, bytes, chunk), convert)
  {
    NarrowAppend(convert, s.played, chunk);
  }

  lemma StaysAligned(s: Playback, bytes: nat, chunk: seq<byte>)
    requires s.queue != [] && bytes <= s.queue[0].length && bytes == |chunk|
    requires Aligned(s.queue) && |s.played| % 4 == 0 && bytes % 4 == 0
    ensures Aligned(Consume(s, bytes, chunk).queue) && |Consume(s, bytes, chunk).played| % 4 == 0
  {
  }

  /** How many bytes a round takes: whole samples, and an even share of the request. */
  lemma WholeSamples(length: nat, size: nat, bytes: nat)
    requires length % 4 == 0 && size % 2 == 0 && bytes == if length > 2 * size then 2 * size else length
    ensures bytes % 4 == 0 && (size - bytes / 2) % 2 == 0 && 2 * size - bytes == 2 * (size - bytes / 2)
  {
    var q, h := length / 4, size / 2;
    var m := if q > h then h else q;
    assert length == 4 * q && size == 2 * h && bytes == 4 * m;
    assert bytes / 2 == 2 * m;
  }

  /** A round leaves whole samples, and asks for whole samples next. */
  lemma NarrowRoundAligned(s: Playback, size: nat, convert: Sample)
    requires s.queue != [] && QueueOk(s.queue) && Aligned(s.queue) && size % 2 == 0
    ensures var (t, left) := NarrowRound(s, size, convert);
            Aligned(t.queue) && left % 2 == 0 && left <= size && |t.played| == |s.played| + size - left
  {
    var b := s.queue[0];
    var bytes := if b.length > 2 * size then 2 * size else b.length;
    WholeSamples(b.length, size, bytes);
    HalfOfWhole(bytes);
  }

  lemma HalfOfWhole(n: nat)
    requires n % 4 == 0
    ensures n / 4 * 2 == n / 2
  {
    assert n == 4 * (n / 4);
  }

  lemma RoundsAgree(s: Playback, size: nat, convert: Sample) returns (t: Playback, half: nat)
    requires s.queue != [] && QueueOk(s.queue) && Aligned(s.queue) && |s.played| % 4 == 0 && size % 2 == 0
    ensures Aligned(t.queue) && |t.played| % 4 == 0 && half % 2 == 0
    ensures Round(s, 2 * size) == (t, 2 * half) && NarrowRound(Narrowed(s, convert), size, convert) == (Narrowed(t, convert), half)
  {
    var b := s.queue[0];
    var bytes := if b.length > 2 * size then 2 * size else b.length;
    var chunk := b.data[b.offset..b.offset + bytes];
    WholeSamples(b.length, size, bytes);
    StaysAligned(s, bytes, chunk);
    ConsumesAgree(s, bytes, chunk, convert);
    t, half := Consume(s, bytes, chunk), size - bytes / 2;
  }

  /** A callback for `size` bytes of 32-bit samples is one for twice as many bytes of 16-bit
      samples, converted afterwards - wherever the buffers and requests happen to be cut. */
  lemma {:induction false} CallbacksAgree(s: Playback, size: nat, convert: Sample)
    requires QueueOk(s.queue) && Aligned(s.queue) && |s.played| % 4 == 0 && size % 2 == 0
    ensures var t := Callback(s, 2 * size);
            && Aligned(t.queue) && |t.played| % 4 == 0
            && NarrowCallback(Narrowed(s, convert), size, convert) == Narrowed(t, convert)
    decreases size, |s.queue|
  {
    if size > 0 && s.queue != [] {
      var t, half := RoundsAgree(s, size, convert);
      RoundShrinks(s, 2 * size);
      CallbacksAgree(t, half, convert);
    }
  }

  /** What a callback delivers: the next min(requested, pending / 2) bytes of the converted samples. */
  lemma NarrowCallbackDelivers(s: Playback, size: nat, convert: Sample)
    requires QueueOk(s.queue) && Aligned(s.queue) && size % 2 == 0
    ensures var t := NarrowCallback(s, size, convert);
            && QueueOk(t.queue) && Aligned(t.queue)
            && t.played + Narrow(convert, Pending(t.queue)) == s.played + Narrow(convert, Pending(s.queue))
            && |t.played| == |s.played| + Min(size, |Pending(s.queue)| / 2)
            && t.returned + Returns(t.queue) == s.returned + Returns(s.queue)
  {
    var raw := Playback(s.queue, [], []);
    FreshDelivers(raw, size, convert);
    assert s.played + [] == s.played && s.returned + [] == s.returned;
    NarrowForgets(s, size, convert, s.played, s.returned, raw);
    var t, u := NarrowCallback(s, size, convert), NarrowCallback(raw, size, convert);
    HeadAgain(s.played, u.played, Narrow(convert, Pending(u.queue)), Narrow(convert, Pending(s.queue)), t.played);
    HeadAgain(s.returned, u.returned, Returns(u.queue), Returns(s.queue), t.returned);
  }

  lemma HeadAgain<T>(head: seq<T>, now: seq<T>, later: seq<T>, whole: seq<T>, all: seq<T>)
    requires now + later == whole && all == head + now
    ensures all + later == head + whole && |all| == |head| + |now|
  {
    assert (head + now) + later == head + (now + later);
  }

  lemma FreshDelivers(raw: Playback, size: nat, convert: Sample)
    requires QueueOk(raw.queue) && Aligned(raw.queue) && size % 2 == 0 && raw.played == [] && raw.returned == []
    ensures var t := NarrowCallback(raw, size, convert);
            && QueueOk(t.queue) && Aligned(t.queue)
            && t.played + Narrow(convert, Pending(t.queue)) == Narrow(convert, Pending(raw.queue))
            && |t.played| == Min(size, |Pending(raw.queue)| / 2)
            && t.returned + Returns(t.queue) == Returns(raw.queue)
  {
    CallbacksAgree(raw, size, convert);
    CallbackDelivers(raw, 2 * size);
    var t := Callback(raw, 2 * size);
    assert t.played + Pending(t.queue) == Pending(raw.queue);
    PendingAligned(raw.queue);
    NarrowAppend(convert, t.played, Pending(t.queue));
    assert Narrowed(raw, convert) == raw;
  }

  lemma {:induction false} PendingAligned(q: seq<Buffer>)
    requires QueueOk(q) && Aligned(q)
    ensures |Pending(q)| % 4 == 0
  {
    if q != [] { PendingAligned(q[1..]); }
  }

  /** What was played, and given back, before a callback does not matter to it. */
  lemma {:induction false} NarrowForgets(s: Playback, size: nat, convert: Sample, head: seq<byte>, gone: seq<Return>, r: Playback)
    requires QueueOk(s.queue) && r.queue == s.queue && s.played == head + r.played && s.returned == gone + r.returned
    ensures var t, u := NarrowCallback(s, size, convert), NarrowCallback(r, size, convert);
            u.queue == t.queue && t.played == head + u.played && t.returned == gone + u.returned
    decreases size, |s.queue|
  {
    if size > 0 && s.queue != [] {
      NarrowRoundShrinks(s, size, convert);
      var b := s.queue[0];
      var bytes := if b.length > 2 * size then 2 * size else b.length;
      ConsumeForgets(s, bytes, Narrow(convert, b.data[b.offset..b.offset + bytes]), head, gone, r);
      NarrowForgets(NarrowRound(s, size, convert).0, NarrowRound(s, size, convert).1, convert, head, gone, NarrowRound(r, size, convert).0);
    }
  }
}
