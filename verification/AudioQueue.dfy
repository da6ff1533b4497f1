/** The queue of an audio renderer: a callback pulls bytes out of the queued buffers, in whatever
    portions the sound device asks for, and gives each buffer back when it is drained. */
module AudioQueue {
  import opened CInt

  datatype Buffer = Buffer(id: nat, data: seq<byte>, offset: nat, length: nat, eos: bool)

  predicate BufferOk(b: Buffer) {
    b.offset + b.length <= |b.data|
  }

  function Remaining(b: Buffer): seq<byte>
    requires BufferOk(b)
  {
    b.data[b.offset..b.offset + b.length]
  }

  predicate QueueOk(q: seq<Buffer>) {
    forall i :: 0 <= i < |q| ==> BufferOk(q[i])
  }

  /** Every byte still to be played. */
  function Pending(q: seq<Buffer>): seq<byte>
    requires QueueOk(q)
  {
    if q == [] then [] else Remaining(q[0]) + Pending(q[1..])
  }

  /** A buffer given back; if it ended the stream, an event has said so first. */
  datatype Return = Return(id: nat, endOfStream: bool)

  function Returns(q: seq<Buffer>): (r: seq<Return>)
    ensures |r| == |q|
  {
    seq(|q|, i requires 0 <= i < |q| => Return(q[i].id, q[i].eos))
  }

  /** The queue and what has been done with it. */
  datatype Playback = Playback(queue: seq<Buffer>, played: seq<byte>, returned: seq<Return>)

  /** Take bytes from the first buffer and play `out` for them; put the buffer back if something
      is left, else return it. */
  function Consume(s: Playback, bytes: nat, out: seq<byte>): Playback
    requires s.queue != [] && bytes <= s.queue[0].length
  {
    var b := s.queue[0];
    var rest := b.(offset := b.offset + bytes, length := b.length - bytes);
    var t := s.(played := s.played + out);
    if rest.length > 0 then t.(queue := [rest] + s.queue[1..])
    else t.(queue := s.queue[1..], returned := s.returned + [Return(b.id, b.eos)])
  }

  /** One round of a callback: play from the first buffer as much as fits. */
  function Round(s: Playback, size: nat): (Playback, nat)
    requires s.queue != [] && QueueOk(s.queue)
  {
    var b := s.queue[0];
    var bytes := if b.length > size then size else b.length;
    (Consume(s, bytes, b.data[b.offset..b.offset + bytes]), size - bytes)
  }

  lemma PendingCons(b: Buffer, q: seq<Buffer>)
    requires BufferOk(b) && QueueOk(q)
    ensures QueueOk([b] + q) && Pending([b] + q) == Remaining(b) + Pending(q)
  {
    assert ([b] + q)[1..] == q;
  }

  lemma RemainingSplits(b: Buffer, bytes: nat)
    requires BufferOk(b) && bytes <= b.length
    ensures var rest := b.(offset := b.offset + bytes, length := b.length - bytes);
            BufferOk(rest) && Remaining(b) == b.data[b.offset..b.offset + bytes] + Remaining(rest)
  {
  }

  lemma PendingAfterRound(s: Playback, size: nat)
    requires s.queue != [] && QueueOk(s.queue)
    ensures var (t, left) := Round(s, size);
            var b, bytes := s.queue[0], size - left;
            var rest := b.(offset := b.offset + bytes, length := b.length - bytes);
            BufferOk(rest) && QueueOk(t.queue) && Pending(t.queue) == Remaining(rest) + Pending(s.queue[1..])
  {
    var (t, left) := Round(s, size);
    var b, bytes, q := s.queue[0], size - left, s.queue[1..];
    var rest := b.(offset := b.offset + bytes, length := b.length - bytes);
    if rest.length > 0 {
      PendingCons(rest, q);
    } else {
      assert Remaining(rest) == [];
    }
  }

  lemma PlayEquation(played: seq<byte>, now: seq<byte>, later: seq<byte>, others: seq<byte>,
                     played': seq<byte>, pending': seq<byte>, pending: seq<byte>, first: seq<byte>)
    requires first == now + later && pending == first + others && played' == played + now && pending' == later + others
    ensures played' + pending' == played + pending
  {
    assert (played + now) + (later + others) == played + ((now + later) + others);
  }

  /** A round plays the next bytes of what is pending. */
  lemma RoundPlays(s: Playback, size: nat)
    requires s.queue != [] && QueueOk(s.queue)
    ensures QueueOk(Round(s, size).0.queue)
    ensures Round(s, size).0.played + Pending(Round(s, size).0.queue) == s.played + Pending(s.queue)
  {
    var b, bytes := s.queue[0], size - Round(s, size).1;
    var rest := b.(offset := b.offset + bytes, length := b.length - bytes);
    RemainingSplits(b, bytes);
    PendingAfterRound(s, size);
    PlayEquation(s.played, b.data[b.offset..b.offset + bytes], Remaining(rest), Pending(s.queue[1..]),
                 Round(s, size).0.played, Pending(Round(s, size).0.queue), Pending(s.queue), Remaining(b));
  }

  /** A round uses up the request or the first buffer. */
  lemma RoundShrinks(s: Playback, size: nat)
    requires s.queue != [] && QueueOk(s.queue) && size > 0
    ensures var (t, left) := Round(s, size);
            QueueOk(t.queue) && left <= size && |t.queue| <= |s.queue| && (left > 0 || left == size ==> |t.queue| < |s.queue|)
  {
  }

  lemma RoundReturns(s: Playback, size: nat)
    requires s.queue != [] && QueueOk(s.queue)
    ensures Round(s, size).0.returned + Returns(Round(s, size).0.queue) == s.returned + Returns(s.queue)
  {
    var t := Round(s, size).0;
    if |t.queue| == |s.queue| {
      assert Returns(t.queue) == Returns(s.queue);
    } else {
      assert Returns(s.queue) == [Return(s.queue[0].id, s.queue[0].eos)] + Returns(t.queue);
    }
  }

  lemma RoundAdvances(s: Playback, size: nat)
    requires s.queue != [] && QueueOk(s.queue) && size > 0
    ensures var (t, left) := Round(s, size);
            && QueueOk(t.queue)
            && t.played + Pending(t.queue) == s.played + Pending(s.queue)
            && |t.played| - |s.played| == size - left
            && t.returned + Returns(t.queue) == s.returned + Returns(s.queue)
  {
    RoundPlays(s, size);
    RoundReturns(s, size);
  }

  function Callback(s: Playback, size: nat): Playback
    requires QueueOk(s.queue)
    decreases size, |s.queue|
  {
    if size == 0 || s.queue == [] then s
    else
      RoundShrinks(s, size);
      Callback(Round(s, size).0, Round(s, size).1)
  }

  /** A callback delivers the next min(requested, pending) bytes and nothing else; buffers are
      returned in order, each when its last byte has been played. */
  lemma {:induction false} CallbackDelivers(s: Playback, size: nat)
    requires QueueOk(s.queue)
    ensures var t := Callback(s, size);
            && QueueOk(t.queue)
            && t.played + Pending(t.queue) == s.played + Pending(s.queue)
            && |t.played| == |s.played| + Min(size, |Pending(s.queue)|)
            && t.returned + Returns(t.queue) == s.returned + Returns(s.queue)
    decreases size, |s.queue|
  {
    if size > 0 && s.queue != [] {
      RoundShrinks(s, size);
      RoundAdvances(s, size);
      var (t, left) := Round(s, size);
      CallbackDelivers(t, left);
      assert |t.played + Pending(t.queue)| == |s.played + Pending(s.queue)|;
    }
  }

  /** What was played, and given back, before a callback does not matter to it. */
  lemma {:induction false} CallbackForgets(s: Playback, size: nat, head: seq<byte>, gone: seq<Return>, r: Playback)
    requires QueueOk(s.queue) && r.queue == s.queue && s.played == head + r.played && s.returned == gone + r.returned
    ensures var t, u := Callback(s, size), Callback(r, size);
            u.queue == t.queue && t.played == head + u.played && t.returned == gone + u.returned
    decreases size, |s.queue|
  {
    if size > 0 && s.queue != [] {
      RoundShrinks(s, size);
      var b := s.queue[0];
      var bytes := if b.length > size then size else b.length;
      ConsumeForgets(s, bytes, b.data[b.offset..b.offset + bytes], head, gone, r);
      CallbackForgets(Round(s, size).0, Round(s, size).1, head, gone, Round(r, size).0);
    }
  }

  lemma ConsumeForgets(s: Playback, bytes: nat, out: seq<byte>, head: seq<byte>, gone: seq<Return>, r: Playback)
    requires s.queue != [] && bytes <= s.queue[0].length && r.queue == s.queue && s.played == head + r.played && s.returned == gone + r.returned
    ensures var t, u := Consume(s, bytes, out), Consume(r, bytes, out);
            u.queue == t.queue && t.played == head + u.played && t.returned == gone + u.returned
  {
    assert (head + r.played) + out == head + (r.played + out);
    var last := [Return(s.queue[0].id, s.queue[0].eos)];
    assert (gone + r.returned) + last == gone + (r.returned + last);
  }

  /** What follows a common head is a prefix of what follows it in the whole. */
  lemma PrefixAfter(head: seq<byte>, x: seq<byte>, rest: seq<byte>, whole: seq<byte>)
    requires (head + x) + rest == head + whole
    ensures |x| <= |whole| && x == whole[..|x|]
  {
    assert ((head + x) + rest)[|head|..] == x + rest;
    assert (head + whole)[|head|..] == whole;
  }

  /** Buffers given back without having been played: no event is sent for them. */
  function Unplayed(q: seq<Buffer>): (r: seq<Return>)
    ensures |r| == |q|
  {
    seq(|q|, i requires 0 <= i < |q| => Return(q[i].id, false))
  }

  /** Giving everything back that is queued. */
  function Emptied(s: Playback): Playback {
    Playback([], s.played, s.returned + Unplayed(s.queue))
  }

  // ---------------------------------------------------------------- the queue in place

  class PlayQueue {
    var queue: seq<Buffer>
    ghost var played: seq<byte>
    ghost var returned: seq<Return>

    ghost function View(): Playback
      reads this
    {
      Playback(queue, played, returned)
    }

    constructor ()
      ensures View() == Playback([], [], [])
    {
      queue, played, returned := [], [], [];
    }

    method Put(b: Buffer)
      modifies this
      ensures View() == old(View()).(queue := old(queue) + [b])
    {
      queue := queue + [b];
    }

    /** Fill the stream; on underrun the rest of it is left as it was. */
    method Fill(stream: array<byte>) returns (at: nat)
      requires QueueOk(queue)
      modifies this, stream
      ensures View() == Callback(old(View()), stream.Length)
      ensures at == Min(stream.Length, |Pending(old(queue))|)
      ensures stream[..at] == Pending(old(queue))[..at] && stream[at..] == old(stream[at..])
    {
      CallbackDelivers(View(), stream.Length);
      at := Drain(stream);
      PrefixAfter(old(played), stream[..at], Pending(queue), Pending(old(queue)));
    }

    method Drain(stream: array<byte>) returns (at: nat)
      requires QueueOk(queue)
      modifies this, stream
      ensures View() == Callback(old(View()), stream.Length)
      ensures at <= stream.Length && played == old(played) + stream[..at] && stream[at..] == old(stream[at..])
    {
      at := 0;
      while at < stream.Length && queue != []
        invariant at <= stream.Length && QueueOk(queue)
        invariant Callback(View(), stream.Length - at) == Callback(old(View()), stream.Length)
        invariant played == old(played) + stream[..at]
        invariant stream[at..] == old(stream[at..])
        decreases stream.Length - at, |queue|
      {
        RoundShrinks(View(), stream.Length - at);
        at := PlayFirst(stream, at, old(played));
      }
    }

    method CopyOut(stream: array<byte>, at: nat, bytes: seq<byte>)
      requires at + |bytes| <= stream.Length
      modifies stream
      ensures stream[..at + |bytes|] == old(stream[..at]) + bytes
      ensures stream[at + |bytes|..] == old(stream[at + |bytes|..])
    {
      for k := 0 to |bytes|
        invariant forall j :: 0 <= j < stream.Length ==> stream[j] == if at <= j < at + k then bytes[j - at] else old(stream[j])
      {
        stream[at + k] := bytes[k];
      }
    }

    /** One round; `head` is what had been played before this callback. */
    method PlayFirst(stream: array<byte>, at: nat, ghost head: seq<byte>) returns (next: nat)
      requires QueueOk(queue) && queue != [] && at < stream.Length
      requires played == head + stream[..at]
      modifies this, stream
      ensures at <= next <= stream.Length
      ensures (View(), stream.Length - next) == Round(old(View()), stream.Length - at)
      ensures played == head + stream[..next] && stream[next..] == old(stream[next..])
    {
      var size := stream.Length - at;
      var buffer := queue[0];
      var bytes := buffer.length;
      if bytes > size { bytes := size; }
      CopyOut(stream, at, buffer.data[buffer.offset..buffer.offset + bytes]);
      TakeFirst(bytes, buffer.data[buffer.offset..buffer.offset + bytes]);
      next := at + bytes;
    }

    /** Take bytes from the first buffer, and put it back or return it. */
    method TakeFirst(bytes: nat, ghost out: seq<byte>)
      requires queue != [] && bytes <= queue[0].length
      modifies this
      ensures View() == Consume(old(View()), bytes, out)
    {
      var buffer := queue[0];
      queue := queue[1..];
      buffer := buffer.(offset := buffer.offset + bytes, length := buffer.length - bytes);
      played := played + out;
      if buffer.length > 0 {
        queue := [buffer] + queue;
      } else {
        returned := returned + [Return(buffer.id, buffer.eos)];
      }
    }

    /** Give every buffer back as it is, in order. */
    method ReturnAll()
      modifies this
      ensures View() == Emptied(old(View()))
      ensures queue == [] && played == old(played) && old(returned) <= returned
      ensures |returned| == |old(returned)| + |old(queue)|
      ensures forall i :: 0 <= i < |old(queue)| ==> returned[|old(returned)| + i] == Return(old(queue)[i].id, false)
    {
      ghost var before := queue;
      ghost var n := 0;
      while queue != []
        invariant n <= |before| && queue == before[n..] && played == old(played)
        invariant returned == old(returned) + Unplayed(before)[..n]
        decreases |queue|
      {
        returned := returned + [Return(queue[0].id, false)];
        queue := queue[1..];
        n := n + 1;
      }
    }
  }
}
