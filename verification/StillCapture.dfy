/** Still capture: the encoder delivers an image in buffers of its own choosing, and the
    callback gathers them in the space the caller provided. */
module StillCapture {
  import opened CInt

  /** Bytes before the pixels of an RGB capture. */
  const HEADER: nat := 54

  datatype Capture = Capture(
    rgb: bool,
    data: seq<byte>,
    bufferPosition: nat,
    offset: nat,
    length: nat,
    active: bool,     // the capture still has its camera board
    signals: nat)     // how often completion was reported

  /** A buffer from the encoder; `end` when it ends the frame or reports a failed transmission. */
  datatype Buffer = Buffer(bytes: seq<byte>, end: bool)

  predicate Ok(c: Capture) {
    c.length <= |c.data|
  }

  function StoreByte(c: Capture, b: byte): (r: Capture)
    requires Ok(c)
    ensures Ok(r) && |r.data| == |c.data|
  {
    if !c.active then c
    else if c.offset >= c.length then c.(active := false)
    else if c.rgb && c.bufferPosition < HEADER then c.(bufferPosition := c.bufferPosition + 1)
    else c.(data := c.data[c.offset := b], offset := c.offset + 1, bufferPosition := c.bufferPosition + 1)
  }

  function StoreBytes(c: Capture, bytes: seq<byte>): (r: Capture)
    requires Ok(c)
    ensures Ok(r) && |r.data| == |c.data|
  {
    if bytes == [] then c
    else StoreByte(StoreBytes(c, bytes[..|bytes| - 1]), bytes[|bytes| - 1])
  }

  function StoreBuffer(c: Capture, b: Buffer): (r: Capture)
    requires Ok(c)
    ensures Ok(r) && |r.data| == |c.data|
  {
    if !c.active then c
    else
      var d := StoreBytes(c, b.bytes);
      if b.end then d.(signals := d.signals + 1) else d
  }

  function StoreAll(c: Capture, bs: seq<Buffer>): (r: Capture)
    requires Ok(c)
    ensures Ok(r) && |r.data| == |c.data|
  {
    if bs == [] then c else StoreBuffer(StoreAll(c, bs[..|bs| - 1]), bs[|bs| - 1])
  }

  function Stream(bs: seq<Buffer>): seq<byte> {
    if bs == [] then [] else Stream(bs[..|bs| - 1]) + bs[|bs| - 1].bytes
  }

  /** The part of the stream that belongs in the caller's space. */
  function Payload(rgb: bool, stream: seq<byte>): seq<byte> {
    if !rgb then stream else if |stream| <= HEADER then [] else stream[HEADER..]
  }

  function Space(c: Capture): nat {
    if c.offset < c.length then c.length - c.offset else 0
  }

  /** A byte arrives when there is no space left - even a header byte that would not be stored. */
  predicate Overflows(c: Capture, stream: seq<byte>) {
    stream != [] && |Payload(c.rgb, stream[..|stream| - 1])| >= Space(c)
  }

  predicate Fresh(c: Capture) {
    Ok(c) && c.bufferPosition == 0 && c.active
  }

  /** What the caller's space holds: the payload, as far as it fits, and nothing else changed. */
  ghost predicate Holds(c: Capture, stream: seq<byte>, data: seq<byte>) {
    && |data| == |c.data|
    && var k := Min(|Payload(c.rgb, stream)|, Space(c));
       forall i :: 0 <= i < |data| ==>
         data[i] == if c.offset <= i < c.offset + k then Payload(c.rgb, stream)[i - c.offset] else c.data[i]
  }

  ghost predicate Stored(c: Capture, stream: seq<byte>, r: Capture) {
    && Holds(c, stream, r.data)
    && r.offset == c.offset + Min(|Payload(c.rgb, stream)|, Space(c))
    && (r.active <==> !Overflows(c, stream))
    && (r.active ==> r.bufferPosition == |stream|)
    && r.rgb == c.rgb && r.length == c.length && r.signals == c.signals
  }

  lemma PayloadGrows(rgb: bool, stream: seq<byte>, b: byte)
    ensures (stream + [b])[..|stream|] == stream
    ensures Payload(rgb, stream + [b]) == if rgb && |stream| < HEADER then Payload(rgb, stream) else Payload(rgb, stream) + [b]
    ensures stream != [] ==> |Payload(rgb, stream[..|stream| - 1])| <= |Payload(rgb, stream)|
  {
  }

  /** A byte that finds no space, or the capture abandoned. */
  lemma ByteLost(c: Capture, stream: seq<byte>, b: byte, r: Capture)
    requires Fresh(c) && Ok(r) && Stored(c, stream, r) && (!r.active || r.offset >= r.length)
    ensures Stored(c, stream + [b], StoreByte(r, b))
  {
    PayloadGrows(c.rgb, stream, b);
  }

  lemma ByteTaken(c: Capture, stream: seq<byte>, b: byte, r: Capture)
    requires Fresh(c) && Ok(r) && Stored(c, stream, r) && r.active && r.offset < r.length
    ensures Stored(c, stream + [b], StoreByte(r, b))
  {
    PayloadGrows(c.rgb, stream, b);
    HoldsOneMore(c, stream, b, r.data, r.offset);
  }

  lemma HoldsOneMore(c: Capture, stream: seq<byte>, b: byte, data: seq<byte>, at: nat)
    requires Holds(c, stream, data) && at == c.offset + |Payload(c.rgb, stream)| && at < c.length <= |data|
    ensures Payload(c.rgb, stream + [b]) == Payload(c.rgb, stream) ==> Holds(c, stream + [b], data)
    ensures Payload(c.rgb, stream + [b]) == Payload(c.rgb, stream) + [b] ==> Holds(c, stream + [b], data[at := b])
  {
  }

  lemma {:induction false} BytesStored(c: Capture, stream: seq<byte>)
    requires Fresh(c)
    ensures Stored(c, stream, StoreBytes(c, stream))
  {
    if stream != [] {
      var prefix, last := stream[..|stream| - 1], stream[|stream| - 1];
      BytesStored(c, prefix);
      var r := StoreBytes(c, prefix);
      if r.active && r.offset < r.length {
        ByteTaken(c, prefix, last, r);
      } else {
        ByteLost(c, prefix, last, r);
      }
      assert prefix + [last] == stream;
    }
  }

  lemma {:induction false} StoreInPieces(c: Capture, a: seq<byte>, b: seq<byte>)
    requires Ok(c)
    ensures StoreBytes(c, a + b) == StoreBytes(StoreBytes(c, a), b)
  {
    if b == [] {
      assert a + b == a;
    } else {
      assert (a + b)[..|a + b| - 1] == a + b[..|b| - 1];
      StoreInPieces(c, a, b[..|b| - 1]);
    }
  }

  lemma {:induction false} InactiveStores(c: Capture, bytes: seq<byte>)
    requires Ok(c) && !c.active
    ensures StoreBytes(c, bytes) == c
  {
    if bytes != [] { InactiveStores(c, bytes[..|bytes| - 1]); }
  }

  lemma {:induction false} SignalsApart(c: Capture, n: nat, bytes: seq<byte>)
    requires Ok(c)
    ensures StoreBytes(c.(signals := n), bytes) == StoreBytes(c, bytes).(signals := n)
    ensures StoreBytes(c, bytes).signals == c.signals
  {
    if bytes != [] { SignalsApart(c, n, bytes[..|bytes| - 1]); }
  }

  /** However the stream is cut into buffers, all but the completion count is as if its bytes
      had come in one piece. */
  lemma {:induction false} OnePiece(c: Capture, bs: seq<Buffer>)
    requires Ok(c)
    ensures StoreAll(c, bs).(signals := c.signals) == StoreBytes(c, Stream(bs))
  {
    if bs != [] {
      var prefix, last := bs[..|bs| - 1], bs[|bs| - 1];
      OnePiece(c, prefix);
      var d := StoreAll(c, prefix);
      StoreInPieces(c, Stream(prefix), last.bytes);
      SignalsApart(d, c.signals, last.bytes);
      if !d.active { InactiveStores(d.(signals := c.signals), last.bytes); }
    }
  }

  /** Chunk independence: for every way of cutting the encoded stream into buffers the caller's
      space ends up holding the stream (without its header in RGB mode), truncated to the space
      provided; nothing else is written; and the capture is abandoned exactly when a byte
      arrived that found the space full. */
  lemma ChunksDoNotMatter(c: Capture, bs: seq<Buffer>)
    requires Fresh(c)
    ensures var r := StoreAll(c, bs);
            && Holds(c, Stream(bs), r.data)
            && r.offset == c.offset + Min(|Payload(c.rgb, Stream(bs))|, Space(c))
            && (r.active <==> !Overflows(c, Stream(bs)))
  {
    OnePiece(c, bs);
    BytesStored(c, Stream(bs));
  }

  /** Byte by byte: in RGB mode the caller's space holds the stream from its 54th byte on, else from
      its start, as far as there is space; before and after that it is untouched. */
  lemma StoredAt(c: Capture, bs: seq<Buffer>, i: nat)
    requires Fresh(c) && i < |c.data|
    ensures var r, stream, skip := StoreAll(c, bs), Stream(bs), if c.rgb then 54 else 0;
            && |r.data| == |c.data|
            && r.data[i] == if c.offset <= i < c.length && i - c.offset + skip < |stream| then stream[i - c.offset + skip] else c.data[i]
  {
    ChunksDoNotMatter(c, bs);
  }

  /** After an overflow no later buffer has any effect, not even the one that ends the frame. */
  lemma {:induction false} OverflowIsFinal(c: Capture, before: seq<Buffer>, after: seq<Buffer>)
    requires Ok(c) && !StoreAll(c, before).active
    ensures StoreAll(c, before + after) == StoreAll(c, before)
  {
    if after == [] {
      assert before + after == before;
    } else {
      assert (before + after)[..|before + after| - 1] == before + after[..|after| - 1];
      OverflowIsFinal(c, before, after[..|after| - 1]);
    }
  }

  /** How many buffers end the image at a point where everything before them fitted. */
  function Completions(c: Capture, bs: seq<Buffer>): nat {
    if bs == [] then 0
    else
      var prefix, last := bs[..|bs| - 1], bs[|bs| - 1];
      Completions(c, prefix) + if last.end && !Overflows(c, Stream(prefix)) then 1 else 0
  }

  /** Completion is reported once for each buffer that ends the image, or reports a failed
      transmission, exactly when the stream before that buffer still fitted - whether or not its
      own bytes do; so a caller whose space overflows earlier waits forever. */
  lemma {:induction false} CompletionReported(c: Capture, bs: seq<Buffer>)
    requires Fresh(c)
    ensures StoreAll(c, bs).signals == c.signals + Completions(c, bs)
  {
    if bs != [] {
      var prefix := bs[..|bs| - 1];
      CompletionReported(c, prefix);
      ChunksDoNotMatter(c, prefix);
      SignalsApart(StoreAll(c, prefix), 0, bs[|bs| - 1].bytes);
    }
  }

  /** So whether completion is reported does depend on the cutting: the same three bytes for one
      byte of space complete in one buffer and never complete in two. */
  lemma CompletionDependsOnChunks()
    ensures var c := Capture(false, [0], 0, 0, 1, true, 0);
            var one, two := [Buffer([7, 8, 9], true)], [Buffer([7, 8], false), Buffer([9], true)];
            && Fresh(c) && Stream(one) == Stream(two)
            && StoreAll(c, one).signals == 1 && StoreAll(c, two).signals == 0
  {
    var c := Capture(false, [0], 0, 0, 1, true, 0);
    var one, two := [Buffer([7, 8, 9], true)], [Buffer([7, 8], false), Buffer([9], true)];
    assert one[..0] == [] && two[..1] == [Buffer([7, 8], false)] && two[..1][..0] == [];
    assert Stream(one[..0]) == [] && Stream(one) == [7, 8, 9];
    assert Stream(two[..1]) == [7, 8];
    assert Completions(c, one[..0]) == 0 && Completions(c, two[..1]) == 0;
    CompletionReported(c, one);
    CompletionReported(c, two);
  }

  // ---------------------------------------------------------------- the callback in place

  class Userdata {
    const rgb: bool
    const data: array<byte>
    var bufferPosition: nat
    var offset: nat
    var startingOffset: nat
    var length: nat
    var active: bool
    const waits: bool                       // a caller waits for the image; else a callback gets it
    ghost var signals: nat
    ghost var callbacks: seq<(nat, int)>    // the offset and length given to the callback

    ghost function View(): Capture
      reads this, data
    {
      Capture(rgb, data[..], bufferPosition, offset, length, active, signals)
    }

    /** Set up a capture into `space`, from `start` up to `size`. */
    constructor (encodingRgb: bool, space: array<byte>, start: nat, size: nat, wait: bool)
      requires size <= space.Length
      ensures data == space && Fresh(View()) && signals == 0 && callbacks == [] && waits == wait
      ensures rgb == encodingRgb && offset == startingOffset == start && length == size
    {
      rgb, data := encodingRgb, space;
      bufferPosition, offset, startingOffset, length := 0, start, start, size;
      active, signals, callbacks, waits := true, 0, [], wait;
    }

    /** Store one byte for which there is space, skipping the header in RGB mode. */
    method StoreNext(b: byte)
      requires Ok(View()) && active && offset < length
      modifies this`offset, this`bufferPosition, data
      ensures View() == StoreByte(old(View()), b)
    {
      if rgb {
        if bufferPosition >= HEADER {
          data[offset] := b;
          offset := offset + 1;
        }
      } else {
        data[offset] := b;
        offset := offset + 1;
      }
      bufferPosition := bufferPosition + 1;
    }

    /** Store a buffer's bytes until one finds no space. */
    method StoreUntilFull(buffer: seq<byte>)
      requires Ok(View()) && active
      modifies this`offset, this`bufferPosition, this`active, data
      ensures View() == StoreBytes(old(View()), buffer)
    {
      ghost var before := View();
      var i := 0;
      while i < |buffer|
        invariant i <= |buffer|
        invariant active && View() == StoreBytes(before, buffer[..i])
      {
        assert buffer[..i + 1][..i] == buffer[..i];
        if offset >= length {
          active := false;
          Rest(before, buffer[..i + 1], buffer[i + 1..]);
          assert buffer[..i + 1] + buffer[i + 1..] == buffer;
          return;
        }
        StoreNext(buffer[i]);
        i := i + 1;
      }
      assert buffer[..|buffer|] == buffer;
    }

    method BufferCallback(buffer: seq<byte>, end: bool)
      requires Ok(View())
      modifies this, data
      ensures View() == StoreBuffer(old(View()), Buffer(buffer, end))
      ensures startingOffset == old(startingOffset) && length == old(length)
      ensures callbacks == old(callbacks) +
                if !waits && signals > old(signals) then [(startingOffset, (length - startingOffset) % 0x1_0000_0000)] else []
    {
      if !active { return; }
      StoreUntilFull(buffer);
      if end {
        signals := signals + 1;
        if !waits { callbacks := callbacks + [(startingOffset, (length - startingOffset) % 0x1_0000_0000)]; }
      }
    }
  }

  /** Once abandoned, the rest of a buffer is skipped. */
  lemma Rest(c: Capture, a: seq<byte>, b: seq<byte>)
    requires Ok(c) && !StoreBytes(c, a).active
    ensures StoreBytes(c, a + b) == StoreBytes(c, a)
  {
    StoreInPieces(c, a, b);
    InactiveStores(StoreBytes(c, a), b);
  }
}
