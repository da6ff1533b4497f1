/** How the video callback turns a camera frame, padded to 32x16 blocks, into a tight image,
    and how the artificial camera lays out the frames it produces. */
module FrameLayout {
  import opened CInt
  import opened Sequences

  datatype Format = YUV420 | Gray | BGR | RGB

  /** Round up to a multiple of n. */
  function AlignUp(x: nat, n: nat): (r: nat)
    requires n > 0
  {
    (x + n - 1) / n * n
  }

  lemma AlignUpIsNext(x: nat, n: nat)
    requires n > 0
    ensures x <= AlignUp(x, n) < x + n && AlignUp(x, n) % n == 0
    ensures AlignUp(x, n) == x <==> x % n == 0
  {
    var q, m := (x + n - 1) / n, (x + n - 1) % n;
    assert x + n - 1 == q * n + m;
    MultipleMod(q, n);
    if x % n == 0 {
      var k := x / n;
      assert x == k * n;
      if q > k { MulMono(k + 1, q, n); } else if q < k { MulMono(q + 1, k, n); }
    }
  }

  lemma MultipleMod(q: nat, n: nat)
    requires n > 0
    ensures (q * n) % n == 0
  {
    var a, d, m := q * n, (q * n) / n, (q * n) % n;
    assert a == d * n + m;
    if d < q { MulMono(d + 1, q, n); }
    if d > q { MulMono(q + 1, d, n); }
  }

  /** The bytes of one row: three per pixel for packed colour, else one. */
  function RowBytes(fmt: Format, w: nat): nat {
    if fmt == RGB || fmt == BGR then 3 * w else w
  }

  /** What getImageTypeSize returns. */
  function ImageTypeSize(fmt: Format, w: nat, h: nat): nat {
    match fmt
    case YUV420 => w * h + 2 * ((w / 2 * h) / 2)
    case Gray => w * h
    case _ => 3 * w * h
  }

  // ---------------------------------------------------------------- rows

  /** The number of bytes in n rows of k. */
  function Size(n: nat, k: nat): nat {
    if n == 0 then 0 else Size(n - 1, k) + k
  }

  lemma {:induction false} SizeIsProduct(n: nat, k: nat)
    ensures Size(n, k) == n * k
  {
    if n > 0 { SizeIsProduct(n - 1, k); }
  }

  lemma {:induction false} MoreRows(m: nat, n: nat, k: nat)
    requires m <= n
    ensures Size(m, k) <= Size(n, k)
    ensures m < n ==> Size(m, k) + k <= Size(n, k)
    decreases n
  {
    if m < n { MoreRows(m, n - 1, k); }
  }

  /** n rows of `width` bytes, the first at `from` and each `stride` bytes after the one before,
      put together. */
  function Rows(src: seq<byte>, from: nat, stride: nat, width: nat, n: nat): (r: seq<byte>)
    requires width <= stride && from + Size(n, stride) <= |src|
    ensures |r| == Size(n, width)
  {
    if n == 0 then []
    else
      var at := from + Size(n - 1, stride);
      Rows(src, from, stride, width, n - 1) + src[at..at + width]
  }

  /** Byte c of row r. */
  lemma {:induction false} RowsAt(src: seq<byte>, from: nat, stride: nat, width: nat, n: nat, r: nat, c: nat)
    requires width <= stride && from + Size(n, stride) <= |src| && r < n && c < width
    ensures Size(r, width) + c < Size(n, width) && from + Size(r, stride) + c < |src|
    ensures Rows(src, from, stride, width, n)[Size(r, width) + c] == src[from + Size(r, stride) + c]
  {
    MoreRows(r, n, width);
    MoreRows(r, n, stride);
    var at := from + Size(n - 1, stride);
    var before, row := Rows(src, from, stride, width, n - 1), src[at..at + width];
    if r < n - 1 {
      MoreRows(r, n - 1, width);
      RowsAt(src, from, stride, width, n - 1, r, c);
      assert (before + row)[Size(r, width) + c] == before[Size(r, width) + c];
    } else {
      assert (before + row)[|before| + c] == row[c];
    }
  }

  /** Rows without padding are the bytes themselves. */
  lemma {:induction false} TightRows(src: seq<byte>, from: nat, width: nat, n: nat)
    requires from + Size(n, width) <= |src|
    ensures Rows(src, from, width, width, n) == src[from..from + Size(n, width)]
  {
    if n > 0 {
      TightRows(src, from, width, n - 1);
    }
  }

  // ---------------------------------------------------------------- the image in a padded frame

  /** Luma or packed pixels, then for YUV420 two chroma planes of half the width and height. */
  function PlaneBytes(fmt: Format, w: nat, h: nat): nat {
    Size(h, RowBytes(fmt, w))
  }

  function ChromaBytes(fmt: Format, w: nat, h: nat): nat {
    if fmt == YUV420 then Size(h / 2, w / 2) else 0
  }

  /** The size of an image of w by h pixels stored without gaps: the tight image, and also the
      padded frame, whose dimensions are the padded ones. */
  function FrameBytes(fmt: Format, w: nat, h: nat): nat {
    PlaneBytes(fmt, w, h) + ChromaBytes(fmt, w, h) + ChromaBytes(fmt, w, h)
  }

  lemma PlanesFit(fmt: Format, w: nat, h: nat, bw: nat, bh: nat)
    requires w <= bw && h <= bh
    ensures RowBytes(fmt, w) <= RowBytes(fmt, bw)
    ensures Size(h, RowBytes(fmt, bw)) <= PlaneBytes(fmt, bw, bh)
    ensures fmt == YUV420 ==> Size(h / 2, bw / 2) <= ChromaBytes(fmt, bw, bh)
  {
    MoreRows(h, bh, RowBytes(fmt, bw));
    MoreRows(h / 2, bh / 2, bw / 2);
  }

  /** Where the second chroma plane starts. */
  function LastPlane(fmt: Format, w: nat, h: nat): nat {
    PlaneBytes(fmt, w, h) + ChromaBytes(fmt, w, h)
  }

  /** The bytes of the image, plane by plane, without the padding. */
  function Crop(fmt: Format, src: seq<byte>, w: nat, h: nat, bw: nat, bh: nat): (r: seq<byte>)
    requires w <= bw && h <= bh && FrameBytes(fmt, bw, bh) <= |src|
    ensures |r| == FrameBytes(fmt, w, h)
  {
    PlanesFit(fmt, w, h, bw, bh);
    var luma := Rows(src, 0, RowBytes(fmt, bw), RowBytes(fmt, w), h);
    if fmt == YUV420 then
      luma + Rows(src, PlaneBytes(fmt, bw, bh), bw / 2, w / 2, h / 2) + Rows(src, LastPlane(fmt, bw, bh), bw / 2, w / 2, h / 2)
    else luma
  }

  /** The three planes of a YUV image. */
  lemma CropPlanes(src: seq<byte>, w: nat, h: nat, bw: nat, bh: nat) returns (y: seq<byte>, u: seq<byte>, v: seq<byte>)
    requires w <= bw && h <= bh && FrameBytes(YUV420, bw, bh) <= |src|
    ensures Crop(YUV420, src, w, h, bw, bh) == y + u + v
    ensures |y| == PlaneBytes(YUV420, w, h) && |y| + |u| == LastPlane(YUV420, w, h)
    ensures Size(h, bw) <= |src| && y == Rows(src, 0, bw, w, h)
    ensures PlaneBytes(YUV420, bw, bh) + Size(h / 2, bw / 2) <= |src|
    ensures u == Rows(src, PlaneBytes(YUV420, bw, bh), bw / 2, w / 2, h / 2)
    ensures LastPlane(YUV420, bw, bh) + Size(h / 2, bw / 2) <= |src|
    ensures v == Rows(src, LastPlane(YUV420, bw, bh), bw / 2, w / 2, h / 2)
  {
    PlanesFit(YUV420, w, h, bw, bh);
    y := Rows(src, 0, bw, w, h);
    u := Rows(src, PlaneBytes(YUV420, bw, bh), bw / 2, w / 2, h / 2);
    v := Rows(src, LastPlane(YUV420, bw, bh), bw / 2, w / 2, h / 2);
  }

  lemma OddProduct(a: nat, h: nat)
    ensures a * h == 2 * (a * (h / 2)) + a * (h % 2)
    ensures h % 2 == 0 ==> a * (h % 2) == 0
  {
    var b, m := h / 2, h % 2;
    assert a * (2 * b + m) == 2 * (a * b) + a * m;
  }

  lemma Commutes(a: nat, b: nat)
    ensures a * b == b * a
  {
  }

  lemma Triple(w: nat, h: nat)
    ensures h * (3 * w) == 3 * w * h
  {
    assert h * (3 * w) == 3 * (w * h);
  }

  /** The image never needs more than the size the library reports, even for odd dimensions. */
  lemma ImageFits(fmt: Format, w: nat, h: nat)
    ensures FrameBytes(fmt, w, h) <= ImageTypeSize(fmt, w, h)
    ensures (w % 2 == 0 && h % 2 == 0) || fmt != YUV420 ==> FrameBytes(fmt, w, h) == ImageTypeSize(fmt, w, h)
  {
    SizeIsProduct(h, RowBytes(fmt, w));
    match fmt
    case YUV420 =>
      Commutes(h, w);
      ChromaFits(w, h);
    case Gray => Commutes(h, w);
    case _ => Triple(w, h);
  }

  /** How many bytes more than the image needs: none but for a YUV image of odd height, which is
      reported as if its last chroma row were halved once more. */
  lemma SpareBytes(fmt: Format, w: nat, h: nat)
    ensures ImageTypeSize(fmt, w, h) - FrameBytes(fmt, w, h)
         == if fmt == YUV420 && h % 2 == 1 then 2 * (w / 2 / 2) else 0
  {
    ImageFits(fmt, w, h);
    SizeIsProduct(h, RowBytes(fmt, w));
    Commutes(h, w);
    if fmt == YUV420 {
      SizeIsProduct(h / 2, w / 2);
      Commutes(h / 2, w / 2);
      OddProduct(w / 2, h);
      HalfOfSum((w / 2) * (h / 2), (w / 2) * (h % 2));
    }
  }

  lemma HalfOfSum(a: nat, b: nat)
    ensures (2 * a + b) / 2 == a + b / 2
  {
  }

  lemma ChromaFits(w: nat, h: nat)
    ensures Size(h / 2, w / 2) <= (w / 2 * h) / 2
    ensures h % 2 == 0 ==> Size(h / 2, w / 2) == (w / 2 * h) / 2
  {
    SizeIsProduct(h / 2, w / 2);
    Commutes(h / 2, w / 2);
    OddProduct(w / 2, h);
  }

  // ---------------------------------------------------------------- copying

  method CopyBytes(data: array<byte>, at: nat, src: seq<byte>, off: nat, n: nat)
    requires at + n <= data.Length && off + n <= |src|
    modifies data
    ensures data[..at + n] == old(data[..at]) + src[off..off + n]
    ensures data[at + n..] == old(data[at + n..])
  {
    for i := 0 to n
      invariant forall k :: 0 <= k < data.Length ==>
                  data[k] == if at <= k < at + i then src[off + k - at] else old(data[k])
    {
      data[at + i] := src[off + i];
    }
  }

  /** Copy n rows to consecutive places. */
  method CopyRows(data: array<byte>, at: nat, src: seq<byte>, from: nat, stride: nat, width: nat, n: nat)
    requires width <= stride && from + Size(n, stride) <= |src| && at + Size(n, width) <= data.Length
    modifies data
    ensures data[..at + Size(n, width)] == old(data[..at]) + Rows(src, from, stride, width, n)
    ensures data[at + Size(n, width)..] == old(data[at + Size(n, width)..])
  {
    ghost var head, rows := data[..at], Rows(src, from, stride, width, 0);
    for i := 0 to n
      invariant Size(i, stride) <= Size(n, stride) && Size(i, width) <= Size(n, width)
      invariant rows == Rows(src, from, stride, width, i)
      invariant data[..at + Size(i, width)] == head + rows
      invariant data[at + Size(i, width)..] == old(data[at + Size(i, width)..])
    {
      MoreRows(i, n, stride);
      MoreRows(i, n, width);
      rows := NextRow(data, at, src, from, stride, width, i, head, rows);
    }
  }

  /** One round of the copy: one more row behind the rows already copied. */
  method NextRow(data: array<byte>, at: nat, src: seq<byte>, from: nat, stride: nat, width: nat, i: nat,
                 ghost head: seq<byte>, ghost rows: seq<byte>)
    returns (ghost rows': seq<byte>)
    requires width <= stride && from + Size(i, stride) + stride <= |src| && at + Size(i, width) + width <= data.Length
    requires rows == Rows(src, from, stride, width, i) && data[..at + Size(i, width)] == head + rows
    modifies data
    ensures rows' == Rows(src, from, stride, width, i + 1) && data[..at + Size(i, width) + width] == head + rows'
    ensures data[at + Size(i, width) + width..] == old(data[at + Size(i, width) + width..])
  {
    ghost var first := from + Size(i, stride);
    ghost var row := src[first..first + width];
    rows' := rows + row;
    RowsStep(src, from, stride, width, i);
    Reassociate(head, rows, row);
    CopyRow(data, at, src, from, stride, width, i);
  }

  lemma RowsStep(src: seq<byte>, from: nat, stride: nat, width: nat, i: nat)
    requires width <= stride && from + Size(i, stride) + stride <= |src|
    ensures Size(i + 1, stride) == Size(i, stride) + stride
    ensures Rows(src, from, stride, width, i + 1)
         == Rows(src, from, stride, width, i) + src[from + Size(i, stride)..from + Size(i, stride) + width]
  {
  }

  method CopyRow(data: array<byte>, at: nat, src: seq<byte>, from: nat, stride: nat, width: nat, i: nat)
    requires from + Size(i, stride) + width <= |src| && at + Size(i, width) + width <= data.Length
    modifies data
    ensures data[..at + Size(i, width) + width] == old(data[..at + Size(i, width)]) + src[from + Size(i, stride)..from + Size(i, stride) + width]
    ensures data[at + Size(i, width) + width..] == old(data[at + Size(i, width) + width..])
  {
    SizeIsProduct(i, stride);
    SizeIsProduct(i, width);
    CopyBytes(data, at + i * width, src, from + i * stride, width);
  }

  /** Keep the buffer if it has the right size, else replace it. */
  method Resize(data: array<byte>, size: nat) returns (r: array<byte>)
    ensures r.Length == size && (r == data || fresh(r))
  {
    if data.Length == size { return data; }
    r := new byte[size](_ => 0);
  }

  lemma ImageGrows(fmt: Format, w: nat, h: nat, bh: nat)
    requires h <= bh
    ensures ImageTypeSize(fmt, w, h) <= ImageTypeSize(fmt, w, bh)
  {
    match fmt
    case YUV420 =>
      Grows(w, h, bh);
      Grows(w / 2, h, bh);
    case Gray => Grows(w, h, bh);
    case _ => Grows(3 * w, h, bh);
  }

  lemma Grows(w: nat, h: nat, bh: nat)
    requires h <= bh
    ensures w * h <= w * bh
  {
    MulMono(h, bh, w);
  }

  /** With an aligned width the padded frame is at least as large as the size reported. */
  lemma ImageInFrame(fmt: Format, w: nat, h: nat, bh: nat)
    requires w % 32 == 0 && bh % 16 == 0 && h <= bh
    ensures ImageTypeSize(fmt, w, h) <= FrameBytes(fmt, w, bh)
  {
    ImageGrows(fmt, w, h, bh);
    EvenFrame(fmt, w, bh);
  }

  lemma EvenFrame(fmt: Format, w: nat, h: nat)
    requires w % 2 == 0 && h % 2 == 0
    ensures ImageTypeSize(fmt, w, h) == FrameBytes(fmt, w, h)
  {
    ImageFits(fmt, w, h);
  }

  lemma AlignedImageInFrame(fmt: Format, w: nat, h: nat)
    requires w % 32 == 0
    ensures ImageTypeSize(fmt, w, h) <= FrameBytes(fmt, w, AlignUp(h, 16))
  {
    AlignUpIsNext(h, 16);
    ImageInFrame(fmt, w, h, AlignUp(h, 16));
  }

  /** The copying part of the video callback. What it leaves is large enough for `Retrieve`
      whenever the buffer held a whole padded frame. */
  method StoreFrame(buffData: array<byte>, buffer: seq<byte>, fmt: Format, w: nat, h: nat) returns (data: array<byte>)
    requires w % 32 != 0 ==> FrameBytes(fmt, AlignUp(w, 32), AlignUp(h, 16)) <= |buffer|
    modifies buffData
    ensures data == buffData || fresh(data)
    ensures FrameBytes(fmt, AlignUp(w, 32), AlignUp(h, 16)) <= |buffer| ==> ImageTypeSize(fmt, w, h) <= data.Length
    ensures w <= AlignUp(w, 32) && h <= AlignUp(h, 16)
    ensures w % 32 == 0 ==> data[..] == buffer
    ensures w % 32 != 0 ==>
              && data.Length == ImageTypeSize(fmt, w, h) && FrameBytes(fmt, w, h) <= data.Length
              && data[..FrameBytes(fmt, w, h)] == Crop(fmt, buffer, w, h, AlignUp(w, 32), AlignUp(h, 16))
  {
    AlignUpIsNext(w, 32);
    AlignUpIsNext(h, 16);
    var bw, bh := AlignUp(w, 32), AlignUp(h, 16);
    if bw == w {
      AlignedImageInFrame(fmt, w, h);
      data := Resize(buffData, |buffer|);
      CopyBytes(data, 0, buffer, 0, |buffer|);
    } else {
      data := Resize(buffData, ImageTypeSize(fmt, w, h));
      ImageFits(fmt, w, h);
      Unpad(data, buffer, fmt, w, h, bw, bh);
    }
  }

  /** Hand the image out: as many bytes as the library reports. */
  method Retrieve(out: array<byte>, buffData: array<byte>, fmt: Format, w: nat, h: nat)
    requires buffData.Length != 0 ==> ImageTypeSize(fmt, w, h) <= out.Length && ImageTypeSize(fmt, w, h) <= buffData.Length
    requires out != buffData
    modifies out
    ensures buffData.Length == 0 ==> out[..] == old(out[..])
    ensures buffData.Length != 0 ==>
              var n := ImageTypeSize(fmt, w, h); out[..n] == buffData[..n] && out[n..] == old(out[n..])
  {
    if buffData.Length == 0 { return; }
    CopyBytes(out, 0, buffData[..], 0, ImageTypeSize(fmt, w, h));
  }

  method Unpad(data: array<byte>, buffer: seq<byte>, fmt: Format, w: nat, h: nat, bw: nat, bh: nat)
    requires w <= bw && h <= bh && FrameBytes(fmt, bw, bh) <= |buffer| && FrameBytes(fmt, w, h) <= data.Length
    modifies data
    ensures data[..FrameBytes(fmt, w, h)] == Crop(fmt, buffer, w, h, bw, bh)
  {
    PlanesFit(fmt, w, h, bw, bh);
    CopyRows(data, 0, buffer, 0, RowBytes(fmt, bw), RowBytes(fmt, w), h);
    if fmt == YUV420 {
      UnpadChroma(data, buffer, w, h, bw, bh);
    }
  }

  /** The two chroma planes, behind the luma plane that is already in place. */
  method UnpadChroma(data: array<byte>, buffer: seq<byte>, w: nat, h: nat, bw: nat, bh: nat)
    requires w <= bw && h <= bh && FrameBytes(YUV420, bw, bh) <= |buffer| && FrameBytes(YUV420, w, h) <= data.Length
    requires Size(h, bw) <= |buffer| && data[..PlaneBytes(YUV420, w, h)] == Rows(buffer, 0, bw, w, h)
    modifies data
    ensures data[..FrameBytes(YUV420, w, h)] == Crop(YUV420, buffer, w, h, bw, bh)
  {
    var outUV, bufferUV, outPlane, bufferPlane := ChromaOffsets(w, h, bw, bh);
    ghost var crop := CropParts(buffer, w, h, bw, bh, data[..outUV]);
    CopyPlanes(data, outUV, outPlane, buffer, bufferUV, bufferPlane, bw / 2, w / 2, h / 2);
  }

  /** The crop is the luma plane followed by the two chroma planes. */
  lemma CropParts(buffer: seq<byte>, w: nat, h: nat, bw: nat, bh: nat, luma: seq<byte>) returns (crop: seq<byte>)
    requires w <= bw && h <= bh && FrameBytes(YUV420, bw, bh) <= |buffer|
    requires Size(h, bw) <= |buffer| && luma == Rows(buffer, 0, bw, w, h)
    ensures PlaneBytes(YUV420, bw, bh) + Size(h / 2, bw / 2) <= |buffer|
    ensures LastPlane(YUV420, bw, bh) + Size(h / 2, bw / 2) <= |buffer|
    ensures crop == Crop(YUV420, buffer, w, h, bw, bh)
                 == luma + Rows(buffer, PlaneBytes(YUV420, bw, bh), bw / 2, w / 2, h / 2)
                         + Rows(buffer, LastPlane(YUV420, bw, bh), bw / 2, w / 2, h / 2)
  {
    var y, u, v := CropPlanes(buffer, w, h, bw, bh);
    crop := y + u + v;
  }

  /** Copy two planes of equal shape. */
  method CopyPlanes(data: array<byte>, at: nat, outPlane: nat, src: seq<byte>, from: nat, srcPlane: nat, stride: nat, width: nat, n: nat)
    requires width <= stride && outPlane == Size(n, width) && Size(n, stride) <= srcPlane
    requires from + srcPlane + srcPlane <= |src| && at + outPlane + outPlane <= data.Length
    modifies data
    ensures data[..at + outPlane + outPlane] == old(data[..at]) + Rows(src, from, stride, width, n) + Rows(src, from + srcPlane, stride, width, n)
  {
    var out, input := at, from;
    for plane := 0 to 2
      invariant plane == 0 ==> out == at && input == from && data[..at] == old(data[..at])
      invariant plane == 1 ==>
                  && out == at + outPlane && input == from + srcPlane
                  && data[..at + outPlane] == old(data[..at]) + Rows(src, from, stride, width, n)
      invariant plane == 2 ==>
                  data[..at + outPlane + outPlane] ==
                  old(data[..at]) + Rows(src, from, stride, width, n) + Rows(src, from + srcPlane, stride, width, n)
    {
      CopyRows(data, out, src, input, stride, width, n);
      out, input := out + outPlane, input + srcPlane;
    }
  }

  /** Where the chroma planes start, and their sizes, in the image and in the padded frame. */
  method ChromaOffsets(w: nat, h: nat, bw: nat, bh: nat) returns (outUV: nat, bufferUV: nat, outPlane: nat, bufferPlane: nat)
    requires w <= bw && h <= bh
    ensures outPlane == Size(h / 2, w / 2) && Size(h / 2, bw / 2) <= bufferPlane
    ensures outUV + outPlane + outPlane == FrameBytes(YUV420, w, h) && bufferUV + bufferPlane == LastPlane(YUV420, bw, bh)
    ensures bufferUV + bufferPlane + bufferPlane == FrameBytes(YUV420, bw, bh)
    ensures outUV == PlaneBytes(YUV420, w, h) && bufferUV == PlaneBytes(YUV420, bw, bh)
    ensures outPlane == ChromaBytes(YUV420, w, h) && bufferPlane == ChromaBytes(YUV420, bw, bh)
  {
    PlanesFit(YUV420, w, h, bw, bh);
    PlaneProducts(w, h);
    PlaneProducts(bw, bh);
    outUV, bufferUV := w * h, bh * bw;
    outPlane, bufferPlane := (w / 2) * (h / 2), (bw / 2) * (bh / 2);
  }

  lemma PlaneProducts(w: nat, h: nat)
    ensures PlaneBytes(YUV420, w, h) == w * h == h * w && ChromaBytes(YUV420, w, h) == (w / 2) * (h / 2)
  {
    SizeIsProduct(h, w);
    SizeIsProduct(h / 2, w / 2);
    Commutes(h, w);
    Commutes(h / 2, w / 2);
  }

  // ---------------------------------------------------------------- when the width is aligned

  /** The whole frame is copied as it is when the width is a multiple of 32. The image's bytes
      then come first for every frame content, unless a YUV frame has padding rows between
      its planes. */
  ghost predicate PrefixIsImage(fmt: Format, w: nat, h: nat, bh: nat)
    requires h <= bh
  {
    forall src: seq<byte> :: |src| == FrameBytes(fmt, w, bh) ==> Crop(fmt, src, w, h, w, bh) <= src
  }

  predicate PaddedPlanes(fmt: Format, w: nat, h: nat) {
    fmt == YUV420 && h % 16 != 0 && h >= 2 && w > 0
  }

  lemma AlignedCopyIsImage(fmt: Format, w: nat, h: nat)
    requires w % 32 == 0
    ensures h <= AlignUp(h, 16)
    ensures PrefixIsImage(fmt, w, h, AlignUp(h, 16)) <==> !PaddedPlanes(fmt, w, h)
  {
    AlignUpIsNext(h, 16);
    var bh := AlignUp(h, 16);
    if PaddedPlanes(fmt, w, h) {
      PaddingShows(w, h, bh);
    } else {
      forall src: seq<byte> | |src| == FrameBytes(fmt, w, bh) ensures Crop(fmt, src, w, h, w, bh) <= src {
        NoPaddingInside(fmt, src, w, h, bh);
      }
    }
  }

  lemma NoPaddingInside(fmt: Format, src: seq<byte>, w: nat, h: nat, bh: nat)
    requires h <= bh && |src| == FrameBytes(fmt, w, bh)
    requires fmt != YUV420 || h == bh || h < 2 || w == 0
    ensures Crop(fmt, src, w, h, w, bh) <= src
  {
    PlanesFit(fmt, w, h, w, bh);
    TightRows(src, 0, RowBytes(fmt, w), h);
    if fmt == YUV420 {
      if h == bh {
        TightPlanes(src, w, h);
      } else {
        SizeIsProduct(h / 2, w / 2);
        assert Size(h / 2, w / 2) == 0;
      }
    }
  }

  lemma TightPlanes(src: seq<byte>, w: nat, h: nat)
    requires |src| == FrameBytes(YUV420, w, h)
    ensures Crop(YUV420, src, w, h, w, h) == src
  {
    var y, u, v := CropPlanes(src, w, h, w, h);
    AllTight(src, PlaneBytes(YUV420, w, h), LastPlane(YUV420, w, h), w, h, w / 2, h / 2, y, u, v);
  }

  lemma AllTight(src: seq<byte>, from: nat, last: nat, w: nat, h: nat, w2: nat, h2: nat, y: seq<byte>, u: seq<byte>, v: seq<byte>)
    requires Size(h, w) <= |src| && y == Rows(src, 0, w, w, h) && |y| == from
    requires from + Size(h2, w2) <= |src| && u == Rows(src, from, w2, w2, h2) && from + |u| == last
    requires last + Size(h2, w2) == |src| && v == Rows(src, last, w2, w2, h2)
    ensures y + u + v == src
  {
    TightPlane(src, 0, w, h, y);
    TightChroma(src, from, last, w2, h2, u, v);
    ThreeParts(src, y, u, v);
  }

  lemma TightChroma(src: seq<byte>, from: nat, last: nat, width: nat, n: nat, u: seq<byte>, v: seq<byte>)
    requires from + Size(n, width) <= |src| && u == Rows(src, from, width, width, n)
    requires last + Size(n, width) <= |src| && v == Rows(src, last, width, width, n)
    ensures |u| == |v| == Size(n, width) && u == src[from..from + |u|] && v == src[last..last + |v|]
  {
    TightPlane(src, from, width, n, u);
    TightPlane(src, last, width, n, v);
  }

  lemma TightPlane(src: seq<byte>, from: nat, width: nat, n: nat, plane: seq<byte>)
    requires from + Size(n, width) <= |src| && plane == Rows(src, from, width, width, n)
    ensures from + |plane| <= |src| && |plane| == Size(n, width) && plane == src[from..from + |plane|]
  {
    TightRows(src, from, width, n);
  }

  lemma ThreeParts(src: seq<byte>, y: seq<byte>, u: seq<byte>, v: seq<byte>)
    requires |src| == |y| + |u| + |v|
    requires y == src[0..|y|] && u == src[|y|..|y| + |u|] && v == src[|y| + |u|..|y| + |u| + |v|]
    ensures y + u + v == src
  {
  }

  /** A frame with padding rows under the luma plane whose chroma bytes all differ from them. */
  lemma PaddingShows(w: nat, h: nat, bh: nat)
    requires w >= 2 && 2 <= h < bh
    ensures !PrefixIsImage(YUV420, w, h, bh)
  {
    PlanesFit(YUV420, w, h, w, bh);
    MoreRows(h, bh, w);
    MoreRows(0, h / 2, w / 2);
    var u, plane := PlaneBytes(YUV420, w, bh), ChromaBytes(YUV420, w, bh);
    var src: seq<byte> := seq(u + plane + plane, i => if i < u then 0 else 1);
    var chroma := Rows(src, u, w / 2, w / 2, h / 2);
    RowsAt(src, u, w / 2, w / 2, h / 2, 0, 0);
    assert chroma[0] == 1;
    var crop, at := Crop(YUV420, src, w, h, w, bh), Size(h, w);
    assert crop[at] == chroma[0];
    assert src[at] == 0;
  }

  /** The i-th byte, or -1 outside. */
  function At(s: seq<byte>, i: int): int {
    if 0 <= i < |s| then s[i] else -1
  }

  lemma RowAt(src: seq<byte>, from: nat, stride: nat, width: nat, n: nat, r: nat, c: nat, o: nat, i: nat)
    requires width <= stride && from + Size(n, stride) <= |src| && r < n && c < width
    requires o == Size(r, width) + c && i == Size(r, stride) + c
    ensures o < Size(n, width) && At(Rows(src, from, stride, width, n), o) == At(src, from + i) != -1
  {
    RowsAt(src, from, stride, width, n, r, c);
  }

  lemma PrefixAt(a: seq<byte>, whole: seq<byte>, o: nat)
    requires a <= whole && o < |a|
    ensures At(whole, o) == At(a, o)
  {
  }

  lemma CropStarts(fmt: Format, src: seq<byte>, w: nat, h: nat, bw: nat, bh: nat)
    requires w <= bw && h <= bh && FrameBytes(fmt, bw, bh) <= |src|
    ensures Size(h, RowBytes(fmt, bw)) <= |src|
    ensures Rows(src, 0, RowBytes(fmt, bw), RowBytes(fmt, w), h) <= Crop(fmt, src, w, h, bw, bh)
  {
    PlanesFit(fmt, w, h, bw, bh);
  }

  lemma CropRowsAt(fmt: Format, src: seq<byte>, w: nat, h: nat, bw: nat, bh: nat, r: nat, c: nat, o: nat, i: nat)
    requires w <= bw && h <= bh && FrameBytes(fmt, bw, bh) <= |src|
    requires r < h && c < RowBytes(fmt, w) && o == Size(r, RowBytes(fmt, w)) + c && i == Size(r, RowBytes(fmt, bw)) + c
    ensures At(Crop(fmt, src, w, h, bw, bh), o) == At(src, i) != -1
  {
    PlanesFit(fmt, w, h, bw, bh);
    CropStarts(fmt, src, w, h, bw, bh);
    RowAt(src, 0, RowBytes(fmt, bw), RowBytes(fmt, w), h, r, c, o, i);
    PrefixAt(Rows(src, 0, RowBytes(fmt, bw), RowBytes(fmt, w), h), Crop(fmt, src, w, h, bw, bh), o);
  }

  /** The image pixel by pixel: every byte of the luma or packed plane is the byte at its place
      in the padded frame. */
  lemma CropAt(fmt: Format, src: seq<byte>, w: nat, h: nat, bw: nat, bh: nat, r: nat, c: nat)
    requires w <= bw && h <= bh && FrameBytes(fmt, bw, bh) <= |src|
    requires r < h && c < RowBytes(fmt, w)
    ensures At(Crop(fmt, src, w, h, bw, bh), r * RowBytes(fmt, w) + c) == At(src, r * RowBytes(fmt, bw) + c) != -1
  {
    CropRowsAt(fmt, src, w, h, bw, bh, r, c, Size(r, RowBytes(fmt, w)) + c, Size(r, RowBytes(fmt, bw)) + c);
    SizeIsProduct(r, RowBytes(fmt, w));
    SizeIsProduct(r, RowBytes(fmt, bw));
  }

  function PixelBytes(fmt: Format): nat {
    match fmt
    case RGB => 3
    case BGR => 3
    case _ => 1
  }

  lemma PixelOffset(fmt: Format, y: nat, w: nat, x: nat, c: nat)
    requires c < PixelBytes(fmt)
    ensures y * RowBytes(fmt, w) + (PixelBytes(fmt) * x + c) == PixelBytes(fmt) * (y * w + x) + c
    ensures x < w ==> PixelBytes(fmt) * x + c < RowBytes(fmt, w)
  {
    var n := PixelBytes(fmt);
    assert y * (n * w) == n * (y * w);
    assert n * (y * w + x) == n * (y * w) + n * x;
  }

  /** A pixel of packed colour is three bytes, and of the other formats one; each is where the
      camera put it. */
  lemma PixelAt(fmt: Format, src: seq<byte>, w: nat, h: nat, bw: nat, bh: nat, x: nat, y: nat, c: nat)
    requires w <= bw && h <= bh && FrameBytes(fmt, bw, bh) <= |src| && x < w && y < h && c < PixelBytes(fmt)
    ensures At(Crop(fmt, src, w, h, bw, bh), PixelBytes(fmt) * (y * w + x) + c) == At(src, PixelBytes(fmt) * (y * bw + x) + c) != -1
  {
    PixelOffset(fmt, y, w, x, c);
    PixelOffset(fmt, y, bw, x, c);
    CropAt(fmt, src, w, h, bw, bh, y, PixelBytes(fmt) * x + c);
  }

  /** Byte o of the chroma planes, wherever the luma plane ends. */
  lemma ChromaAt(y: seq<byte>, u: seq<byte>, v: seq<byte>, o: nat, x: int, z: int)
    requires o < |u| && At(u, o) == x && o < |v| && At(v, o) == z
    ensures At(y + u + v, |y| + o) == x && At(y + u + v, |y| + |u| + o) == z
  {
  }

  lemma CropChromaRowsAt(src: seq<byte>, w: nat, h: nat, bw: nat, bh: nat, r: nat, c: nat, o: nat, i: nat)
    requires w <= bw && h <= bh && FrameBytes(YUV420, bw, bh) <= |src|
    requires r < h / 2 && c < w / 2 && o == Size(r, w / 2) + c && i == Size(r, bw / 2) + c
    ensures var crop := Crop(YUV420, src, w, h, bw, bh);
            && At(crop, PlaneBytes(YUV420, w, h) + o) == At(src, PlaneBytes(YUV420, bw, bh) + i) != -1
            && At(crop, LastPlane(YUV420, w, h) + o) == At(src, LastPlane(YUV420, bw, bh) + i) != -1
  {
    var y, u, v := ChromaPlanes(src, w, h, bw, bh, r, c, o, i);
    ChromaAt(y, u, v, o, At(src, PlaneBytes(YUV420, bw, bh) + i), At(src, LastPlane(YUV420, bw, bh) + i));
  }

  /** Byte o of each chroma plane. */
  lemma ChromaPlanes(src: seq<byte>, w: nat, h: nat, bw: nat, bh: nat, r: nat, c: nat, o: nat, i: nat)
    returns (y: seq<byte>, u: seq<byte>, v: seq<byte>)
    requires w <= bw && h <= bh && FrameBytes(YUV420, bw, bh) <= |src|
    requires r < h / 2 && c < w / 2 && o == Size(r, w / 2) + c && i == Size(r, bw / 2) + c
    ensures Crop(YUV420, src, w, h, bw, bh) == y + u + v
    ensures |y| == PlaneBytes(YUV420, w, h) && |y| + |u| == LastPlane(YUV420, w, h)
    ensures o < |u| && At(u, o) == At(src, PlaneBytes(YUV420, bw, bh) + i) != -1
    ensures o < |v| && At(v, o) == At(src, LastPlane(YUV420, bw, bh) + i) != -1
  {
    y, u, v := CropPlanes(src, w, h, bw, bh);
    PlaneRowAt(src, PlaneBytes(YUV420, bw, bh), bw / 2, w / 2, h / 2, r, c, o, i, u);
    PlaneRowAt(src, LastPlane(YUV420, bw, bh), bw / 2, w / 2, h / 2, r, c, o, i, v);
  }

  lemma PlaneRowAt(src: seq<byte>, from: nat, stride: nat, width: nat, n: nat, r: nat, c: nat, o: nat, i: nat, p: seq<byte>)
    requires width <= stride && from + Size(n, stride) <= |src| && r < n && c < width && p == Rows(src, from, stride, width, n)
    requires o == Size(r, width) + c && i == Size(r, stride) + c
    ensures o < |p| && At(p, o) == At(src, from + i) != -1
  {
    RowAt(src, from, stride, width, n, r, c, o, i);
  }

  /** And so is every byte of the two chroma planes. */
  lemma CropAtChroma(src: seq<byte>, w: nat, h: nat, bw: nat, bh: nat, r: nat, c: nat)
    requires w <= bw && h <= bh && FrameBytes(YUV420, bw, bh) <= |src|
    requires r < h / 2 && c < w / 2
    ensures var crop, o, i := Crop(YUV420, src, w, h, bw, bh), r * (w / 2) + c, r * (bw / 2) + c;
            && At(crop, w * h + o) == At(src, bw * bh + i) != -1
            && At(crop, w * h + (w / 2) * (h / 2) + o) == At(src, bw * bh + (bw / 2) * (bh / 2) + i) != -1
  {
    CropChromaRowsAt(src, w, h, bw, bh, r, c, Size(r, w / 2) + c, Size(r, bw / 2) + c);
    SizeIsProduct(r, w / 2);
    SizeIsProduct(r, bw / 2);
    PlaneProducts(w, h);
    PlaneProducts(bw, bh);
  }

  // ---------------------------------------------------------------- the artificial camera

  datatype Encoding = I420 | NV21 | I422 | Unsupported

  datatype Plane = Plane(offset: nat, pitch: nat, rows: nat)

  /** Consecutive planes that fill the frame exactly. */
  predicate Tiles(planes: seq<Plane>, from: nat, end: nat) {
    if planes == [] then from == end
    else planes[0].offset == from && Tiles(planes[1..], from + planes[0].pitch * planes[0].rows, end)
  }

  lemma TilesTwo(a: Plane, b: Plane, end: nat)
    ensures Tiles([a, b], 0, end) <==> a.offset == 0 && b.offset == a.pitch * a.rows && b.offset + b.pitch * b.rows == end
  {
    assert Tiles([a, b], 0, end) <==> a.offset == 0 && Tiles([b], a.pitch * a.rows, end) by { assert [a, b][1..] == [b]; }
    assert Tiles([b], a.pitch * a.rows, end) <==> b.offset == a.pitch * a.rows && b.offset + b.pitch * b.rows == end by { assert [b][1..] == []; }
  }

  lemma TilesThree(a: Plane, b: Plane, c: Plane, end: nat)
    ensures Tiles([a, b, c], 0, end) <==>
            && a.offset == 0 && b.offset == a.pitch * a.rows && c.offset == b.offset + b.pitch * b.rows
            && c.offset + c.pitch * c.rows == end
  {
    var second := a.pitch * a.rows;
    var third := second + b.pitch * b.rows;
    assert Tiles([a, b, c], 0, end) <==> a.offset == 0 && Tiles([b, c], second, end) by { assert [a, b, c][1..] == [b, c]; }
    assert Tiles([b, c], second, end) <==> b.offset == second && Tiles([c], third, end) by { assert [b, c][1..] == [c]; }
    assert Tiles([c], third, end) <==> c.offset == third && third + c.pitch * c.rows == end by { assert [c][1..] == []; }
  }

  class CameraPort {
    var frameSize: nat
    var planes: nat
    var bufferSizeMin: nat
    var bufferSizeRecommended: nat
    var pitch: array<nat>
    var offset: array<nat>

    constructor ()
      ensures pitch.Length == 3 && offset.Length == 3 && pitch != offset && offset[0] == 0
      ensures fresh(pitch) && fresh(offset)
    {
      frameSize, planes, bufferSizeMin, bufferSizeRecommended := 0, 0, 0, 0;
      pitch := new nat[3](_ => 0);
      offset := new nat[3](_ => 0);
    }

    ghost function PlaneAt(i: nat, rows: nat): Plane
      requires i < pitch.Length && i < offset.Length
      reads this, pitch, offset
    {
      Plane(offset[i], pitch[i], rows)
    }

    /** The planes of a frame of h rows (already aligned), by encoding. */
    ghost function Planes(encoding: Encoding, h: nat): seq<Plane>
      requires pitch.Length == 3 && offset.Length == 3
      reads this, pitch, offset
    {
      match encoding
      case I420 => [PlaneAt(0, h), PlaneAt(1, h / 2), PlaneAt(2, h / 2)]
      case NV21 => [PlaneAt(0, h), PlaneAt(1, h / 2)]
      case I422 => [PlaneAt(0, h), PlaneAt(1, h), PlaneAt(2, h)]
      case Unsupported => []
    }

    predicate Arrays()
      reads this
    {
      pitch.Length == 3 && offset.Length == 3 && pitch != offset
    }

    /** Fix the frame layout for a format. The planes tile the frame; for I420 the chroma
        planes are where the video callback looks for them. */
    method FormatCommit(encoding: Encoding, w: nat, h: nat) returns (ok: bool)
      requires Arrays() && offset[0] == 0
      modifies this, pitch, offset
      ensures pitch == old(pitch) && offset == old(offset) && offset[0] == 0
      ensures ok <==> encoding != Unsupported
      ensures !ok ==> unchanged(this) && unchanged(pitch) && unchanged(offset)
      ensures ok ==> bufferSizeMin == bufferSizeRecommended == frameSize
      ensures ok ==> planes == |Planes(encoding, AlignUp(h, 16))| && pitch[0] == AlignUp(w, 32)
      ensures ok ==> Tiles(Planes(encoding, AlignUp(h, 16)), 0, frameSize)
      ensures encoding == I420 ==>
                var bw, bh := AlignUp(w, 32), AlignUp(h, 16);
                && frameSize == FrameBytes(YUV420, bw, bh)
                && offset[1] == bw * bh && offset[2] == bw * bh + (bw / 2) * (bh / 2)
                && pitch[1] == bw / 2 && pitch[2] == bw / 2
    {
      AlignUpIsNext(w, 32);
      AlignUpIsNext(h, 16);
      var width, height := AlignUp(w, 32), AlignUp(h, 16);
      ok := true;
      match encoding {
      case I420 => CommitI420(width, height);
      case NV21 => CommitNV21(width, height);
      case I422 => CommitI422(width, height);
      case Unsupported => return false;
      }
      bufferSizeMin, bufferSizeRecommended := frameSize, frameSize;
    }

    method CommitI420(width: nat, height: nat)
      requires Arrays() && offset[0] == 0 && width % 32 == 0 && height % 16 == 0
      modifies this`frameSize, this`planes, pitch, offset
      ensures offset[0] == 0 && planes == 3 && pitch[0] == width
      ensures Tiles(Planes(I420, height), 0, frameSize)
      ensures frameSize == FrameBytes(YUV420, width, height)
      ensures offset[1] == width * height && offset[2] == width * height + (width / 2) * (height / 2)
      ensures pitch[1] == width / 2 && pitch[2] == width / 2
    {
      EvenHalves(width, height);
      PlaneProducts(width, height);
      frameSize := width * height * 3 / 2;
      planes := 3;
      pitch[0] := width;
      offset[1] := pitch[0] * height;
      pitch[1] := width / 2;
      offset[2] := offset[1] + pitch[1] * height / 2;
      pitch[2] := width / 2;
      TilesThree(PlaneAt(0, height), PlaneAt(1, height / 2), PlaneAt(2, height / 2), frameSize);
    }

    method CommitNV21(width: nat, height: nat)
      requires Arrays() && offset[0] == 0 && width % 32 == 0 && height % 16 == 0
      modifies this`frameSize, this`planes, pitch, offset
      ensures offset[0] == 0 && planes == 2 && pitch[0] == width
      ensures Tiles(Planes(NV21, height), 0, frameSize)
    {
      EvenHalves(width, height);
      frameSize := width * height * 3 / 2;
      planes := 2;
      pitch[0] := width;
      offset[1] := pitch[0] * height;
      pitch[1] := width;
      TilesTwo(PlaneAt(0, height), PlaneAt(1, height / 2), frameSize);
    }

    method CommitI422(width: nat, height: nat)
      requires Arrays() && offset[0] == 0 && width % 32 == 0 && height % 16 == 0
      modifies this`frameSize, this`planes, pitch, offset
      ensures offset[0] == 0 && planes == 3 && pitch[0] == width
      ensures Tiles(Planes(I422, height), 0, frameSize)
    {
      EvenHalves(width, height);
      frameSize := width * height * 2;
      planes := 3;
      pitch[0] := width;
      offset[1] := pitch[0] * height;
      pitch[1] := width / 2;
      offset[2] := offset[1] + pitch[1] * height;
      pitch[2] := width / 2;
      TilesThree(PlaneAt(0, height), PlaneAt(1, height), PlaneAt(2, height), frameSize);
    }
  }

  lemma EvenHalves(w: nat, h: nat)
    requires w % 32 == 0 && h % 16 == 0
    ensures (w / 2 * h) / 2 == (w / 2) * (h / 2)
    ensures w * h * 3 / 2 == w * h + (w / 2) * (h / 2) + (w / 2) * (h / 2)
    ensures w * h * 3 / 2 == w * h + w * (h / 2)
    ensures w * h * 2 == w * h + (w / 2) * h + (w / 2) * h
  {
    DoubledProducts(w / 2, h / 2);
    assert w == 2 * (w / 2) && h == 2 * (h / 2);
  }

  lemma DoubledProducts(a: nat, b: nat)
    ensures (2 * a) * (2 * b) == 4 * (a * b) && a * (2 * b) == 2 * (a * b) && (2 * a) * b == 2 * (a * b)
  {
  }
}
