/** camera/QCamera2/HAL/QCamera2HWICallbacks.cpp, sendPreviewCallback(): the frame either is shared
    with the application or has its strides removed into a buffer of the image's own size. */
module Preview {

  type byte = bv8

  datatype Format = NV21 | NV12 | YV12 | OtherFormat
  datatype Plane = Plane(stride: nat, scanline: nat)

  /** What the application is given. */
  datatype Sent = NoMemory | NoData | Shared(size: nat) | Copied(buffer: array<byte>)

  function Size(p: Plane): nat {
    p.stride * p.scanline
  }

  /** The rows of a plane that starts at `base`, without what is between them. */
  function Rows(frame: seq<byte>, base: nat, stride: nat, width: nat, n: nat): (rows: seq<byte>)
    requires width <= stride && base + n * stride <= |frame|
    ensures |rows| == width * n
  {
    if n == 0 then []
    else
      RowFits(frame, base, stride, width, n - 1, n);
      Rows(frame, base, stride, width, n - 1) + frame[base + (n - 1) * stride..][..width]
  }

  lemma RowFits(frame: seq<byte>, base: nat, stride: nat, width: nat, i: nat, n: nat)
    requires width <= stride && i < n && base + n * stride <= |frame|
    ensures i * stride >= 0 && width * (i + 1) == width * i + width <= width * n
    ensures base + i * stride + width <= base + (i + 1) * stride <= base + n * stride
  {
    Grows(i + 1, n, stride);
    Grows(i + 1, n, width);
  }

  lemma Grows(a: nat, b: nat, c: nat)
    requires a <= b
    ensures a * c <= b * c
  {
    assert (b - a) * c >= 0;
  }

  /** The image that the frame holds, as a semi-planar image of width x height. */
  function Image(frame: seq<byte>, width: nat, height: nat, y: Plane, uv: Plane): (image: seq<byte>)
    requires Holds(|frame|, width, height, y, uv)
    ensures |image| == width * height + width * (height / 2)
  {
    Products(width, height, y, uv);
    Rows(frame, 0, y.stride, width, height) + Rows(frame, Size(y), uv.stride, width, height / 2)
  }

  /** Strides and scanlines are at least the image's, and both planes are in the frame. */
  predicate Holds(length: nat, width: nat, height: nat, y: Plane, uv: Plane) {
    && width <= y.stride && height <= y.scanline
    && width <= uv.stride && height / 2 <= uv.scanline
    && Size(y) + Size(uv) <= length
  }

  lemma Products(width: nat, height: nat, y: Plane, uv: Plane)
    requires width <= y.stride && height <= y.scanline && width <= uv.stride && height / 2 <= uv.scanline
    ensures width * height <= height * y.stride <= Size(y)
    ensures width * (height / 2) <= height / 2 * uv.stride <= Size(uv)
  {
    Grows(width, y.stride, height);
    Grows(height, y.scanline, y.stride);
    Grows(width, uv.stride, height / 2);
    Grows(height / 2, uv.scanline, uv.stride);
  }

  lemma PlanesFit(length: nat, width: nat, height: nat, y: Plane, uv: Plane)
    requires Holds(length, width, height, y, uv)
    ensures height * y.stride <= length && Size(y) + height / 2 * uv.stride <= length
  {
    Products(width, height, y, uv);
  }

  /** Pixel by pixel: what is in row `r` and column `c`. */
  lemma {:induction false} RowsAt(frame: seq<byte>, base: nat, stride: nat, width: nat, n: nat, r: nat, c: nat)
    requires width <= stride && base + n * stride <= |frame| && r < n && c < width
    ensures 0 <= width * r + c < width * n && 0 <= base + r * stride + c < |frame|
    ensures Rows(frame, base, stride, width, n)[width * r + c] == frame[base + r * stride + c]
  {
    RowFits(frame, base, stride, width, r, n);
    RowFits(frame, base, stride, width, n - 1, n);
    if r < n - 1 {
      RowsAt(frame, base, stride, width, n - 1, r, c);
    }
  }

  /** Byte `to` of the image is byte `from` of the frame. */
  predicate Copies(image: seq<byte>, to: int, frame: seq<byte>, from: int) {
    0 <= to < |image| && 0 <= from < |frame| && image[to] == frame[from]
  }

  /** Where each byte of an image comes from: luma from the frame's start; chroma from behind all the
      scanlines of the luma plane, its own stride apart. */
  ghost predicate Shows(image: seq<byte>, frame: seq<byte>, width: nat, height: nat, y: Plane, uv: Plane) {
    && |image| == width * height + width * (height / 2)
    && (forall r, c :: 0 <= r < height && 0 <= c < width ==> LumaAt(image, frame, width, y, r, c))
    && (forall r, c :: 0 <= r < height / 2 && 0 <= c < width ==>
          ChromaAt(image, frame, width, height, y, uv, r, c))
  }

  predicate LumaAt(image: seq<byte>, frame: seq<byte>, width: nat, y: Plane, r: int, c: int) {
    Copies(image, width * r + c, frame, r * y.stride + c)
  }

  predicate ChromaAt(
    image: seq<byte>, frame: seq<byte>, width: nat, height: nat, y: Plane, uv: Plane, r: int, c: int)
  {
    Copies(image, width * height + width * r + c, frame, y.stride * y.scanline + r * uv.stride + c)
  }

  /** The luma byte in row `r` and column `c` of the image. */
  lemma ImageLuma(frame: seq<byte>, width: nat, height: nat, y: Plane, uv: Plane, r: nat, c: nat)
    requires Holds(|frame|, width, height, y, uv) && r < height && c < width
    ensures 0 <= width * r + c < width * height && 0 <= r * y.stride + c < |frame|
    ensures Image(frame, width, height, y, uv)[width * r + c] == frame[r * y.stride + c]
  {
    PlanesFit(|frame|, width, height, y, uv);
    RowsAt(frame, 0, y.stride, width, height, r, c);
  }

  /** The chroma byte in row `r` and column `c` of the image. */
  lemma ImageChroma(frame: seq<byte>, width: nat, height: nat, y: Plane, uv: Plane, r: nat, c: nat)
    requires Holds(|frame|, width, height, y, uv) && r < height / 2 && c < width
    ensures 0 <= width * height + width * r + c < width * height + width * (height / 2)
    ensures 0 <= y.stride * y.scanline + r * uv.stride + c < |frame|
    ensures Image(frame, width, height, y, uv)[width * height + width * r + c]
         == frame[y.stride * y.scanline + r * uv.stride + c]
  {
    PlanesFit(|frame|, width, height, y, uv);
    var n := |Rows(frame, 0, y.stride, width, height)|;
    RowsAt(frame, Size(y), uv.stride, width, height / 2, r, c);
    assert Image(frame, width, height, y, uv)[n + (width * r + c)]
           == Rows(frame, Size(y), uv.stride, width, height / 2)[width * r + c];
  }

  lemma ImageShows(frame: seq<byte>, width: nat, height: nat, y: Plane, uv: Plane)
    requires Holds(|frame|, width, height, y, uv)
    ensures Shows(Image(frame, width, height, y, uv), frame, width, height, y, uv)
  {
    var image := Image(frame, width, height, y, uv);
    forall r, c | 0 <= r < height && 0 <= c < width ensures LumaAt(image, frame, width, y, r, c) {
      ImageLuma(frame, width, height, y, uv, r, c);
    }
    forall r, c | 0 <= r < height / 2 && 0 <= c < width
      ensures ChromaAt(image, frame, width, height, y, uv, r, c)
    {
      ImageChroma(frame, width, height, y, uv, r, c);
    }
  }

  lemma {:induction false} TightRows(frame: seq<byte>, base: nat, width: nat, n: nat)
    requires base + width * n <= |frame|
    ensures Rows(frame, base, width, width, n) == frame[base..base + width * n]
  {
    if n > 0 {
      RowFits(frame, base, width, width, n - 1, n);
      TightRows(frame, base, width, n - 1);
    }
  }

  /** For an image that is not empty, equal sizes leave no room between the rows: every stride and
      scanline is the image's own, but for the stride of a plane without rows. */
  lemma SameSizeIsTight(width: nat, height: nat, y: Plane, uv: Plane)
    requires 0 < width && 0 < height
    requires width <= y.stride && height <= y.scanline && width <= uv.stride && height / 2 <= uv.scanline
    ensures width * height + width * (height / 2) == Size(y) + Size(uv)
       <==> y == Plane(width, height) && uv.scanline == height / 2 && (height > 1 ==> uv.stride == width)
  {
    Products(width, height, y, uv);
    if width * height + width * (height / 2) == Size(y) + Size(uv) {
      Tight(width, height, y.stride, y.scanline);
      Tight(width, height / 2, uv.stride, uv.scanline);
    }
  }

  lemma Tight(w: nat, h: nat, stride: nat, scanline: nat)
    requires 0 < w <= stride && h <= scanline && w * h == stride * scanline
    ensures scanline == h && (h > 0 ==> stride == w)
  {
    Grows(h, scanline, stride);
    assert (stride - w) * h + stride * (scanline - h) == stride * scanline - w * h;
    assert stride * (scanline - h) >= 0 && (stride - w) * h >= 0;
    if scanline > h {
      Grows(1, scanline - h, stride);
    }
    if h > 0 && stride > w {
      Grows(1, stride - w, h);
    }
  }

  /** So the shared frame begins with exactly the image. */
  lemma SharedIsImage(frame: seq<byte>, width: nat, height: nat, y: Plane, uv: Plane)
    requires 0 < width && 0 < height && Holds(|frame|, width, height, y, uv)
    requires width * height + width * (height / 2) == Size(y) + Size(uv)
    ensures Image(frame, width, height, y, uv) == frame[..width * height + width * (height / 2)]
  {
    SameSizeIsTight(width, height, y, uv);
    Products(width, height, y, uv);
    var luma := width * height;
    assert Size(y) == luma;
    TightRows(frame, 0, width, height);
    if height > 1 {
      TightRows(frame, luma, width, height / 2);
    }
    assert frame[..luma] + frame[luma..luma + width * (height / 2)] == frame[..luma + width * (height / 2)];
  }

  method Memcpy(dst: array<byte>, dstOffset: nat, src: array<byte>, srcOffset: nat, n: nat)
    requires dst != src && dstOffset + n <= dst.Length && srcOffset + n <= src.Length
    modifies dst
    ensures dst[..] == old(dst[..dstOffset]) + src[srcOffset..][..n] + old(dst[dstOffset + n..])
  {
    forall k | 0 <= k < n {
      dst[dstOffset + k] := src[srcOffset + k];
    }
  }

  /** One of the two loops: the `n` rows of a plane. */
  method CopyRows(dst: array<byte>, dstBase: nat, src: array<byte>, srcBase: nat, stride: nat, width: nat, n: nat,
                  ghost end: nat)
    requires dst != src && width <= stride && end == dstBase + width * n
    requires srcBase + n * stride <= src.Length && end <= dst.Length
    modifies dst
    ensures dst[..dstBase] == old(dst[..dstBase])
    ensures dst[dstBase..end] == Rows(src[..], srcBase, stride, width, n)
    ensures dst[end..] == old(dst[end..])
  {
    var i := 0;
    while i < n
      invariant 0 <= i <= n && 0 <= width * i <= width * n && 0 <= i * stride <= n * stride
      invariant dst[..dstBase] == old(dst[..dstBase])
      invariant dst[dstBase..dstBase + width * i] == Rows(src[..], srcBase, stride, width, i)
      invariant dst[dstBase + width * i..] == old(dst[dstBase + width * i..])
    {
      RowFits(src[..], srcBase, stride, width, i, n);
      var srcOffset := i * stride + srcBase;
      var dstOffset := width * i + dstBase;
      Memcpy(dst, dstOffset, src, srcOffset, width);
      i := i + 1;
    }
  }

  lemma TwoPlanes(buffer: seq<byte>, first: seq<byte>, second: seq<byte>)
    requires |first| + |second| == |buffer| && buffer[..|first|] == first && buffer[|first|..] == second
    ensures buffer == first + second
  {
  }

  method RemoveStrides(width: nat, height: nat, y: Plane, uv: Plane, data: array<byte>) returns (buffer: array<byte>)
    requires Holds(data.Length, width, height, y, uv)
    ensures fresh(buffer) && buffer[..] == Image(data[..], width, height, y, uv)
    ensures Shows(buffer[..], data[..], width, height, y, uv)
  {
    ImageShows(data[..], width, height, y, uv);
    var luma, chroma: nat := width * height, width * (height / 2);
    buffer := new byte[luma + chroma];
    PlanesFit(data.Length, width, height, y, uv);
    CopyPlanes(buffer, data, width, height, height / 2, y.stride, uv.stride, luma, y.stride * y.scanline);
    TwoPlanes(buffer[..], buffer[..luma], buffer[luma..]);
  }

  /** The two loops. */
  method CopyPlanes(buffer: array<byte>, data: array<byte>, width: nat, height: nat, half: nat,
                    yStride: nat, uvStride: nat, dstBaseOffset: nat, srcBaseOffset: nat)
    requires buffer != data && width <= yStride && width <= uvStride
    requires height * yStride <= data.Length && srcBaseOffset + half * uvStride <= data.Length
    requires dstBaseOffset == width * height && buffer.Length == dstBaseOffset + width * half
    modifies buffer
    ensures buffer[..dstBaseOffset] == Rows(data[..], 0, yStride, width, height)
    ensures buffer[dstBaseOffset..] == Rows(data[..], srcBaseOffset, uvStride, width, half)
  {
    CopyRows(buffer, 0, data, 0, yStride, width, height, dstBaseOffset);
    assert buffer[0..dstBaseOffset] == buffer[..dstBaseOffset];
    CopyRows(buffer, dstBaseOffset, data, srcBaseOffset, uvStride, width, half, buffer.Length);
    assert buffer[dstBaseOffset..buffer.Length] == buffer[dstBaseOffset..];
  }

  /** `data` is the frame that the callback is about, `room` says whether mGetMemory succeeds. The
      application is shown the image of a semi-planar frame byte for byte, shared or copied. */
  method SendPreviewCallback(fmt: Format, width: nat, height: nat, mp: seq<Plane>, data: array<byte>, room: bool)
    returns (sent: Sent)
    requires |mp| == 3
    requires fmt == YV12 ==> Size(mp[0]) + Size(mp[1]) + Size(mp[2]) <= data.Length
    requires fmt == NV21 || fmt == NV12 ==> Holds(data.Length, width, height, mp[0], mp[1])
    ensures sent == NoMemory <==> !room && fmt != OtherFormat
    ensures fmt == OtherFormat ==> sent == NoData
    ensures fmt == YV12 && room ==>
      sent == var size := mp[0].stride * mp[0].scanline + mp[1].stride * mp[1].scanline + mp[2].stride * mp[2].scanline;
              if size == 0 then NoData else Shared(size)
    ensures (fmt == NV21 || fmt == NV12) && room ==>
      match sent
      case Shared(size) => size <= data.Length && Shows(data[..size], data[..], width, height, mp[0], mp[1])
      case Copied(buffer) => fresh(buffer) && Shows(buffer[..], data[..], width, height, mp[0], mp[1])
      case NoData => (width == 0 || height == 0) && Size(mp[0]) + Size(mp[1]) == 0
      case NoMemory => false
    ensures (fmt == NV21 || fmt == NV12) && room && 0 < width && 0 < height ==>
      (sent.Shared? <==> mp[0] == Plane(width, height) && mp[1].scanline == height / 2
                         && (height > 1 ==> mp[1].stride == width))
  {
    if fmt == OtherFormat {
      return NoData;
    }
    var y, uv := mp[0], mp[1];
    var size, frameSize;
    if fmt == YV12 {
      size := Size(y) + Size(uv) + Size(mp[2]);
      frameSize := size;
    } else {
      Products(width, height, y, uv);
      size := width * height + width * (height / 2);
      frameSize := Size(y) + Size(uv);
      if 0 < width && 0 < height {
        SameSizeIsTight(width, height, y, uv);
        Grows(1, height, width);
      }
    }
    if !room {
      return NoMemory;
    }
    if size == frameSize {
      if fmt != YV12 && 0 < width && 0 < height {
        SharedIsImage(data[..], width, height, y, uv);
        ImageShows(data[..], width, height, y, uv);
      } else if fmt != YV12 {
        assert size == 0;
      }
      return if size == 0 then NoData else Shared(size);
    }
    var buffer := RemoveStrides(width, height, y, uv, data);
    return Copied(buffer);
  }
}
