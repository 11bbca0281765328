/** rgbToYV12: in-place colour conversion with a subsampling pass over the changed buffer. */
module ImageUtil {
  import opened Bytes

  datatype ImageFormat = RGB24 | ARGB32 | BGA24 | BGRA32 {
    predicate Wide() { this == ARGB32 || this == BGRA32 }
    function BytesPerPixel(): nat { if Wide() then 4 else 3 }
    function Offset(): nat { if this == BGRA32 then 1 else 0 }
    predicate BlueFirst() { this == ARGB32 || this == RGB24 }
    /** Where pixel k starts. */
    function Start(k: nat): nat { if Wide() then 4 * k else 3 * k }
  }

  datatype Pixel = Pixel(r: byte, g: byte, b: byte)

  function PixelAt(s: seq<byte>, f: ImageFormat, k: nat): Pixel
    requires f.Start(k + 1) <= |s|
  {
    var i := f.Start(k) + f.Offset();
    if f.BlueFirst() then Pixel(s[i + 2], s[i + 1], s[i]) else Pixel(s[i], s[i + 1], s[i + 2])
  }

  // ---------------------------------------------------------------- one pixel

  /** The reference conversion, in integers: floor division by 256. */
  function Luma(p: Pixel): byte { (66 * p.r + 129 * p.g + 25 * p.b + 128) / 256 + 16 }
  function Cb(p: Pixel): byte { (-38 * p.r - 74 * p.g + 112 * p.b + 128) / 256 + 128 }
  function Cr(p: Pixel): byte { (112 * p.r - 94 * p.g - 18 * p.b + 128) / 256 + 128 }

  /** Conversion of a float to unsigned char: truncation, defined only in range. */
  function ToByte(x: real): byte
    requires 0.0 <= x < 256.0
  {
    x.Floor
  }

  /** Values a single-precision float holds: multiples of 1/256 with a numerator of at most
      24 bits. */
  predicate IsSingle(x: real) {
    var m := x * 256.0;
    m == m.Floor as real && -16777216.0 < m < 16777216.0
  }

  /** Rounding to single precision, which leaves such values as they are. */
  ghost predicate RoundsToSingle(fl: real -> real) {
    forall x :: IsSingle(x) ==> fl(x) == x
  }

  /** (float) n / 256 + bias, every operation rounded. */
  function Scaled(fl: real -> real, n: int, bias: int): real {
    fl(fl(fl(n as real) / 256.0) + bias as real)
  }

  /** No rounding happens for the numerators that occur, and the floor of the result is the
      integer division by 256 plus the bias. */
  lemma ScaledFloor(fl: real -> real, n: int, bias: int)
    requires RoundsToSingle(fl) && -0x1_0000 < n < 0x1_0000 && 0 <= bias <= 0x100
    ensures Scaled(fl, n, bias) == n as real / 256.0 + bias as real
    ensures Scaled(fl, n, bias).Floor == n / 256 + bias
  {
    IntegerIsSingle(n);
    QuotientIsSingle(n, bias);
    var q := n / 256;
    assert q as real * 256.0 <= n as real < (q + 1) as real * 256.0;
    assert q as real <= n as real / 256.0 < (q + 1) as real;
  }

  lemma IntegerIsSingle(n: int)
    requires -0x1_0000 < n < 0x1_0000
    ensures IsSingle(n as real)
  {
    assert n as real * 256.0 == (n * 256) as real;
  }

  lemma QuotientIsSingle(n: int, bias: int)
    requires -0x1_0000 < n < 0x1_0000 && 0 <= bias <= 0x100
    ensures IsSingle(n as real / 256.0) && IsSingle(n as real / 256.0 + bias as real)
  {
    assert n as real / 256.0 * 256.0 == n as real;
    assert (n as real / 256.0 + bias as real) * 256.0 == (n + bias * 256) as real;
  }

  /** The float conversion of a pixel never leaves 0..255 and equals the integer one; Y lies
      in 16..235, U and V in 16..240. */
  function FloatY(fl: real -> real, p: Pixel): (y: byte)
    requires RoundsToSingle(fl)
    ensures y == Luma(p) && 16 <= y <= 235
  {
    ScaledFloor(fl, p.r * 66 + p.g * 129 + p.b * 25 + 128, 16);
    ToByte(Scaled(fl, p.r * 66 + p.g * 129 + p.b * 25 + 128, 16))
  }

  function FloatU(fl: real -> real, p: Pixel): (u: byte)
    requires RoundsToSingle(fl)
    ensures u == Cb(p) && 16 <= u <= 240
  {
    ScaledFloor(fl, p.r * -38 + p.g * -74 + p.b * 112 + 128, 128);
    ToByte(Scaled(fl, p.r * -38 + p.g * -74 + p.b * 112 + 128, 128))
  }

  function FloatV(fl: real -> real, p: Pixel): (v: byte)
    requires RoundsToSingle(fl)
    ensures v == Cr(p) && 16 <= v <= 240
  {
    ScaledFloor(fl, p.r * 112 + p.g * -94 + p.b * -18 + 128, 128);
    ToByte(Scaled(fl, p.r * 112 + p.g * -94 + p.b * -18 + 128, 128))
  }

  datatype Yuv = Yuv(y: byte, u: byte, v: byte)

  function ConvertPixel(p: Pixel): Yuv { Yuv(Luma(p), Cb(p), Cr(p)) }

  /** The three float expressions of the loop. */
  function FloatConvert(fl: real -> real, p: Pixel): (r: Yuv)
    requires RoundsToSingle(fl)
    ensures r == ConvertPixel(p)
  {
    Yuv(FloatY(fl, p), FloatU(fl, p), FloatV(fl, p))
  }

  // ---------------------------------------------------------------- the whole image

  /** The reference: every original pixel converted, without subsampling. */
  ghost function Reference(s: seq<byte>, f: ImageFormat, n: nat): (r: seq<Yuv>)
    requires f.Start(n) <= |s|
    ensures |r| == n
  {
    seq(n, k requires 0 <= k < n => ConvertPixel(PixelAt(s, f, k)))
  }

  /** The buffer s after its first n pixels were replaced by those of the reference. */
  ghost predicate Converted(s: seq<byte>, now: seq<byte>, f: ImageFormat, ref: seq<Yuv>, n: nat) {
    && |now| == |s| && f.Start(n) <= |s| && n <= |ref|
    && (forall k :: 0 <= k < n ==> ConvertedPixel(s, now, f, ref, k))
    && (forall i :: f.Start(n) <= i < |s| ==> now[i] == s[i])
  }

  /** Pixel k was replaced by its Y, U and V; its fourth byte, if any, is untouched. */
  ghost predicate ConvertedPixel(s: seq<byte>, now: seq<byte>, f: ImageFormat, ref: seq<Yuv>, k: nat)
    requires |now| == |s| && k < |ref|
  {
    f.Start(k + 1) <= |s| && (
      var i := f.Start(k) + f.Offset();
      && now[i] == ref[k].y && now[i + 1] == ref[k].u && now[i + 2] == ref[k].v
      && (f.Wide() ==> now[f.Start(k) + 3 - 3 * f.Offset()] == s[f.Start(k) + 3 - 3 * f.Offset()]))
  }

  /** The first n bytes of the plane are the luma of the first n original pixels. */
  ghost predicate LumaPlane(ref: seq<Yuv>, y: seq<byte>, n: nat) {
    n <= |y| && n <= |ref| && forall k :: 0 <= k < n ==> y[k] == ref[k].y
  }

  /** The first m cells from out on are the chroma of every second original pixel from
      source on. */
  ghost predicate ChromaRow(ref: seq<Yuv>, u: seq<byte>, v: seq<byte>, source: nat, out: nat, m: nat) {
    && out + m <= |u| && out + m <= |v| && source + 2 * m <= |ref|
    && forall c :: 0 <= c < m ==> ChromaCell(ref, u, v, source, out, c)
  }

  ghost predicate ChromaCell(ref: seq<Yuv>, u: seq<byte>, v: seq<byte>, source: nat, out: nat, c: nat)
    requires source + 2 * c < |ref| && out + c < |u| && out + c < |v|
  {
    u[out + c] == ref[source + 2 * c].u && v[out + c] == ref[source + 2 * c].v
  }

  /** The first rows of the planes: the chroma at (r, c) is that of the original pixel at
      (2r, 2c). */
  ghost predicate ChromaPlanes(ref: seq<Yuv>, u: seq<byte>, v: seq<byte>, w: nat, rows: nat) {
    forall r :: 0 <= r < rows ==> RowAt(ref, u, v, w, r)
  }

  ghost predicate RowAt(ref: seq<Yuv>, u: seq<byte>, v: seq<byte>, w: nat, r: nat) {
    ChromaRow(ref, u, v, 2 * r * w, r * (w / 2), w / 2)
  }

  /** The plane past its first n bytes is as before. */
  ghost predicate RestKept(before: seq<byte>, now: seq<byte>, n: nat) {
    |now| == |before| && forall i :: n <= i < |now| ==> now[i] == before[i]
  }

  /** The Y plane is the luma of each original pixel, and U and V are the chroma of every
      second pixel of every second row, although the buffer is overwritten first. */
  method RgbToYV12(rgb: array<byte>, w: nat, h: nat, yPlane: array<byte>, uPlane: array<byte>, vPlane: array<byte>,
                   f: ImageFormat, fl: real -> real)
    requires RoundsToSingle(fl)
    requires rgb.Length >= f.Start(w * h) && yPlane.Length >= w * h
    requires uPlane.Length >= (h / 2) * (w / 2) && vPlane.Length >= (h / 2) * (w / 2)
    requires rgb != yPlane && rgb != uPlane && rgb != vPlane && yPlane != uPlane && yPlane != vPlane && uPlane != vPlane
    modifies rgb, yPlane, uPlane, vPlane
    ensures LumaPlane(Reference(old(rgb[..]), f, w * h), yPlane[..], w * h)
    ensures ChromaPlanes(Reference(old(rgb[..]), f, w * h), uPlane[..], vPlane[..], w, h / 2)
    ensures Converted(old(rgb[..]), rgb[..], f, Reference(old(rgb[..]), f, w * h), w * h)
    ensures RestKept(old(yPlane[..]), yPlane[..], w * h)
    ensures RestKept(old(uPlane[..]), uPlane[..], (h / 2) * (w / 2))
    ensures RestKept(old(vPlane[..]), vPlane[..], (h / 2) * (w / 2))
  {
    ghost var s := rgb[..];
    ConvertInPlace(rgb, w * h, yPlane, f, fl);
    Downsample(rgb, s, Reference(s, f, w * h), w, h, uPlane, vPlane, f);
  }

  // ---------------------------------------------------------------- by format

  /** Where each format keeps red, green and blue. */
  function Red(s: seq<byte>, f: ImageFormat, k: nat): byte
    requires f.Start(k + 1) <= |s|
  {
    match f
    case RGB24 => s[3 * k + 2]
    case ARGB32 => s[4 * k + 2]
    case BGA24 => s[3 * k]
    case BGRA32 => s[4 * k + 1]
  }

  function Green(s: seq<byte>, f: ImageFormat, k: nat): byte
    requires f.Start(k + 1) <= |s|
  {
    match f
    case RGB24 => s[3 * k + 1]
    case ARGB32 => s[4 * k + 1]
    case BGA24 => s[3 * k + 1]
    case BGRA32 => s[4 * k + 2]
  }

  function Blue(s: seq<byte>, f: ImageFormat, k: nat): byte
    requires f.Start(k + 1) <= |s|
  {
    match f
    case RGB24 => s[3 * k]
    case ARGB32 => s[4 * k]
    case BGA24 => s[3 * k + 2]
    case BGRA32 => s[4 * k + 3]
  }

  lemma PixelIs(s: seq<byte>, f: ImageFormat, k: nat)
    requires f.Start(k + 1) <= |s|
    ensures PixelAt(s, f, k) == Pixel(Red(s, f, k), Green(s, f, k), Blue(s, f, k))
  {}

  /** The conversion in terms of the bytes of each format. */
  lemma PixelByFormat(s: seq<byte>, f: ImageFormat, n: nat, k: nat)
    requires k < n && f.Start(n) <= |s|
    ensures f.Start(k + 1) <= |s|
    ensures var r, g, b := Red(s, f, k), Green(s, f, k), Blue(s, f, k);
      && Reference(s, f, n)[k].y == (66 * r + 129 * g + 25 * b + 128) / 256 + 16
      && Reference(s, f, n)[k].u == (-38 * r - 74 * g + 112 * b + 128) / 256 + 128
      && Reference(s, f, n)[k].v == (112 * r - 94 * g - 18 * b + 128) / 256 + 128
  {
    PixelIs(s, f, k);
    assert Reference(s, f, n)[k] == ConvertPixel(PixelAt(s, f, k));
  }

  /** The finished Y plane in terms of the original bytes. */
  lemma LumaByFormat(s: seq<byte>, f: ImageFormat, n: nat, y: seq<byte>, k: nat)
    requires f.Start(n) <= |s| && LumaPlane(Reference(s, f, n), y, n) && k < n
    ensures f.Start(k + 1) <= |s| && k < |y|
    ensures y[k] == (66 * Red(s, f, k) + 129 * Green(s, f, k) + 25 * Blue(s, f, k) + 128) / 256 + 16
  {
    PixelByFormat(s, f, n, k);
  }

  lemma CellAt(ref: seq<Yuv>, u: seq<byte>, v: seq<byte>, w: nat, rows: nat, r: nat, c: nat)
    requires ChromaPlanes(ref, u, v, w, rows) && r < rows && c < w / 2
    ensures 2 * r * w + 2 * c < |ref| && r * (w / 2) + c < |u| && r * (w / 2) + c < |v|
    ensures u[r * (w / 2) + c] == ref[2 * r * w + 2 * c].u && v[r * (w / 2) + c] == ref[2 * r * w + 2 * c].v
  {
    assert RowAt(ref, u, v, w, r);
    assert ChromaCell(ref, u, v, 2 * r * w, r * (w / 2), c);
  }

  /** The finished U and V planes: at (r, c) the chroma of the original pixel at (2r, 2c). */
  lemma ChromaByFormat(
    s: seq<byte>, f: ImageFormat, w: nat, h: nat, u: seq<byte>, v: seq<byte>, r: nat, c: nat, p: nat, at: nat)
    requires f.Start(w * h) <= |s| && ChromaPlanes(Reference(s, f, w * h), u, v, w, h / 2)
    requires r < h / 2 && c < w / 2 && p == 2 * r * w + 2 * c && at == r * (w / 2) + c
    ensures f.Start(p + 1) <= |s| && at < |u| && at < |v|
    ensures u[at] == (-38 * Red(s, f, p) - 74 * Green(s, f, p) + 112 * Blue(s, f, p) + 128) / 256 + 128
    ensures v[at] == (112 * Red(s, f, p) - 94 * Green(s, f, p) - 18 * Blue(s, f, p) + 128) / 256 + 128
  {
    CellAt(Reference(s, f, w * h), u, v, w, h / 2, r, c);
    PixelByFormat(s, f, w * h, p);
  }

  // ---------------------------------------------------------------- the first pass

  method ConvertInPlace(rgb: array<byte>, n: nat, yPlane: array<byte>, f: ImageFormat, fl: real -> real)
    requires RoundsToSingle(fl)
    requires rgb.Length >= f.Start(n) && yPlane.Length >= n && rgb != yPlane
    modifies rgb, yPlane
    ensures Converted(old(rgb[..]), rgb[..], f, Reference(old(rgb[..]), f, n), n)
    ensures LumaPlane(Reference(old(rgb[..]), f, n), yPlane[..], n)
    ensures RestKept(old(yPlane[..]), yPlane[..], n)
  {
    ghost var s := rgb[..];
    ghost var ref := Reference(s, f, n);
    var bytesPerPixel := f.BytesPerPixel();
    var nRGBBytes := f.Start(n);
    var nYPlaneOut := 0;
    var i := 0;
    while i < nRGBBytes
      invariant 0 <= nYPlaneOut <= n && i == f.Start(nYPlaneOut)
      invariant Converted(s, rgb[..], f, ref, nYPlaneOut)
      invariant LumaPlane(ref, yPlane[..], nYPlaneOut)
      invariant RestKept(old(yPlane[..]), yPlane[..], n)
      decreases nRGBBytes - i
    {
      ConvertAt(rgb, s, n, nYPlaneOut, f, fl);
      LumaStep(ref, yPlane[..], nYPlaneOut);
      StoreByte(yPlane, nYPlaneOut, rgb[i + 0 + f.Offset()]);
      nYPlaneOut := nYPlaneOut + 1;
      i := i + bytesPerPixel;
    }
  }

  lemma LumaStep(ref: seq<Yuv>, y: seq<byte>, k: nat)
    requires LumaPlane(ref, y, k) && k < |y| && k < |ref|
    ensures LumaPlane(ref, y[k := ref[k].y], k + 1)
  {}

  method StoreByte(plane: array<byte>, i: nat, value: byte)
    requires i < plane.Length
    modifies plane
    ensures plane[..] == old(plane[..])[i := value]
  {
    plane[i] := value;
  }

  /** A pixel not yet converted still reads as in the original. */
  lemma SamePixel(s: seq<byte>, now: seq<byte>, f: ImageFormat, ref: seq<Yuv>, k: nat)
    requires Converted(s, now, f, ref, k) && f.Start(k + 1) <= |s|
    ensures PixelAt(now, f, k) == PixelAt(s, f, k)
  {}

  /** One turn on the buffer. */
  method ConvertAt(rgb: array<byte>, ghost s: seq<byte>, ghost n: nat, k: nat, f: ImageFormat, fl: real -> real)
    requires RoundsToSingle(fl)
    requires k < n && f.Start(n) <= |s| == rgb.Length
    requires Converted(s, rgb[..], f, Reference(s, f, n), k)
    modifies rgb
    ensures Converted(s, rgb[..], f, Reference(s, f, n), k + 1)
    ensures rgb[f.Start(k) + f.Offset()] == Reference(s, f, n)[k].y
  {
    SamePixel(s, rgb[..], f, Reference(s, f, n), k);
    var yuv := ConvertOne(rgb, f, k, fl);
    OverwritePixel(rgb, s, Reference(s, f, n), k, f, yuv);
  }

  method OverwritePixel(rgb: array<byte>, ghost s: seq<byte>, ghost ref: seq<Yuv>, k: nat, f: ImageFormat, yuv: Yuv)
    requires Converted(s, rgb[..], f, ref, k) && f.Start(k + 1) <= rgb.Length
    requires k < |ref| && ref[k] == yuv
    modifies rgb
    ensures Converted(s, rgb[..], f, ref, k + 1)
    ensures rgb[f.Start(k) + f.Offset()] == ref[k].y
  {
    ghost var before := rgb[..];
    var i, offset := f.Start(k), f.Offset();
    rgb[i + 0 + offset] := yuv.y;
    rgb[i + 1 + offset] := yuv.u;
    rgb[i + 2 + offset] := yuv.v;
    OnePixelConverted(s, before, rgb[..], f, ref, k);
  }

  method ConvertOne(rgb: array<byte>, f: ImageFormat, k: nat, fl: real -> real) returns (yuv: Yuv)
    requires RoundsToSingle(fl)
    requires f.Start(k + 1) <= rgb.Length
    ensures yuv == ConvertPixel(PixelAt(rgb[..], f, k))
  {
    var p := ReadPixel(rgb, f, k);
    yuv := FloatConvert(fl, p);
  }

  method ReadPixel(rgb: array<byte>, f: ImageFormat, k: nat) returns (p: Pixel)
    requires f.Start(k + 1) <= rgb.Length
    ensures p == PixelAt(rgb[..], f, k)
  {
    var i, offset := f.Start(k), f.Offset();
    var R, G, B;
    if f.BlueFirst() {
      B := rgb[i + 0 + offset];
      G := rgb[i + 1 + offset];
      R := rgb[i + 2 + offset];
    } else {
      R := rgb[i + 0 + offset];
      G := rgb[i + 1 + offset];
      B := rgb[i + 2 + offset];
    }
    p := Pixel(R, G, B);
  }

  /** Y, U and V were stored at i; everything else is as before. */
  ghost predicate Stored(before: seq<byte>, now: seq<byte>, i: nat, p: Yuv) {
    && |now| == |before| && i + 2 < |now|
    && now[i] == p.y && now[i + 1] == p.u && now[i + 2] == p.v
    && forall j :: 0 <= j < |now| && (j < i || i + 2 < j) ==> now[j] == before[j]
  }

  lemma OnePixelConverted(s: seq<byte>, before: seq<byte>, now: seq<byte>, f: ImageFormat, ref: seq<Yuv>, k: nat)
    requires Converted(s, before, f, ref, k) && |now| == |s| && k < |ref|
    requires f.Start(k + 1) <= |s|
    requires Stored(before, now, f.Start(k) + f.Offset(), ref[k])
    ensures Converted(s, now, f, ref, k + 1)
  {
    assert forall i :: 0 <= i < f.Start(k) ==> now[i] == before[i];
    assert forall i :: f.Start(k + 1) <= i < |s| ==> now[i] == before[i];
    forall j | 0 <= j < k
      ensures ConvertedPixel(s, now, f, ref, j)
    {
      assert ConvertedPixel(s, before, f, ref, j);
      EarlierPixelKept(s, before, now, f, ref, j, k);
    }
    assert ConvertedPixel(s, now, f, ref, k);
  }

  lemma EarlierPixelKept(s: seq<byte>, before: seq<byte>, now: seq<byte>, f: ImageFormat, ref: seq<Yuv>, j: nat, k: nat)
    requires |now| == |before| == |s| && j < k <= |ref| && f.Start(k) <= |s|
    requires forall i :: 0 <= i < f.Start(k) ==> now[i] == before[i]
    requires ConvertedPixel(s, before, f, ref, j)
    ensures ConvertedPixel(s, now, f, ref, j)
  {
    assert f.Start(j) + f.Offset() + 2 < f.Start(k) && f.Start(j) + 3 - 3 * f.Offset() <= f.Start(k);
  }

  // ---------------------------------------------------------------- the second pass

  lemma RowsFit(rows: nat, width: nat, r: nat)
    requires r < rows
    ensures r * width + width <= rows * width
  {
    assert (r + 1) * width <= rows * width;
  }

  /** A row of pixels lies in the buffer, and a row of cells in the planes. */
  lemma RowRoom(w: nat, h: nat, r: nat)
    requires r < h / 2
    ensures 2 * r * w + 2 * (w / 2) <= w * h
    ensures r * (w / 2) + w / 2 <= (h / 2) * (w / 2)
  {
    RowsFit(h, w, 2 * r);
    RowsFit(h / 2, w / 2, r);
  }

  lemma StillKept(before: seq<byte>, now: seq<byte>, next: seq<byte>, n: nat, m: nat)
    requires RestKept(before, now, n) && RestKept(now, next, m) && m <= n
    ensures RestKept(before, next, n)
  {}

  /** Reads the converted buffer, and finds the chroma of the original. */
  method Downsample(rgb: array<byte>, ghost s: seq<byte>, ghost ref: seq<Yuv>, w: nat, h: nat,
                    uPlane: array<byte>, vPlane: array<byte>, f: ImageFormat)
    requires Converted(s, rgb[..], f, ref, w * h)
    requires uPlane.Length >= (h / 2) * (w / 2) && vPlane.Length >= (h / 2) * (w / 2)
    requires rgb != uPlane && rgb != vPlane && uPlane != vPlane
    modifies uPlane, vPlane
    ensures ChromaPlanes(ref, uPlane[..], vPlane[..], w, h / 2)
    ensures RestKept(old(uPlane[..]), uPlane[..], (h / 2) * (w / 2))
    ensures RestKept(old(vPlane[..]), vPlane[..], (h / 2) * (w / 2))
  {
    var halfWidth, halfHeight := w / 2, h / 2;
    var yPixel := 0;
    while yPixel < halfHeight
      invariant 0 <= yPixel <= halfHeight
      invariant ChromaPlanes(ref, uPlane[..], vPlane[..], w, yPixel)
      invariant RestKept(old(uPlane[..]), uPlane[..], halfHeight * halfWidth)
      invariant RestKept(old(vPlane[..]), vPlane[..], halfHeight * halfWidth)
    {
      RowRoom(w, h, yPixel);
      ghost var u, v := uPlane[..], vPlane[..];
      DownsampleRow(rgb, s, ref, w * h, uPlane, vPlane, f, 2 * yPixel * w, yPixel * halfWidth, halfWidth);
      NextRow(ref, u, v, uPlane[..], vPlane[..], w, yPixel);
      StillKept(old(uPlane[..]), u, uPlane[..], halfHeight * halfWidth, yPixel * halfWidth + halfWidth);
      StillKept(old(vPlane[..]), v, vPlane[..], halfHeight * halfWidth, yPixel * halfWidth + halfWidth);
      yPixel := yPixel + 1;
    }
  }

  lemma NextRow(ref: seq<Yuv>, u: seq<byte>, v: seq<byte>, u': seq<byte>, v': seq<byte>, w: nat, r: nat)
    requires ChromaPlanes(ref, u, v, w, r) && |u'| == |u| && |v'| == |v|
    requires r * (w / 2) <= |u| && u'[..r * (w / 2)] == u[..r * (w / 2)]
    requires r * (w / 2) <= |v| && v'[..r * (w / 2)] == v[..r * (w / 2)]
    requires ChromaRow(ref, u', v', 2 * r * w, r * (w / 2), w / 2)
    ensures ChromaPlanes(ref, u', v', w, r + 1)
  {
    forall q | 0 <= q < r
      ensures RowAt(ref, u', v', w, q)
    {
      assert RowAt(ref, u, v, w, q);
      RowsFit(r, w / 2, q);
      EarlierCellsKept(ref, u, v, u', v', 2 * q * w, q * (w / 2), w / 2, r * (w / 2));
    }
    assert RowAt(ref, u', v', w, r);
  }

  lemma EarlierCellsKept(ref: seq<Yuv>, u: seq<byte>, v: seq<byte>, u': seq<byte>, v': seq<byte>,
                         source: nat, out: nat, m: nat, end: nat)
    requires ChromaRow(ref, u, v, source, out, m) && out + m <= end <= |u| && end <= |v| && |u'| == |u| && |v'| == |v|
    requires u'[..end] == u[..end] && v'[..end] == v[..end]
    ensures ChromaRow(ref, u', v', source, out, m)
  {
    forall c | 0 <= c < m
      ensures ChromaCell(ref, u', v', source, out, c)
    {
      assert ChromaCell(ref, u, v, source, out, c);
      assert u'[..end][out + c] == u[..end][out + c] && v'[..end][out + c] == v[..end][out + c];
    }
  }

  /** One row: out is where it starts in the planes, source its first pixel. */
  method DownsampleRow(rgb: array<byte>, ghost s: seq<byte>, ghost ref: seq<Yuv>, ghost n: nat,
                       uPlane: array<byte>, vPlane: array<byte>, f: ImageFormat, source: nat, out: nat, halfWidth: nat)
    requires Converted(s, rgb[..], f, ref, n) && source + 2 * halfWidth <= n
    requires out + halfWidth <= uPlane.Length && out + halfWidth <= vPlane.Length
    requires rgb != uPlane && rgb != vPlane && uPlane != vPlane
    modifies uPlane, vPlane
    ensures ChromaRow(ref, uPlane[..], vPlane[..], source, out, halfWidth)
    ensures uPlane[..out] == old(uPlane[..out]) && vPlane[..out] == old(vPlane[..out])
    ensures RestKept(old(uPlane[..]), uPlane[..], out + halfWidth)
    ensures RestKept(old(vPlane[..]), vPlane[..], out + halfWidth)
  {
    var iBaseSrc := f.Start(source);
    var xPixel := 0;
    while xPixel < halfWidth
      invariant 0 <= xPixel <= halfWidth
      invariant iBaseSrc == f.Start(source + 2 * xPixel)
      invariant ChromaRow(ref, uPlane[..], vPlane[..], source, out, xPixel)
      invariant uPlane[..out] == old(uPlane[..out]) && vPlane[..out] == old(vPlane[..out])
      invariant RestKept(old(uPlane[..]), uPlane[..], out + halfWidth)
      invariant RestKept(old(vPlane[..]), vPlane[..], out + halfWidth)
    {
      ghost var u, v := uPlane[..], vPlane[..];
      assert ConvertedPixel(s, rgb[..], f, ref, source + 2 * xPixel);
      uPlane[out + xPixel] := rgb[iBaseSrc + 1 + f.Offset()];
      vPlane[out + xPixel] := rgb[iBaseSrc + 2 + f.Offset()];
      EarlierCellsKept(ref, u, v, uPlane[..], vPlane[..], source, out, xPixel, out + xPixel);
      assert ChromaCell(ref, uPlane[..], vPlane[..], source, out, xPixel);
      iBaseSrc := iBaseSrc + (if f.Wide() then 8 else 6);
      xPixel := xPixel + 1;
    }
  }
}
