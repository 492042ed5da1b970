/**
Conversion of a YV12 frame, three packed planes, to interleaved RGB.

The factors are decimal constants with six digits. A product is truncated toward zero, and it never comes so close to
an integer that the rounding of a double could matter (`RoundingHarmless`), so the arithmetic is done in millionths.
*/
module YuvConverter {
  type Byte = x: int | 0 <= x < 256

  datatype Rgb = Rgb(r: Byte, g: Byte, b: Byte)

  const MILLION := 1000000

  /** Division that truncates toward zero. */
  function Truncated(x: int): int { if x >= 0 then x / MILLION else -(-x / MILLION) }

  /** A real cut to its integer part, as a conversion to int does. */
  function RealTruncated(x: real): int { if x >= 0.0 then x.Floor else -((-x).Floor) }

  function Clamp(x: int): (r: Byte)
    ensures 0 <= x < 256 ==> r == x
    ensures x < 0 ==> r == 0
    ensures x >= 256 ==> r == 255
  {
    if x < 0 then 0 else if x > 255 then 255 else x
  }

  /** The colour of one luma value and its block's two chroma values. */
  function Colour(y: Byte, v: Byte, u: Byte): Rgb {
    Rgb(
      Clamp(y + Truncated(1370705 * (u - 128))),
      Clamp(y - Truncated(698001 * (v - 128)) - Truncated(337633 * (u - 128))),
      Clamp(y + Truncated(1732446 * (v - 128))))
  }

  /** The colour by the formulas in reals, with their decimal factors. */
  predicate IsColour(y: Byte, v: Byte, u: Byte, c: Rgb) {
    && c.r == Clamp(y + RealTruncated(1.370705 * (u - 128) as real))
    && c.g == Clamp(y - RealTruncated(0.698001 * (v - 128) as real) - RealTruncated(0.337633 * (u - 128) as real))
    && c.b == Clamp(y + RealTruncated(1.732446 * (v - 128) as real))
  }

  // ----- where the planes are read -----

  function YAt(w: nat, j: nat, i: nat): nat { j * w + i }

  /** The place of pixel (j, i)'s block in a chroma plane. */
  function BlockAt(w: nat, j: nat, i: nat): nat { (j / 2) * (w / 2) + i / 2 }

  function VAt(w: nat, h: nat, j: nat, i: nat): nat { w * h + BlockAt(w, j, i) }

  function UAt(w: nat, h: nat, j: nat, i: nat): nat { w * h + w * h / 4 + BlockAt(w, j, i) }

  /** One more than the last index read. */
  function ReadBound(w: nat, h: nat): nat
    requires w > 0 && h > 0
  {
    UAt(w, h, h - 1, w - 1) + 1
  }

  lemma ProductGrows(a: nat, b: nat, c: nat)
    requires a <= b
    ensures a * c <= b * c
  {
  }

  lemma RowsApart(a: nat, b: nat, w: nat)
    requires a < b
    ensures a * w + w <= b * w
  {
    ProductGrows(a + 1, b, w);
    assert (a + 1) * w == a * w + w;
  }

  lemma BlockBound(w: nat, h: nat, j: nat, i: nat)
    requires j < h && i < w
    ensures BlockAt(w, j, i) <= BlockAt(w, h - 1, w - 1)
  {
    ProductGrows(j / 2, (h - 1) / 2, w / 2);
  }

  lemma PixelBound(w: nat, h: nat, j: nat, i: nat)
    requires j < h && i < w
    ensures YAt(w, j, i) < w * h
  {
    ProductGrows(j + 1, h, w);
    assert (j + 1) * w == j * w + w;
  }

  lemma ReadsInside(w: nat, h: nat, j: nat, i: nat)
    requires j < h && i < w
    ensures YAt(w, j, i) < w * h <= VAt(w, h, j, i) <= UAt(w, h, j, i) < ReadBound(w, h)
  {
    PixelBound(w, h, j, i);
    BlockBound(w, h, j, i);
  }

  // ----- the method -----

  function PixelOf(yuv: seq<Byte>, w: nat, h: nat, j: nat, i: nat): Rgb
    requires j < h && i < w && |yuv| >= ReadBound(w, h)
  {
    ReadsInside(w, h, j, i);
    Colour(yuv[YAt(w, j, i)], yuv[VAt(w, h, j, i)], yuv[UAt(w, h, j, i)])
  }

  /** Pixel number p of the output. */
  predicate Painted(rgb: array<Byte>, p: nat, colour: Rgb)
    requires 3 * p + 2 < rgb.Length
    reads rgb
  {
    rgb[3 * p] == colour.r && rgb[3 * p + 1] == colour.g && rgb[3 * p + 2] == colour.b
  }

  predicate Accepts(yuv: array?<Byte>, w: int, h: int)
    requires yuv != null ==> yuv.Length > 0
    reads yuv
  {
    yuv != null && yuv[0] != 0 && w > 0 && h > 0
  }

  /** Rows before j, and the pixels before i of row j, are painted. */
  ghost predicate PaintedUpTo(rgb: array<Byte>, yuv: seq<Byte>, w: nat, h: nat, n: nat)
    requires w > 0 && h > 0 && |yuv| >= ReadBound(w, h)
    requires n <= w * h && rgb.Length >= 3 * (w * h)
    reads rgb
  {
    forall p :: 0 <= p < n ==> Painted(rgb, p, PixelNumbered(yuv, w, h, p))
  }

  /** Pixels are numbered row by row. */
  function PixelNumbered(yuv: seq<Byte>, w: nat, h: nat, p: nat): Rgb
    requires w > 0 && h > 0 && p < w * h && |yuv| >= ReadBound(w, h)
  {
    PixelInside(w, h, p);
    PixelOf(yuv, w, h, p / w, p % w)
  }

  lemma PixelInside(w: nat, h: nat, p: nat)
    requires w > 0 && p < w * h
    ensures 0 <= p / w < h && 0 <= p % w < w && p == YAt(w, p / w, p % w)
  {
    if p / w >= h {
      ProductGrows(h, p / w, w);
      assert false;
    }
  }

  lemma PixelNumber(w: nat, j: nat, i: nat)
    requires i < w
    ensures YAt(w, j, i) / w == j && YAt(w, j, i) % w == i
  {
    var p := j * w + i;
    var q := p / w;
    assert q * w + p % w == p;
    if q < j {
      RowsApart(q, j, w);
      assert false;
    } else if q > j {
      RowsApart(j, q, w);
      assert false;
    }
  }

  /** YV12toRGB. A null frame, a first luma of zero, or an empty size is refused and paints nothing. */
  method YV12toRGB(yuv: array?<Byte>, rgb: array<Byte>, w: int, h: int) returns (ok: bool)
    requires yuv != rgb
    requires yuv != null ==> yuv.Length > 0
    requires Accepts(yuv, w, h) ==> yuv.Length >= ReadBound(w, h) && rgb.Length >= 3 * (w * h)
    modifies rgb
    ensures ok <==> yuv != null && yuv[0] != 0 && w > 0 && h > 0
    ensures !ok ==> rgb[..] == old(rgb[..])
    ensures ok ==> PaintedUpTo(rgb, yuv[..], w, h, w * h)
    ensures ok ==> forall k :: 3 * (w * h) <= k < rgb.Length ==> rgb[k] == old(rgb[k])
  {
    if yuv == null {
      return false;
    }
    if yuv[0] == 0 {
      return false;
    }
    if w <= 0 || h <= 0 {
      return false;
    }
    hide PaintedUpTo, ReadBound;
    var j := 0;
    while j < h
      invariant 0 <= j <= h && j * w <= w * h
      invariant PaintedUpTo(rgb, yuv[..], w, h, j * w)
      invariant forall k :: 3 * (w * h) <= k < rgb.Length ==> rgb[k] == old(rgb[k])
    {
      RowsApart(j, h, w);
      PaintRow(yuv, rgb, w, h, j);
      assert (j + 1) * w == j * w + w;
      j := j + 1;
    }
    return true;
  }

  /** The inner loop: one row. */
  method PaintRow(yuv: array<Byte>, rgb: array<Byte>, w: nat, h: nat, j: nat)
    requires yuv != rgb && j < h && w > 0
    requires yuv.Length >= ReadBound(w, h) && rgb.Length >= 3 * (w * h)
    requires j * w <= w * h && j * w + w <= w * h
    requires PaintedUpTo(rgb, yuv[..], w, h, j * w)
    modifies rgb
    ensures PaintedUpTo(rgb, yuv[..], w, h, j * w + w)
    ensures forall k :: 3 * (w * h) <= k < rgb.Length ==> rgb[k] == old(rgb[k])
  {
    var i := 0;
    while i < w
      invariant 0 <= i <= w
      invariant PaintedUpTo(rgb, yuv[..], w, h, j * w + i)
      invariant forall k :: 3 * (w * h) <= k < rgb.Length ==> rgb[k] == old(rgb[k])
    {
      PaintPixel(yuv, rgb, w, h, j, i);
      i := i + 1;
    }
  }

  method PaintPixel(yuv: array<Byte>, rgb: array<Byte>, w: nat, h: nat, j: nat, i: nat)
    requires yuv != rgb && j < h && i < w
    requires yuv.Length >= ReadBound(w, h) && rgb.Length >= 3 * (w * h)
    requires j * w + i < w * h
    requires PaintedUpTo(rgb, yuv[..], w, h, j * w + i)
    modifies rgb
    ensures PaintedUpTo(rgb, yuv[..], w, h, j * w + i + 1)
    ensures forall k :: 3 * (w * h) <= k < rgb.Length ==> rgb[k] == old(rgb[k])
  {
    var p := j * w + i;
    PixelNumber(w, j, i);
    var colour := ComputePixel(yuv, w, h, j, i);
    assert PixelNumbered(yuv[..], w, h, p) == colour;
    hide PixelNumbered, ReadBound;
    StorePixel(rgb, p, colour);
  }

  method ComputePixel(yuv: array<Byte>, w: nat, h: nat, j: nat, i: nat) returns (colour: Rgb)
    requires j < h && i < w && yuv.Length >= ReadBound(w, h)
    ensures colour == PixelOf(yuv[..], w, h, j, i)
  {
    ReadsInside(w, h, j, i);
    var frameSize := w * h;
    var qFrameSize := frameSize / 4;
    assert frameSize + (j / 2) * (w / 2) + i / 2 == VAt(w, h, j, i);
    assert frameSize + qFrameSize + (j / 2) * (w / 2) + i / 2 == UAt(w, h, j, i);
    hide Colour, ReadBound, BlockAt, VAt, UAt;
    var y := yuv[j * w + i];
    var v := yuv[frameSize + (j / 2) * (w / 2) + i / 2];
    var u := yuv[frameSize + qFrameSize + (j / 2) * (w / 2) + i / 2];
    colour := Shade(y, v, u);
  }

  method Shade(y: Byte, v: Byte, u: Byte) returns (colour: Rgb)
    ensures colour == Colour(y, v, u)
  {
    var luma: int, dv: int, du: int := y, v - 128, u - 128;
    hide Truncated;
    var r := luma + Truncated(1370705 * du);
    var g := luma - Truncated(698001 * dv) - Truncated(337633 * du);
    var b := luma + Truncated(1732446 * dv);
    colour := Rgb(Clamp(r), Clamp(g), Clamp(b));
  }

  method StorePixel(rgb: array<Byte>, p: nat, colour: Rgb)
    requires 3 * p + 2 < rgb.Length
    modifies rgb
    ensures Painted(rgb, p, colour)
    ensures rgb[3 * p] == colour.r && rgb[3 * p + 1] == colour.g && rgb[3 * p + 2] == colour.b
    ensures forall k :: 0 <= k < rgb.Length && (k < 3 * p || k >= 3 * p + 3) ==> rgb[k] == old(rgb[k])
  {
    rgb[3 * p] := colour.r;
    rgb[3 * p + 1] := colour.g;
    rgb[3 * p + 2] := colour.b;
  }

  // ----- every output byte is written once -----

  function OutAt(w: nat, j: nat, i: nat, c: nat): nat { 3 * YAt(w, j, i) + c }

  lemma OutputCovered(w: nat, h: nat, k: nat) returns (j: nat, i: nat, c: nat)
    requires w > 0 && k < 3 * (w * h)
    ensures j < h && i < w && c < 3 && OutAt(w, j, i, c) == k
  {
    var p := k / 3;
    PixelInside(w, h, p);
    j, i, c := p / w, p % w, k % 3;
  }

  lemma OutputUnique(w: nat, j: nat, i: nat, c: nat, j': nat, i': nat, c': nat)
    requires i < w && i' < w && c < 3 && c' < 3 && OutAt(w, j, i, c) == OutAt(w, j', i', c')
    ensures j == j' && i == i' && c == c'
  {
    PixelNumber(w, j, i);
    PixelNumber(w, j', i');
  }

  /** Each of the 3wh output bytes belongs to exactly one channel of one pixel. */
  lemma OutputOnce(w: nat, h: nat, k: nat)
    requires w > 0 && k < 3 * (w * h)
    ensures exists j: nat, i: nat, c: nat :: j < h && i < w && c < 3 && OutAt(w, j, i, c) == k
    ensures forall j: nat, i: nat, c: nat, j': nat, i': nat, c': nat ::
      i < w && i' < w && c < 3 && c' < 3 && OutAt(w, j, i, c) == k && OutAt(w, j', i', c') == k ==>
      j == j' && i == i' && c == c'
  {
    var j, i, c := OutputCovered(w, h, k);
    forall j: nat, i: nat, c: nat, j': nat, i': nat, c': nat
      | i < w && i' < w && c < 3 && c' < 3 && OutAt(w, j, i, c) == k && OutAt(w, j', i', c') == k
      ensures j == j' && i == i' && c == c'
    {
      OutputUnique(w, j, i, c, j', i', c');
    }
  }

  /** The pixel painted at number j * w + i has the colour of luma (j, i) and the chroma of its block. */
  lemma EveryPixel(yuv: seq<Byte>, w: nat, h: nat, j: nat, i: nat)
    requires j < h && i < w && |yuv| >= ReadBound(w, h)
    ensures YAt(w, j, i) < w * h
    ensures PixelNumbered(yuv, w, h, YAt(w, j, i)) == PixelOf(yuv, w, h, j, i)
    ensures
      var block := (j / 2) * (w / 2) + i / 2;
      && j * w + i < |yuv| && w * h + w * h / 4 + block < |yuv|
      && IsColour(yuv[j * w + i], yuv[w * h + block], yuv[w * h + w * h / 4 + block], PixelOf(yuv, w, h, j, i))
  {
    ReadsInside(w, h, j, i);
    ColourExactly(yuv[YAt(w, j, i)], yuv[VAt(w, h, j, i)], yuv[UAt(w, h, j, i)], PixelOf(yuv, w, h, j, i));
    PixelBound(w, h, j, i);
    PixelNumber(w, j, i);
  }

  // ----- the planes -----

  /** The chroma planes do not overlap and no two blocks share a place in one. */
  ghost predicate PlanesProper(w: nat, h: nat) {
    && (forall j: nat, i: nat :: j < h && i < w ==> VAt(w, h, j, i) < w * h + w * h / 4)
    && (forall j: nat, i: nat, j': nat, i': nat ::
          j < h && i < w && j' < h && i' < w && BlockAt(w, j, i) == BlockAt(w, j', i') ==>
          j / 2 == j' / 2 && i / 2 == i' / 2)
  }

  lemma HalfSizes(m: nat, n: nat)
    ensures (2 * n) * (2 * m) == 4 * (m * n)
    ensures (2 * n) * (2 * m) / 4 == m * n
  {
    assert (2 * n) * (2 * m) == 4 * (m * n);
  }

  lemma EvenBlocks(m: nat, n: nat, j: nat, i: nat)
    requires j < 2 * m && i < 2 * n
    ensures BlockAt(2 * n, j, i) == YAt(n, j / 2, i / 2) < m * n
  {
    PixelBound(n, m, j / 2, i / 2);
    assert n * m == m * n;
  }

  /** For even sizes all reads stay inside the 3wh/2 bytes of the frame, each in its own plane. */
  lemma EvenReads(w: nat, h: nat, j: nat, i: nat)
    requires w % 2 == 0 && h % 2 == 0 && j < h && i < w
    ensures
      YAt(w, j, i) < w * h <= VAt(w, h, j, i) < w * h + w * h / 4 <= UAt(w, h, j, i) < 3 * (w * h) / 2
    ensures ReadBound(w, h) == 3 * (w * h) / 2
  {
    var m, n := h / 2, w / 2;
    HalfSizes(m, n);
    EvenBlocks(m, n, j, i);
    PixelBound(w, h, j, i);
    assert (h - 1) / 2 == m - 1 && (w - 1) / 2 == n - 1;
    assert (m - 1) * n == m * n - n;
  }

  lemma EvenProper(w: nat, h: nat)
    requires w % 2 == 0 && h % 2 == 0
    ensures PlanesProper(w, h)
  {
    forall j: nat, i: nat | j < h && i < w
      ensures VAt(w, h, j, i) < w * h + w * h / 4
    {
      EvenReads(w, h, j, i);
    }
    forall j: nat, i: nat, j': nat, i': nat
      | j < h && i < w && j' < h && i' < w && BlockAt(w, j, i) == BlockAt(w, j', i')
      ensures j / 2 == j' / 2 && i / 2 == i' / 2
    {
      PixelNumber(w / 2, j / 2, i / 2);
      PixelNumber(w / 2, j' / 2, i' / 2);
    }
  }

  /** An odd height of an even width: the V plane runs into the U plane. */
  lemma OddHeightOverlaps(w: nat, h: nat)
    requires w > 0 && w % 2 == 0 && h % 2 == 1
    ensures VAt(w, h, h - 1, w - 1) >= w * h + w * h / 4
  {
    var m, n := h / 2, w / 2;
    assert w * h == 4 * (m * n) + 2 * n;
    assert BlockAt(w, h - 1, w - 1) == m * n + (n - 1);
  }

  /** An odd width of at most two rows: the same. */
  lemma OddWidthOverlaps(w: nat, h: nat)
    requires w % 2 == 1 && 0 < h <= 2
    ensures VAt(w, h, h - 1, w - 1) >= w * h + w * h / 4
  {
    assert BlockAt(w, h - 1, w - 1) == w / 2;
    assert w * h <= w * 2;
  }

  /** An odd width of three rows or more: the last block of a row of blocks is the first of the next. */
  lemma OddWidthShares(w: nat, h: nat)
    requires w % 2 == 1 && h > 2
    ensures BlockAt(w, 0, w - 1) == BlockAt(w, 2, 0)
  {
    assert 1 * (w / 2) == w / 2 && 0 * (w / 2) == 0;
  }

  /** The plane layout is sound exactly for even sizes. */
  lemma PlanesExactly(w: nat, h: nat)
    requires w > 0 && h > 0
    ensures PlanesProper(w, h) <==> w % 2 == 0 && h % 2 == 0
  {
    if w % 2 == 0 && h % 2 == 0 {
      EvenProper(w, h);
    } else if w % 2 == 0 {
      OddHeightOverlaps(w, h);
    } else if h <= 2 {
      OddWidthOverlaps(w, h);
    } else {
      OddWidthShares(w, h);
    }
  }

  // ----- what the colours are -----

  lemma TruncationAgrees(f: int, factor: real, d: int)
    requires factor * 1000000.0 == f as real
    ensures RealTruncated(factor * d as real) == Truncated(f * d)
  {
    var k, x := f * d, factor * d as real;
    assert x * 1000000.0 == k as real;
    if k >= 0 {
      var q := k / MILLION;
      assert q * MILLION <= k < (q + 1) * MILLION;
      assert q as real <= x < (q + 1) as real;
    } else {
      var q := -k / MILLION;
      assert q * MILLION <= -k < (q + 1) * MILLION;
      assert q as real <= -x < (q + 1) as real;
    }
  }

  /** The arithmetic in millionths gives the colour of the real formulas, and no other colour meets them. */
  lemma ColourExactly(y: Byte, v: Byte, u: Byte, c: Rgb)
    ensures c == Colour(y, v, u) <==> IsColour(y, v, u, c)
  {
    RedAgrees(u - 128);
    GreenAgrees(v - 128, u - 128);
    BlueAgrees(v - 128);
    hide Truncated, RealTruncated;
  }

  lemma RedAgrees(d: int)
    ensures RealTruncated(1.370705 * d as real) == Truncated(1370705 * d)
  {
    TruncationAgrees(1370705, 1.370705, d);
  }

  lemma GreenAgrees(d: int, e: int)
    ensures RealTruncated(0.698001 * d as real) == Truncated(698001 * d)
    ensures RealTruncated(0.337633 * e as real) == Truncated(337633 * e)
  {
    TruncationAgrees(698001, 0.698001, d);
    TruncationAgrees(337633, 0.337633, e);
  }

  lemma BlueAgrees(d: int)
    ensures RealTruncated(1.732446 * d as real) == Truncated(1732446 * d)
  {
    TruncationAgrees(1732446, 1.732446, d);
  }

  /** An integer part differs from its real by less than one, on the side toward zero. */
  lemma TowardZero(x: real)
    ensures x >= 0.0 ==> 0.0 <= RealTruncated(x) as real <= x < RealTruncated(x) as real + 1.0
    ensures x <= 0.0 ==> RealTruncated(x) as real - 1.0 < x <= RealTruncated(x) as real <= 0.0
  {
  }

  /** Red is the luma and the second chroma, blue the luma and the first; without chroma the colour is grey. */
  lemma ColourDependsOn(y: Byte, v: Byte, u: Byte, other: Byte)
    ensures Colour(y, v, u).r == Colour(y, other, u).r && Colour(y, v, u).b == Colour(y, v, other).b
    ensures Colour(y, 128, 128) == Rgb(y, y, y)
    ensures Colour(100, 128, 228) == Rgb(237, 67, 100)
  {
  }

  // ----- rounding -----

  predicate Factor(f: int) { f == 1370705 || f == 698001 || f == 337633 || f == 1732446 }

  lemma NotWholeGreenV(d: int, k: int)
    requires 698001 * d == MILLION * k && -128 <= d <= 127
    ensures d == 0
  {
    assert d == 64 * (49 * (15625 * k - 10906 * d) - 13 * d);
    assert d == 5 * (200000 * k - 139600 * d);
  }

  lemma NotWholeRed(d: int, k: int)
    requires 1370705 * d == MILLION * k && -128 <= d <= 127
    ensures d == 0
  {
    assert d == 64 * (49 * (15625 * k - 21417 * d) - 13 * d);
    assert d == 5 * (40000 * k - 54828 * d);
  }

  lemma NotWholeGreenU(d: int, k: int)
    requires 337633 * d == MILLION * k && -128 <= d <= 127
    ensures d == 0
  {
    assert d == 64 * (33 * (15625 * k - 5275 * d) - 17 * d);
    assert d == 5 * (2 * (200000 * k - 67526 * d) - d);
  }

  lemma NotWholeBlue(d: int, k: int)
    requires 1732446 * d == MILLION * k && -128 <= d <= 127
    ensures d == 0
  {
    assert 866223 * d == 500000 * k;
    assert d == 32 * (15 * (15625 * k - 27069 * d) - 7 * d);
    assert d == 5 * (2 * (100000 * k - 173244 * d) - d);
  }

  lemma NeverWhole(f: int, d: int)
    requires Factor(f) && -128 <= d <= 127 && d != 0
    ensures f * d % MILLION != 0
  {
    if f * d % MILLION == 0 {
      var k := f * d / MILLION;
      if f == 698001 {
        NotWholeGreenV(d, k);
      } else if f == 1370705 {
        NotWholeRed(d, k);
      } else if f == 337633 {
        NotWholeGreenU(d, k);
      } else {
        NotWholeBlue(d, k);
      }
    }
  }

  /** Any value within a thousandth of a millionth of the product, such as its double, truncates to the same integer. */
  lemma RoundingHarmless(f: int, d: int, x: real)
    requires Factor(f) && -128 <= d <= 127
    requires -0.000000001 < x - (f * d) as real / 1000000.0 < 0.000000001
    ensures RealTruncated(x) == Truncated(f * d)
  {
    var k := f * d;
    if d != 0 {
      NeverWhole(f, d);
    }
    TruncatesAlike(k, x);
  }

  lemma TruncatesAlike(k: int, x: real)
    requires k == 0 || k % MILLION != 0
    requires -0.000000001 < x - k as real / 1000000.0 < 0.000000001
    ensures RealTruncated(x) == Truncated(k)
  {
    if k > 0 {
      var q := k / MILLION;
      assert q * MILLION < k < (q + 1) * MILLION;
      assert q as real < x < (q + 1) as real;
    } else if k < 0 {
      var q := -k / MILLION;
      assert q * MILLION < -k < (q + 1) * MILLION;
      assert q as real < -x < (q + 1) as real;
    }
  }
}
