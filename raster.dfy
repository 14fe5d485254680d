/** The raster vocabulary the renderer borrows from numpy and OpenCV: images as rows of
    pixels, Python's int() and slicing, cv2.resize and cv2.cvtColor(BGR2GRAY).
    The library calls are stand-ins whose SHAPES are what the library promises; the pixel
    values they produce (nearest-neighbour resampling here) are not the library's. */
module Raster {

  datatype Option<+T> = None | Some(value: T)

  /** The exceptions the renderer's library calls can raise. */
  datatype Failure =
    | ResizeToEmpty   // cv2.resize with an empty source or a non-positive target size
    | EmptyRegion     // cv2.cvtColor on an empty region
    | NoImage         // reading .shape of None, when cv2.imread found nothing

  datatype Result<+T> = Ok(value: T) | Err(error: Failure)

  newtype Byte = x: int | 0 <= x < 256

  /** One pixel, in OpenCV's blue-green-red channel order. */
  datatype Pixel = Pixel(b: Byte, g: Byte, r: Byte)

  const Black := Pixel(0, 0, 0)

  /** A numpy image of shape (h, w, 3). */
  datatype Image = Image(h: nat, w: nat, px: seq<seq<Pixel>>) {
    predicate Valid() {
      |px| == h && forall y :: 0 <= y < h ==> |px[y]| == w
    }

    predicate IsEmpty() {
      h == 0 || w == 0
    }
  }

  /** Python's int() applied to a float: truncation toward zero, the integer that lies
      between zero and x less than one away from x. */
  predicate TruncOf(x: real, n: int) {
    && (0.0 <= x ==> 0 <= n && n as real <= x < n as real + 1.0)
    && (x < 0.0 ==> n <= 0 && x <= n as real && n as real < x + 1.0)
  }

  function Trunc(x: real): (n: int)
    ensures 0.0 <= x ==> 0 <= n && n as real <= x < n as real + 1.0
    ensures x < 0.0 ==> n <= 0 && x <= n as real && n as real < x + 1.0
  {
    var k := if x >= 0.0 then x.Floor else -((-x).Floor);
    assert TruncOf(x, k);
    var n :| TruncOf(x, n);
    n
  }

  /** int(a * q): a length scaled by a factor and truncated as Python's int() does. Its
      bounds are the lemmas below, kept apart so that callers see no products they do not ask for. */
  function Stretch(a: int, q: real): int {
    Trunc(a as real * q)
  }

  /** A factor in [0, 1] keeps a stretched length within [0, a]. */
  lemma StretchWithin(a: int, q: real)
    requires 0 <= a && 0.0 <= q <= 1.0
    ensures 0 <= Stretch(a, q) <= a
  {
    var r := a as real;
    TruncScaledDown(r, q);
  }

  /** A factor of at least one does not shrink a length. */
  lemma StretchGrows(a: int, q: real)
    requires 0 <= a && 1.0 <= q
    ensures a <= Stretch(a, q)
  {
    var r := a as real;
    TruncScaledUp(r, q);
    assert Trunc(r) == a;
  }

  /** Stretching a non-negative length by a larger factor never gives less. */
  lemma StretchMono(a: int, q: real, q': real)
    requires 0 <= a && q <= q'
    ensures Stretch(a, q) <= Stretch(a, q')
  {
    var r := a as real;
    TruncScaleMono(r, q, q');
    assert Trunc(r * q) <= Trunc(r * q');
  }

  lemma TruncScaledDown(a: real, q: real)
    requires 0.0 <= a && 0.0 <= q <= 1.0
    ensures 0 <= Trunc(a * q) && Trunc(a * q) as real <= a
  {
    ScaleDown(a, q);
  }

  lemma TruncScaledUp(a: real, q: real)
    requires 0.0 <= a && 1.0 <= q
    ensures Trunc(a) <= Trunc(a * q)
  {
    ScaleMono(a, 1.0, q);
    TruncMono(a, a * q);
  }

  lemma TruncScaleMono(a: real, q: real, q': real)
    requires 0.0 <= a && q <= q'
    ensures Trunc(a * q) <= Trunc(a * q')
  {
    ScaleMono(a, q, q');
    TruncMono(a * q, a * q');
  }

  /** Python's normalisation of one slice bound against a length n: a negative bound
      counts from the end, and the result is clamped into [0, n]. */
  function Bound(i: int, n: nat): (k: nat)
    ensures k <= n
    ensures 0 <= i <= n ==> k == i
  {
    if i < 0 then (if n + i < 0 then 0 else n + i) else if i > n then n else i
  }

  /** The half-open index range [lo, hi) that the slice [a:b] selects from a sequence of
      length n; slicing never raises, an inverted range is empty. */
  function Window(a: int, b: int, n: nat): (r: (nat, nat))
    ensures r.0 <= r.1 <= n
    ensures 0 <= a <= b <= n ==> r == (a, b)
  {
    var lo := Bound(a, n);
    var hi := Bound(b, n);
    if hi < lo then (lo, lo) else (lo, hi)
  }

  /** img[y0:y1, x0:x1]. */
  function Crop(img: Image, y0: int, y1: int, x0: int, x1: int): (r: Image)
    requires img.Valid()
    ensures r.Valid() && r.h <= img.h && r.w <= img.w
    ensures 0 <= y0 <= y1 <= img.h && 0 <= x0 <= x1 <= img.w ==>
      r.h == y1 - y0 && r.w == x1 - x0 &&
      forall y, x :: 0 <= y < r.h && 0 <= x < r.w ==> r.px[y][x] == img.px[y0 + y][x0 + x]
  {
    var rows, cols := Window(y0, y1, img.h), Window(x0, x1, img.w);
    Image(rows.1 - rows.0, cols.1 - cols.0,
      seq(rows.1 - rows.0, y requires 0 <= y < rows.1 - rows.0 =>
        seq(cols.1 - cols.0, x requires 0 <= x < cols.1 - cols.0 => img.px[rows.0 + y][cols.0 + x])))
  }

  /** The source index that nearest-neighbour sampling reads for target index i of m, in a
      source of n; the last source index bounds it. */
  function Scaled(i: nat, n: nat, m: nat): (k: nat)
    requires 0 < n && 0 < m
    ensures k < n
  {
    var k := i * n / m;
    if k < n then k else n - 1
  }

  /** cv2.resize(img, (nw, nh)). OpenCV raises for an empty source and for a target size
      that is not positive in both directions. */
  function Resize(img: Image, nw: int, nh: int): (r: Result<Image>)
    requires img.Valid()
    ensures r.Ok? <==> !img.IsEmpty() && nw > 0 && nh > 0
    ensures r.Ok? ==> r.value.Valid() && r.value.w == nw && r.value.h == nh
    ensures r.Err? ==> r.error == ResizeToEmpty
  {
    if img.IsEmpty() || nw <= 0 || nh <= 0 then Err(ResizeToEmpty)
    else
      Ok(Image(nh, nw,
        seq(nh, y requires 0 <= y < nh =>
          seq(nw, x requires 0 <= x < nw => img.px[Scaled(y, img.h, nh)][Scaled(x, img.w, nw)]))))
  }

  /** cv2.cvtColor(.., COLOR_BGR2GRAY) on one pixel: OpenCV's fixed-point BT.601 weights
      (scaled by 2^14), rounded. */
  function Gray(p: Pixel): (v: int)
    ensures 0 <= v <= 255
    ensures p.b == p.g == p.r ==> v == p.g as int
  {
    (1868 * p.b as int + 9617 * p.g as int + 4899 * p.r as int + 8192) / 16384
  }

  /** Sum of the grey levels of one row. */
  function RowGray(row: seq<Pixel>): (s: int)
    ensures 0 <= s <= 255 * |row|
  {
    if row == [] then 0 else RowGray(row[..|row| - 1]) + Gray(row[|row| - 1])
  }

  /** Sum of the grey levels of rows that all have width w. */
  function GridGray(rows: seq<seq<Pixel>>, w: nat): (s: int)
    requires forall y :: 0 <= y < |rows| ==> |rows[y]| == w
    ensures 0 <= s <= 255 * (w * |rows|)
  {
    if rows == [] then 0
    else
      var n := |rows| - 1;
      MulSucc(w, n);
      GridGray(rows[..n], w) + RowGray(rows[n])
  }

  /** The pixels of a two-dimensional canvas, read as an image value. */
  function Snapshot(c: array2<Pixel>): (img: Image)
    reads c
    ensures img.Valid() && img.h == c.Length0 && img.w == c.Length1
    ensures forall y, x :: 0 <= y < img.h && 0 <= x < img.w ==> img.px[y][x] == c[y, x]
  {
    Image(c.Length0, c.Length1,
      seq(c.Length0, y requires 0 <= y < c.Length0 reads c =>
        seq(c.Length1, x requires 0 <= x < c.Length1 reads c => c[y, x])))
  }

  lemma MulSucc(a: int, n: int)
    ensures a * (n + 1) == a * n + a
  {
  }

  /** Truncation toward zero keeps order. */
  lemma TruncMono(x: real, y: real)
    requires x <= y
    ensures Trunc(x) <= Trunc(y)
  {
  }

  /** Multiplying by a non-negative factor keeps an order. */
  lemma ScaleMono(a: real, x: real, y: real)
    requires 0.0 <= a && x <= y
    ensures a * x <= a * y
  {
    assert a * y - a * x == a * (y - x);
  }

  /** Scaling a non-negative amount by a factor of at most one does not enlarge it. */
  lemma ScaleDown(a: real, p: real)
    requires 0.0 <= a && 0.0 <= p <= 1.0
    ensures 0.0 <= a * p <= a
  {
    ScaleMono(a, p, 1.0);
    ScaleMono(a, 0.0, p);
  }
}
