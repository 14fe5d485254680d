/** Letterboxing: fitting an image inside a fixed black canvas without cropping it and
    centring it there. resize_to_video_dimensions (create_product_videos.py) and
    resize_and_pad (video_generator.py) both do exactly this, for a 1920x1080 canvas. */
module Letterbox {
  import opened Raster

  /** The size the image is resized to and the top-left corner it is pasted at. */
  datatype Fit = Fit(newW: int, newH: int, x: int, y: int)

  function Min(a: real, b: real): (m: real)
    ensures m <= a && m <= b && (m == a || m == b)
  {
    if a <= b then a else b
  }

  /** scale = min(W / w, H / h); new_w = int(w * scale), new_h = int(h * scale);
      offsets (W - new_w) // 2 and (H - new_h) // 2. */
  function Place(w: nat, h: nat, W: nat, H: nat): Fit
    requires 0 < w && 0 < h
  {
    var scale := Min(W as real / w as real, H as real / h as real);
    var newW := Stretch(w, scale);
    var newH := Stretch(h, scale);
    Fit(newW, newH, (W - newW) / 2, (H - newH) / 2)
  }

  /** The resized image lies inside the canvas, and it is centred: the margins on the two
      sides differ by at most one pixel (the floor of the halving). */
  lemma PlaceInside(w: nat, h: nat, W: nat, H: nat)
    requires 0 < w && 0 < h
    ensures var f := Place(w, h, W, H);
      && 0 <= f.newW <= W && 0 <= f.newH <= H
      && 0 <= f.x && f.x + f.newW <= W && 0 <= f.y && f.y + f.newH <= H
      && 0 <= (W - (f.x + f.newW)) - f.x <= 1
      && 0 <= (H - (f.y + f.newH)) - f.y <= 1
  {
    var scale := Min(W as real / w as real, H as real / h as real);
    var newW, newH := Stretch(w, scale), Stretch(h, scale);
    StretchFits(w, scale, W);
    StretchFits(h, scale, H);
    Centre(W, newW);
    Centre(H, newH);
    assert Place(w, h, W, H) == Fit(newW, newH, (W - newW) / 2, (H - newH) / 2);
  }

  /** Halving the spare room of a side centres a span of length n in it. */
  lemma Centre(L: int, n: int)
    requires 0 <= n <= L
    ensures 0 <= (L - n) / 2 && (L - n) / 2 + n <= L
    ensures 0 <= (L - ((L - n) / 2 + n)) - (L - n) / 2 <= 1
  {
  }

  /** A side stretched by at most L / a of itself stays within [0, L]. */
  lemma StretchFits(a: int, q: real, L: int)
    requires 0 < a && 0.0 <= q <= L as real / a as real
    ensures 0 <= Stretch(a, q) <= L
  {
    var r, l := a as real, L as real;
    TruncFits(r, q, l);
  }

  lemma TruncFits(r: real, q: real, l: real)
    requires 0.0 < r && 0.0 <= q <= l / r
    ensures 0 <= Trunc(r * q) && Trunc(r * q) as real <= l
  {
    ScaleMono(r, q, l / r);
    ScaleMono(r, 0.0, q);
    assert r * (l / r) == l;
  }

  /** A side n stretched by the other side's ratio L / m keeps at least one pixel when
      m <= n * L. */
  lemma StretchCross(n: int, m: int, L: int)
    requires 0 < m && m <= n * L
    ensures 1 <= Stretch(n, L as real / m as real)
  {
    var rn, rl, rm := n as real, L as real, m as real;
    assert rm <= rn * rl by {
      MulReal(n, L);
    }
    TruncAtLeastOne(rn, rl, rm);
  }

  lemma TruncAtLeastOne(a: real, l: real, m: real)
    requires 0.0 < m <= a * l
    ensures 1 <= Trunc(a * (l / m))
  {
    assert a * (l / m) == (a * l) / m;
  }

  lemma MulReal(a: int, b: int)
    ensures (a * b) as real == a as real * b as real
  {
  }

  /** A factor of at least one does not shrink a natural number. */
  lemma {:induction false} MulAtLeast(a: nat, b: nat)
    requires 1 <= b
    ensures a <= a * b
  {
    if b > 1 {
      MulAtLeast(a, b - 1);
      assert a * b == a * (b - 1) + a;
    }
  }

  /** Only an image whose aspect ratio is more extreme than the canvas's own side lengths
      allow (w*H < h or h*W < w) shrinks to nothing in one direction, so that cv2.resize
      refuses it. */
  lemma PlaceNonEmpty(w: nat, h: nat, W: nat, H: nat)
    requires 0 < w && 0 < h && 0 < W && 0 < H
    requires h <= H * w && w <= W * h
    ensures 1 <= Place(w, h, W, H).newW && 1 <= Place(w, h, W, H).newH
  {
    var a, b := W as real / w as real, H as real / h as real;
    if a <= b {
      MulAtLeast(w, W);
      StretchCross(w, w, W);
      StretchCross(h, w, W);
      assert Min(a, b) == a;
    } else {
      MulAtLeast(h, H);
      StretchCross(h, h, H);
      StretchCross(w, h, H);
      assert Min(a, b) == b;
    }
  }

  /** Canvas pixel (yy, xx): the resized image inside the pasted rectangle, black outside. */
  function CanvasPixel(resized: Image, f: Fit, yy: int, xx: int): Pixel
    requires resized.Valid() && resized.w == f.newW && resized.h == f.newH
  {
    if f.y <= yy < f.y + f.newH && f.x <= xx < f.x + f.newW
    then resized.px[yy - f.y][xx - f.x]
    else Black
  }

  /** The canvas the letterboxing produces, or the error cv2.resize raises. */
  function Letterboxed(image: Image, W: nat, H: nat): (r: Result<Image>)
    requires image.Valid() && !image.IsEmpty()
    ensures r.Ok? ==> r.value.Valid() && r.value.h == H && r.value.w == W
  {
    var f := Place(image.w, image.h, W, H);
    match Resize(image, f.newW, f.newH)
    case Err(e) => Err(e)
    case Ok(resized) => Ok(Paste(resized, f, W, H))
  }

  /** The H x W black canvas with the resized image pasted at the fit's offsets. */
  function Paste(resized: Image, f: Fit, W: nat, H: nat): Image
    requires resized.Valid() && resized.w == f.newW && resized.h == f.newH
  {
    Image(H, W,
      seq(H, yy requires 0 <= yy < H =>
        seq(W, xx requires 0 <= xx < W => CanvasPixel(resized, f, yy, xx))))
  }

  /** A canvas array that holds the pasted image pixel for pixel reads as Paste. */
  lemma CanvasIsPaste(canvas: array2<Pixel>, resized: Image, f: Fit, W: nat, H: nat)
    requires resized.Valid() && resized.w == f.newW && resized.h == f.newH
    requires canvas.Length0 == H && canvas.Length1 == W
    requires forall yy, xx :: 0 <= yy < H && 0 <= xx < W ==> canvas[yy, xx] == CanvasPixel(resized, f, yy, xx)
    ensures Snapshot(canvas) == Paste(resized, f, W, H)
  {
    var snap, spec := Snapshot(canvas), Paste(resized, f, W, H);
    forall yy | 0 <= yy < H
      ensures snap.px[yy] == spec.px[yy]
    {
      assert |snap.px[yy]| == |spec.px[yy]| == W;
    }
  }

  /** What the letterboxed canvas is: exactly H x W; cv2.resize raises exactly when the
      fitted size is empty; every pixel outside the pasted rectangle is black, and inside it
      the canvas shows the resized image shifted by the centring offsets. */
  lemma LetterboxedShape(image: Image, W: nat, H: nat)
    requires image.Valid() && !image.IsEmpty()
    ensures var f := Place(image.w, image.h, W, H);
      && (Letterboxed(image, W, H).Err? <==> f.newW == 0 || f.newH == 0)
      && (Letterboxed(image, W, H).Ok? ==>
            var c := Letterboxed(image, W, H).value;
            var resized := Resize(image, f.newW, f.newH).value;
            && c.Valid() && c.h == H && c.w == W
            && (forall yy, xx :: 0 <= yy < H && 0 <= xx < W ==>
                  if f.y <= yy < f.y + f.newH && f.x <= xx < f.x + f.newW
                  then c.px[yy][xx] == resized.px[yy - f.y][xx - f.x]
                  else c.px[yy][xx] == Black))
  {
    PlaceInside(image.w, image.h, W, H);
  }

  /** Resizes the image to its fitted size, then allocates the black canvas and pastes it
      at the centring offsets. */
  method FitCentred(image: Image, W: nat, H: nat) returns (r: Result<Image>)
    requires image.Valid() && !image.IsEmpty()
    ensures r == Letterboxed(image, W, H)
  {
    var f := Place(image.w, image.h, W, H);
    PlaceInside(image.w, image.h, W, H);
    var resizing := Resize(image, f.newW, f.newH);
    if resizing.Err? {
      return Err(resizing.error);
    }
    var canvas := PasteCentred(resizing.value, f, W, H);
    r := Ok(canvas);
  }

  /** np.zeros((H, W, 3)) followed by the slice assignment of the resized image at the
      fit's offsets, in place on the canvas array. */
  method PasteCentred(resized: Image, f: Fit, W: nat, H: nat) returns (img: Image)
    requires resized.Valid() && resized.w == f.newW && resized.h == f.newH
    requires 0 <= f.x && f.x + f.newW <= W && 0 <= f.y && f.y + f.newH <= H
    ensures img == Paste(resized, f, W, H)
  {
    var canvas := new Pixel[H, W]((_, _) => Black);
    forall yy, xx | f.y <= yy < f.y + f.newH && f.x <= xx < f.x + f.newW {
      canvas[yy, xx] := resized.px[yy - f.y][xx - f.x];
    }
    assert forall yy, xx :: 0 <= yy < H && 0 <= xx < W ==> canvas[yy, xx] == CanvasPixel(resized, f, yy, xx);
    CanvasIsPaste(canvas, resized, f, W, H);
    img := Snapshot(canvas);
  }
}
