/** apply_effect of ArtworkVideoGenerator (video_generator.py): one named camera move over
    fps * duration frames, every frame resized to the 1920 x 1080 video size. The branches
    are the classic Ken Burns zoom with pan, a zoom into the top-left corner, a zoom into the
    centre, a horizontal pan and a slow rotation; every other name gives the static image. */
module VideoEffects {
  import opened Raster

  const Fps := 30
  const Width := 1920
  const Height := 1080

  datatype Effect = KenBurns | ZoomTopLeft | ZoomCenter | PanHorizontal | RotateSlow | Static

  /** The branch an effect name selects. */
  function EffectOf(name: string): (e: Effect)
    ensures e == KenBurns <==> name == "ken_burns"
    ensures e == ZoomTopLeft <==> name == "zoom_detail_topleft"
    ensures e == ZoomCenter <==> name == "zoom_detail_center"
    ensures e == PanHorizontal <==> name == "pan_horizontal"
    ensures e == RotateSlow <==> name == "rotate_slow"
  {
    if name == "ken_burns" then KenBurns
    else if name == "zoom_detail_topleft" then ZoomTopLeft
    else if name == "zoom_detail_center" then ZoomCenter
    else if name == "pan_horizontal" then PanHorizontal
    else if name == "rotate_slow" then RotateSlow
    else Static
  }

  function Max(a: int, b: int): int {
    if a < b then b else a
  }

  function Min(a: int, b: int): int {
    if a < b then a else b
  }

  /** i / total_frames. */
  function Progress(i: nat, total: nat): real
    requires 0 < total
  {
    i as real / total as real
  }

  /** The ken_burns geometry of one frame: the size scaled by 1 + 0.3 * progress and the
      pan offset, progress times the growth across and half of it down. */
  datatype Zoomed = Zoomed(newW: int, newH: int, panX: int, panY: int)

  function KenBurnsGeometry(w: nat, h: nat, p: real): Zoomed {
    var newW := Stretch(w, 1.0 + 0.3 * p);
    var newH := Stretch(h, 1.0 + 0.3 * p);
    Zoomed(newW, newH, Stretch(newW - w, p), Stretch(newH - h, p * 0.5))
  }

  /** A ken_burns frame: the resized image sliced at the pan offset, resized once more when
      the slice is not 1920 x 1080. */
  function KenBurnsFrame(img: Image, p: real): (r: Result<Image>)
    requires img.Valid()
    ensures r.Ok? ==> IsVideoFrame(r.value)
    ensures r.Err? ==> r.error == ResizeToEmpty
  {
    var g := KenBurnsGeometry(img.w, img.h, p);
    match Resize(img, g.newW, g.newH)
    case Err(e) => Err(e)
    case Ok(resized) =>
      var frame := Crop(resized, g.panY, g.panY + img.h, g.panX, g.panX + img.w);
      if frame.h == Height && frame.w == Width then Ok(frame) else Resize(frame, Width, Height)
  }

  predicate IsVideoFrame(img: Image) {
    img.Valid() && img.h == Height && img.w == Width
  }

  /** int(h * (1 - 0.5 * progress)): the side of the square the detail zooms cut out. */
  function CropSize(h: nat, p: real): int {
    Stretch(h, 1.0 - 0.5 * p)
  }

  /** A zoom_detail_topleft frame: the square of side crop_size at the origin. */
  function TopLeftFrame(img: Image, p: real): (r: Result<Image>)
    requires img.Valid()
    ensures r.Ok? ==> IsVideoFrame(r.value)
    ensures r.Err? ==> r.error == ResizeToEmpty
  {
    var cs := CropSize(img.h, p);
    Resize(Crop(img, 0, cs, 0, cs), Width, Height)
  }

  /** The zoom_detail_center window (x1, y1, x2, y2): a square of side crop_size around the
      centre, its corner clamped to the image from below and its far side from above. */
  function CentreWindow(w: nat, h: nat, cs: int): (int, int, int, int) {
    var x1 := Max(0, w / 2 - cs / 2);
    var y1 := Max(0, h / 2 - cs / 2);
    (x1, y1, Min(w, x1 + cs), Min(h, y1 + cs))
  }

  function CentreFrame(img: Image, p: real): (r: Result<Image>)
    requires img.Valid()
    ensures r.Ok? ==> IsVideoFrame(r.value)
    ensures r.Err? ==> r.error == ResizeToEmpty
  {
    var (x1, y1, x2, y2) := CentreWindow(img.w, img.h, CropSize(img.h, p));
    Resize(Crop(img, y1, y2, x1, x2), Width, Height)
  }

  /** The pan_horizontal offset: progress times the excess width, when there is one. */
  function PanOffset(w: nat, p: real): int {
    Stretch(w - Width, p)
  }

  /** A pan_horizontal frame: a 1920-wide strip of an image wider than the video, the whole
      image otherwise. */
  function PanFrame(img: Image, p: real): (r: Result<Image>)
    requires img.Valid()
    ensures r.Ok? ==> IsVideoFrame(r.value)
    ensures r.Err? ==> r.error == ResizeToEmpty
  {
    var frame :=
      if img.w - Width > 0 then
        var x := PanOffset(img.w, p);
        Crop(img, 0, img.h, x, x + Width)
      else img;
    Resize(frame, Width, Height)
  }

  /** What the outside world supplies for rotate_slow: rotated(i) is the image cv2.warpAffine
      returns for frame i. */
  ghost predicate RotationsValid(rotated: nat -> Image) {
    forall i :: rotated(i).Valid()
  }

  /** Frame i of total under effect e. */
  function EffectFrame(img: Image, e: Effect, total: nat, i: nat, rotated: nat -> Image): (r: Result<Image>)
    requires img.Valid() && RotationsValid(rotated) && 0 < total
    ensures r.Ok? ==> IsVideoFrame(r.value)
    ensures r.Err? ==> r.error == ResizeToEmpty
  {
    var p := Progress(i, total);
    match e
    case KenBurns => KenBurnsFrame(img, p)
    case ZoomTopLeft => TopLeftFrame(img, p)
    case ZoomCenter => CentreFrame(img, p)
    case PanHorizontal => PanFrame(img, p)
    case RotateSlow => Resize(rotated(i), Width, Height)
    case Static => Resize(img, Width, Height)
  }

  /** The frames apply_effect returns, or the error cv2.resize raises on an empty slice. */
  function EffectClip(img: Image, e: Effect, total: nat, rotated: nat -> Image): (r: Result<seq<Image>>)
    requires img.Valid() && RotationsValid(rotated)
    ensures r.Ok? ==> |r.value| == total && forall k :: 0 <= k < total ==> IsVideoFrame(r.value[k])
  {
    if forall k :: 0 <= k < total ==> EffectFrame(img, e, total, k, rotated).Ok?
    then Ok(seq(total, k requires 0 <= k < total => EffectFrame(img, e, total, k, rotated).value))
    else Err(ResizeToEmpty)
  }

  /** apply_effect: total_frames = fps * duration, one frame appended per index. */
  method ApplyEffect(img: Image, effectName: string, duration: nat, rotated: nat -> Image)
    returns (r: Result<seq<Image>>)
    requires img.Valid() && RotationsValid(rotated)
    ensures r == EffectClip(img, EffectOf(effectName), Fps * duration, rotated)
  {
    var e := EffectOf(effectName);
    var total := Fps * duration;
    var frames: seq<Image> := [];
    for i := 0 to total
      invariant |frames| == i
      invariant forall k :: 0 <= k < i ==> EffectFrame(img, e, total, k, rotated) == Ok(frames[k])
    {
      var frame := EffectFrame(img, e, total, i, rotated);
      if frame.Err? {
        return Err(frame.error);
      }
      frames := frames + [frame.value];
    }
    EffectClipIs(img, e, total, rotated, frames);
    r := Ok(frames);
  }

  lemma EffectClipIs(img: Image, e: Effect, total: nat, rotated: nat -> Image, frames: seq<Image>)
    requires img.Valid() && RotationsValid(rotated) && |frames| == total
    requires forall k :: 0 <= k < total ==> EffectFrame(img, e, total, k, rotated) == Ok(frames[k])
    ensures EffectClip(img, e, total, rotated) == Ok(frames)
  {
    assert frames == seq(total, k requires 0 <= k < total => EffectFrame(img, e, total, k, rotated).value);
  }

  // ---------------------------------------------------------------------------------
  // Geometry of the branches

  lemma ProgressRange(i: nat, total: nat)
    requires i < total
    ensures 0.0 <= Progress(i, total) < 1.0
  {
    var a, b := i as real, total as real;
    RatioBelowOne(a, b);
  }

  lemma RatioBelowOne(a: real, b: real)
    requires 0.0 <= a < b
    ensures 0.0 <= a / b < 1.0
  {
  }

  /** ken_burns never shrinks the image, and its slice lies inside the resized image:
      0 <= pan_x <= new_w - w and 0 <= pan_y with 2 * pan_y <= new_h - h. */
  lemma KenBurnsPanBounds(w: nat, h: nat, p: real)
    requires 0.0 <= p <= 1.0
    ensures var g := KenBurnsGeometry(w, h, p);
      && w <= g.newW && h <= g.newH
      && 0 <= g.panX <= g.newW - w
      && 0 <= g.panY && 2 * g.panY <= g.newH - h
  {
    var g := KenBurnsGeometry(w, h, p);
    StretchGrows(w, 1.0 + 0.3 * p);
    StretchGrows(h, 1.0 + 0.3 * p);
    StretchWithin(g.newW - w, p);
    StretchHalf(g.newH - h, p);
  }

  /** Half of progress times a non-negative length, truncated, is at most half of it. */
  lemma StretchHalf(a: int, p: real)
    requires 0 <= a && 0.0 <= p <= 1.0
    ensures 0 <= Stretch(a, p * 0.5) && 2 * Stretch(a, p * 0.5) <= a
  {
    var r := a as real;
    TruncHalf(r, p);
    var t := Trunc(r * (p * 0.5));
    assert (2 * t) as real == 2.0 * t as real;
  }

  lemma TruncHalf(r: real, p: real)
    requires 0.0 <= r && 0.0 <= p <= 1.0
    ensures 0 <= Trunc(r * (p * 0.5)) && 2.0 * Trunc(r * (p * 0.5)) as real <= r
  {
    assert r * (p * 0.5) <= r * 0.5;
  }

  /** On a non-empty image every ken_burns frame is the h x w slice of the resized image at
      the pan offset; it is kept as it is when the image already has the video's size. */
  lemma KenBurnsFrameIsSlice(img: Image, p: real)
    requires img.Valid() && !img.IsEmpty() && 0.0 <= p <= 1.0
    ensures var g := KenBurnsGeometry(img.w, img.h, p);
      && Resize(img, g.newW, g.newH).Ok?
      && var frame := Crop(Resize(img, g.newW, g.newH).value, g.panY, g.panY + img.h, g.panX, g.panX + img.w);
         && frame.h == img.h && frame.w == img.w
         && KenBurnsFrame(img, p).Ok?
         && (img.h == Height && img.w == Width ==> KenBurnsFrame(img, p) == Ok(frame))
  {
    KenBurnsPanBounds(img.w, img.h, p);
  }

  /** The detail zooms cut a square whose side stays within [h // 2, h] and shrinks (never
      grows) as the clip advances. */
  lemma CropSizeBounds(h: nat, p: real, p': real)
    requires 0.0 <= p <= p' <= 1.0
    ensures h / 2 <= CropSize(h, p) <= h
    ensures CropSize(h, p') <= CropSize(h, p)
  {
    StretchWithin(h, 1.0 - 0.5 * p);
    StretchMono(h, 1.0 - 0.5 * p', 1.0 - 0.5 * p);
    var r := h as real;
    TruncAtHalf(r, p, h / 2);
  }

  lemma TruncAtHalf(r: real, p: real, n: int)
    requires 0.0 <= p <= 1.0 && 0 <= n && 2.0 * n as real <= r
    ensures n <= Trunc(r * (1.0 - 0.5 * p))
  {
    var x := r * (1.0 - 0.5 * p);
    ScaleMono(r, 0.5, 1.0 - 0.5 * p);
    var t := Trunc(x);
    assert n as real < (t + 1) as real;
  }

  /** The centre window always lies inside the image; when the square fits in the image it
      is exactly crop_size x crop_size, centred up to floor division. */
  lemma CentreWindowInside(w: nat, h: nat, cs: int)
    requires 0 <= cs
    ensures var (x1, y1, x2, y2) := CentreWindow(w, h, cs);
      && 0 <= x1 <= x2 <= w && 0 <= y1 <= y2 <= h
      && (cs <= w && cs <= h ==>
            x1 == w / 2 - cs / 2 && y1 == h / 2 - cs / 2 && x2 - x1 == cs && y2 - y1 == cs)
  {
  }

  /** pan_horizontal slides a 1920-wide strip from the left edge towards the right edge and
      never leaves the image. */
  lemma PanInside(w: nat, p: real)
    requires Width < w && 0.0 <= p <= 1.0
    ensures 0 <= PanOffset(w, p) && PanOffset(w, p) + Width <= w
  {
    StretchWithin(w - Width, p);
  }

  // ---------------------------------------------------------------------------------
  // No branch fails on an image at least two rows high

  lemma TopLeftSucceeds(img: Image, p: real)
    requires img.Valid() && 2 <= img.h && 1 <= img.w && 0.0 <= p <= 1.0
    ensures TopLeftFrame(img, p).Ok?
  {
    CropSizeBounds(img.h, p, p);
    var cs := CropSize(img.h, p);
    var c := Crop(img, 0, cs, 0, cs);
    assert Window(0, cs, img.h) == (0, cs);
    assert 1 <= Window(0, cs, img.w).1;
  }

  lemma CentreSucceeds(img: Image, p: real)
    requires img.Valid() && 2 <= img.h && 1 <= img.w && 0.0 <= p <= 1.0
    ensures CentreFrame(img, p).Ok?
  {
    CropSizeBounds(img.h, p, p);
    var cs := CropSize(img.h, p);
    CentreWindowInside(img.w, img.h, cs);
    var (x1, y1, x2, y2) := CentreWindow(img.w, img.h, cs);
    assert x1 < x2 && y1 < y2;
  }

  lemma PanSucceeds(img: Image, p: real)
    requires img.Valid() && !img.IsEmpty() && 0.0 <= p <= 1.0
    ensures PanFrame(img, p).Ok?
  {
    if img.w - Width > 0 {
      PanInside(img.w, p);
    }
  }

  /** Every effect succeeds on an image at least two rows high and one column wide, given
      non-empty rotations: the crops of the detail zooms, the pan strip and the ken_burns
      slice are never empty. */
  lemma EffectSucceeds(img: Image, e: Effect, total: nat, rotated: nat -> Image)
    requires img.Valid() && 2 <= img.h && 1 <= img.w && RotationsValid(rotated)
    requires forall i :: !rotated(i).IsEmpty()
    ensures EffectClip(img, e, total, rotated).Ok?
  {
    forall k | 0 <= k < total
      ensures EffectFrame(img, e, total, k, rotated).Ok?
    {
      var p := Progress(k, total);
      ProgressRange(k, total);
      match e
      case KenBurns => KenBurnsFrameIsSlice(img, p);
      case ZoomTopLeft => TopLeftSucceeds(img, p);
      case ZoomCenter => CentreSucceeds(img, p);
      case PanHorizontal => PanSucceeds(img, p);
      case RotateSlow =>
      case Static =>
    }
  }

  /** The detail zooms tighten frame by frame: crop_size never grows with the frame index. */
  lemma ZoomTightens(h: nat, total: nat, i: nat, j: nat)
    requires i <= j < total
    ensures CropSize(h, Progress(j, total)) <= CropSize(h, Progress(i, total))
  {
    ProgressRange(i, total);
    ProgressRange(j, total);
    var a, b, t := i as real, j as real, total as real;
    RatioMono(a, b, t);
    CropSizeBounds(h, Progress(i, total), Progress(j, total));
  }

  lemma RatioMono(a: real, b: real, t: real)
    requires 0.0 <= a <= b && 0.0 < t
    ensures a / t <= b / t
  {
  }
}
