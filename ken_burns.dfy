/** The pan-and-zoom clip of create_product_videos.py (apply_ken_burns_effect): per frame
    index a zoom factor, a resized size and a crop offset in one of five directions. */
module KenBurns {
  import opened Raster

  const FPS := 30
  /** Every clip lasts four seconds, whatever the caller's timing. */
  const ClipSeconds := 4
  const ClipFrames := FPS * ClipSeconds

  datatype Direction = TopLeft | TopRight | BottomLeft | BottomRight | Center

  /** The direction a clip uses. The name 'random' takes the one draw made before the frame
      loop (random.choice over the five directions); the four corner names select their
      corner; any other name falls to the centre branch. */
  function Resolve(name: string, draw: Direction): (d: Direction)
    ensures name == "random" ==> d == draw
    ensures name != "random" ==>
      && (d == TopLeft <==> name == "topleft")
      && (d == TopRight <==> name == "topright")
      && (d == BottomLeft <==> name == "bottomleft")
      && (d == BottomRight <==> name == "bottomright")
  {
    if name == "random" then draw
    else if name == "topleft" then TopLeft
    else if name == "topright" then TopRight
    else if name == "bottomleft" then BottomLeft
    else if name == "bottomright" then BottomRight
    else Center
  }

  /** The geometry of frame i: progress, zoom, resized size and crop offset. */
  datatype Step = Step(progress: real, zoom: real, newW: int, newH: int, panX: int, panY: int)

  function Progress(i: nat): real {
    i as real / ClipFrames as real
  }

  function Zoom(startZoom: real, endZoom: real, i: nat): real {
    startZoom + (endZoom - startZoom) * Progress(i)
  }

  /** The fractions of the spare room (horizontal, vertical) a direction pans by at
      progress p. Vertical movement is damped by half; the source multiplies the spare room
      by progress and then by 0.5, which is the same product in exact arithmetic. */
  function Factors(dir: Direction, p: real): (real, real) {
    match dir
    case TopLeft => (p, p * 0.5)
    case TopRight => (1.0 - p, p * 0.5)
    case BottomLeft => (p, 1.0 - p * 0.5)
    case BottomRight => (1.0 - p, 1.0 - p * 0.5)
    case Center => (0.5, 0.5)
  }

  /** The crop offset for a direction, given the spare room (dx, dy) of the resized image:
      int() of the spare room times the direction's fractions. */
  function Pan(dir: Direction, dx: int, dy: int, p: real): (int, int) {
    var f := Factors(dir, p);
    (Stretch(dx, f.0), Stretch(dy, f.1))
  }

  function Trajectory(w: nat, h: nat, startZoom: real, endZoom: real, dir: Direction, i: nat): Step {
    var p := Progress(i);
    var zoom := Zoom(startZoom, endZoom, i);
    var newW := Stretch(w, zoom);
    var newH := Stretch(h, zoom);
    var pan := Pan(dir, newW - w, newH - h, p);
    Step(p, zoom, newW, newH, pan.0, pan.1)
  }

  /** Frame i of a clip: the frame its step of the trajectory gives. */
  function ClipFrame(image: Image, startZoom: real, endZoom: real, dir: Direction, i: nat): Result<Image>
    requires image.Valid()
  {
    FrameAt(image, Trajectory(image.w, image.h, startZoom, endZoom, dir, i))
  }

  /** The frame one step gives. cv2.resize to the zoomed size raises when that size is not
      positive; the crop is taken by slicing, which never raises; a crop of the wrong shape
      is resized to h x w, and when it is empty that resize raises and the except branch
      resizes the whole image instead. */
  function FrameAt(image: Image, st: Step): (r: Result<Image>)
    requires image.Valid()
    ensures r.Ok? <==> !image.IsEmpty() && st.newW > 0 && st.newH > 0
    ensures r.Ok? ==> r.value.Valid() && r.value.h == image.h && r.value.w == image.w
    ensures r.Err? ==> r.error == ResizeToEmpty
  {
    match Resize(image, st.newW, st.newH)
    case Err(e) => Err(e)
    case Ok(resized) =>
      var crop := Crop(resized, st.panY, st.panY + image.h, st.panX, st.panX + image.w);
      if crop.h == image.h && crop.w == image.w then Ok(crop)
      else if crop.IsEmpty() then Resize(image, image.w, image.h)
      else Resize(crop, image.w, image.h)
  }

  /** The clip a call produces: every frame of the trajectory, or the error of the first
      frame whose resize raises (always ResizeToEmpty). */
  function Clip(image: Image, startZoom: real, endZoom: real, dir: Direction): (r: Result<seq<Image>>)
    requires image.Valid()
    ensures r.Ok? ==> |r.value| == ClipFrames
    ensures r.Ok? ==> forall k :: 0 <= k < ClipFrames ==>
      r.value[k].Valid() && r.value[k].h == image.h && r.value[k].w == image.w
  {
    if forall k :: 0 <= k < ClipFrames ==> ClipFrame(image, startZoom, endZoom, dir, k).Ok?
    then Ok(seq(ClipFrames, k requires 0 <= k < ClipFrames => ClipFrame(image, startZoom, endZoom, dir, k).value))
    else Err(ResizeToEmpty)
  }

  /** apply_ken_burns_effect: the direction is resolved once, before the loop; then one
      frame per index is appended. An exception from cv2.resize ends the call. */
  method ApplyKenBurnsEffect(image: Image, startZoom: real, endZoom: real, panDirection: string, draw: Direction)
    returns (r: Result<seq<Image>>)
    requires image.Valid()
    ensures r == Clip(image, startZoom, endZoom, Resolve(panDirection, draw))
  {
    var dir := Resolve(panDirection, draw);
    var frames: seq<Image> := [];
    var i := 0;
    while i < ClipFrames
      invariant 0 <= i <= ClipFrames && |frames| == i
      invariant forall k :: 0 <= k < i ==> ClipFrame(image, startZoom, endZoom, dir, k) == Ok(frames[k])
    {
      var frame := RenderFrame(image, Trajectory(image.w, image.h, startZoom, endZoom, dir, i));
      if frame.Err? {
        assert ClipFrame(image, startZoom, endZoom, dir, i).Err?;
        return Err(frame.error);
      }
      frames := frames + [frame.value];
      i := i + 1;
    }
    assert frames == seq(ClipFrames, k requires 0 <= k < ClipFrames => ClipFrame(image, startZoom, endZoom, dir, k).value);
    r := Ok(frames);
  }

  /** One pass of the frame loop: resize to the zoomed size, slice the window at the pan
      offset, and reshape a window of the wrong size. */
  method RenderFrame(image: Image, st: Step) returns (r: Result<Image>)
    requires image.Valid()
    ensures r == FrameAt(image, st)
  {
    var h, w := image.h, image.w;
    var resizing := Resize(image, st.newW, st.newH);
    if resizing.Err? {
      return Err(resizing.error);
    }
    var frame := Crop(resizing.value, st.panY, st.panY + h, st.panX, st.panX + w);
    if frame.h == h && frame.w == w {
      r := Ok(frame);
    } else if frame.IsEmpty() {
      r := Resize(image, w, h);
    } else {
      r := Resize(frame, w, h);
    }
  }

  // ---------------------------------------------------------------------------------
  // Properties of the trajectory

  lemma ProgressRange(i: nat)
    requires i < ClipFrames
    ensures 0.0 <= Progress(i) < 1.0
  {
  }

  /** The zoom interpolates between the two ends, so it is at least one when both are. */
  lemma ZoomAtLeastOne(startZoom: real, endZoom: real, i: nat)
    requires 1.0 <= startZoom && 1.0 <= endZoom && i < ClipFrames
    ensures 1.0 <= Zoom(startZoom, endZoom, i)
  {
    var p := Progress(i);
    ProgressRange(i);
    Interpolate(startZoom, endZoom, p);
    assert Zoom(startZoom, endZoom, i) == startZoom + (endZoom - startZoom) * p;
  }

  /** A point between two values that are both at least one is at least one. */
  lemma Interpolate(a: real, b: real, p: real)
    requires 1.0 <= a && 1.0 <= b && 0.0 <= p <= 1.0
    ensures 1.0 <= a + (b - a) * p
  {
    if a <= b {
      var d := b - a;
      assert 0.0 <= d * p by {
        ScaleMono(d, 0.0, p);
        assert d * 0.0 == 0.0;
      }
    } else {
      var d := a - b;
      assert d * p <= d by {
        ScaleMono(d, p, 1.0);
        assert d * 1.0 == d;
      }
      assert (b - a) * p == -(d * p);
      assert a - d * p >= b;
    }
  }

  /** Every direction pans by fractions in [0, 1] while the progress is in [0, 1]. */
  lemma FactorsRange(dir: Direction, p: real)
    requires 0.0 <= p <= 1.0
    ensures 0.0 <= Factors(dir, p).0 <= 1.0 && 0.0 <= Factors(dir, p).1 <= 1.0
  {
  }

  /** Every direction's offsets stay within the spare room of the resized image. */
  lemma PanWithin(dir: Direction, dx: int, dy: int, p: real)
    requires 0 <= dx && 0 <= dy && 0.0 <= p <= 1.0
    ensures 0 <= Pan(dir, dx, dy, p).0 <= dx && 0 <= Pan(dir, dx, dy, p).1 <= dy
  {
    var f := Factors(dir, p);
    FactorsRange(dir, p);
    StretchWithin(dx, f.0);
    StretchWithin(dy, f.1);
  }

  /** With both zoom ends at least one, every frame's resized image covers the original
      size and the crop offset lies in [0, new_w - w] x [0, new_h - h]: the crop window
      fits inside the resized image. The offsets are never clamped; they do not need to be. */
  lemma {:induction false} PanInsideResized(w: nat, h: nat, startZoom: real, endZoom: real, dir: Direction, i: nat)
    requires 1.0 <= startZoom && 1.0 <= endZoom && i < ClipFrames
    ensures var st := Trajectory(w, h, startZoom, endZoom, dir, i);
      && w <= st.newW && h <= st.newH
      && 0 <= st.panX <= st.newW - w && 0 <= st.panY <= st.newH - h
  {
    var p, z := Progress(i), Zoom(startZoom, endZoom, i);
    ZoomAtLeastOne(startZoom, endZoom, i);
    ProgressRange(i);
    var newW, newH := Stretch(w, z), Stretch(h, z);
    StretchGrows(w, z);
    StretchGrows(h, z);
    PanWithin(dir, newW - w, newH - h, p);
  }

  /** Under the same zooms every frame of a non-empty image is exactly the h x w window of
      the resized image at the crop offset: neither the reshaping resize nor the fallback
      is ever taken, and frames keep the image's size. */
  lemma FrameIsWindow(image: Image, startZoom: real, endZoom: real, dir: Direction, i: nat)
    requires image.Valid() && !image.IsEmpty()
    requires 1.0 <= startZoom && 1.0 <= endZoom && i < ClipFrames
    ensures var st := Trajectory(image.w, image.h, startZoom, endZoom, dir, i);
      var resized := Resize(image, st.newW, st.newH);
      && resized.Ok?
      && ClipFrame(image, startZoom, endZoom, dir, i)
         == Ok(Crop(resized.value, st.panY, st.panY + image.h, st.panX, st.panX + image.w))
      && ClipFrame(image, startZoom, endZoom, dir, i).value.h == image.h
      && ClipFrame(image, startZoom, endZoom, dir, i).value.w == image.w
  {
    PanInsideResized(image.w, image.h, startZoom, endZoom, dir, i);
  }

  /** When the zoom does not decrease, the zoom factor and both resized sides are
      non-decreasing in the frame index. */
  lemma ZoomMonotone(w: nat, h: nat, startZoom: real, endZoom: real, dir: Direction, i: nat, j: nat)
    requires startZoom <= endZoom && i <= j
    ensures var a := Trajectory(w, h, startZoom, endZoom, dir, i);
      var b := Trajectory(w, h, startZoom, endZoom, dir, j);
      a.zoom <= b.zoom && a.newW <= b.newW && a.newH <= b.newH
  {
    var zi, zj := Zoom(startZoom, endZoom, i), Zoom(startZoom, endZoom, j);
    Interpolation(startZoom, endZoom, Progress(i), Progress(j));
    StretchMono(w, zi, zj);
    StretchMono(h, zi, zj);
  }

  /** Moving further along a non-decreasing interpolation gives no less. */
  lemma Interpolation(a: real, b: real, p: real, p': real)
    requires a <= b && p <= p'
    ensures a + (b - a) * p <= a + (b - a) * p'
  {
    ScaleMono(b - a, p, p');
  }

  /** Frame 0 uses the start zoom; from a start zoom of 1.0 the first frame is the image's
      own size and every direction's offset is (0, 0). */
  lemma FirstFrame(w: nat, h: nat, startZoom: real, endZoom: real, dir: Direction)
    ensures Trajectory(w, h, startZoom, endZoom, dir, 0).zoom == startZoom
    ensures startZoom == 1.0 ==>
      var st := Trajectory(w, h, startZoom, endZoom, dir, 0);
      st.newW == w && st.newH == h && st.panX == 0 && st.panY == 0
  {
  }

  /** A clip of a non-empty image with zooms of at least one never raises (so the call
      returns exactly FPS * 4 frames, all of the image's size). */
  lemma ClipNeverFails(image: Image, startZoom: real, endZoom: real, dir: Direction)
    requires image.Valid() && !image.IsEmpty()
    requires 1.0 <= startZoom && 1.0 <= endZoom
    ensures Clip(image, startZoom, endZoom, dir).Ok?
  {
    forall k | 0 <= k < ClipFrames
      ensures ClipFrame(image, startZoom, endZoom, dir, k).Ok?
    {
      PanInsideResized(image.w, image.h, startZoom, endZoom, dir, k);
    }
  }
}
