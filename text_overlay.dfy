/** The caption of create_product_videos.py: the brightness of a region decides between
    white and black text (get_average_brightness, get_text_color), and add_text_overlay lays
    out a darkened backing rectangle, a drop shadow and the text for a top, bottom or
    centre position. */
module TextOverlay {
  import opened Raster

  /** A rectangle given by two corners, (x1, y1) and (x2, y2), as the source passes them. */
  datatype Rect = Rect(x1: int, y1: int, x2: int, y2: int)

  datatype Colour = White | Black

  /** 'top' and 'bottom' select those bands; any other name selects the centre band. */
  datatype Position = Top | Bottom | Middle

  /** What add_text_overlay draws on a frame: the backing rectangle blended in with the
      given alpha, the shadow text in black, and the text in the chosen colour. */
  datatype Caption = Caption(text: string, colour: Colour, backing: Rect, alpha: real,
                             anchor: (int, int), shadow: (int, int))

  /** The offset of the drop shadow from the text, in both directions. */
  const ShadowOffset := 3

  function PositionOf(name: string): (p: Position)
    ensures p == Top <==> name == "top"
    ensures p == Bottom <==> name == "bottom"
  {
    if name == "top" then Top else if name == "bottom" then Bottom else Middle
  }

  /** np.mean of the grey levels: their sum over the pixel count. */
  function MeanGray(img: Image): real
    requires img.Valid() && !img.IsEmpty()
  {
    GridGray(img.px, img.w) as real / (img.w * img.h) as real
  }

  /** get_average_brightness: the mean grey level scaled to [0, 1]. cv2.cvtColor raises on
      an empty region. */
  function AverageBrightness(img: Image): (r: Result<real>)
    requires img.Valid()
    ensures r.Err? <==> img.IsEmpty()
    ensures r.Ok? ==> 0.0 <= r.value <= 1.0
  {
    if img.IsEmpty() then Err(EmptyRegion)
    else
      UnitMean(GridGray(img.px, img.w), img.w * img.h);
      Ok(MeanGray(img) / 255.0)
  }

  /** A sum of grey levels over n pixels averages into [0, 255], hence into [0, 1] once scaled. */
  lemma UnitMean(s: int, n: int)
    requires 0 < n && 0 <= s <= 255 * n
    ensures 0.0 <= (s as real / n as real) / 255.0 <= 1.0
  {
    var rs, rn := s as real, n as real;
    UnitRatio(rs, rn);
  }

  lemma UnitRatio(s: real, n: real)
    requires 0.0 < n && 0.0 <= s <= 255.0 * n
    ensures 0.0 <= (s / n) / 255.0 <= 1.0
  {
    assert s / n <= 255.0;
  }

  /** The region get_text_color measures: the given (x1, y1, x2, y2) slice, or by default
      the centre third of the image in both directions. */
  function Region(image: Image, region: Option<Rect>): (roi: Image)
    requires image.Valid()
    ensures roi.Valid()
  {
    match region
    case Some(r) => Crop(image, r.y1, r.y2, r.x1, r.x2)
    case None => Crop(image, image.h / 3, 2 * image.h / 3, image.w / 3, 2 * image.w / 3)
  }

  /** get_text_color: white text on a dark region (brightness below one half), black text
      otherwise. */
  function GetTextColor(image: Image, region: Option<Rect>): Result<Colour>
    requires image.Valid()
  {
    match AverageBrightness(Region(image, region))
    case Err(e) => Err(e)
    case Ok(brightness) => Ok(if brightness < 0.5 then White else Black)
  }

  /** The colour rule in whole numbers: the text is white exactly when twice the sum of the
      region's grey levels is below 255 times its pixel count, and the call raises exactly
      when the region is empty. */
  lemma TextColourRule(image: Image, region: Option<Rect>)
    requires image.Valid()
    ensures var roi := Region(image, region);
      && (GetTextColor(image, region).Err? <==> roi.IsEmpty())
      && (!roi.IsEmpty() ==>
            (GetTextColor(image, region) == Ok(White) <==> 2 * GridGray(roi.px, roi.w) < 255 * (roi.w * roi.h)))
  {
    var roi := Region(image, region);
    if !roi.IsEmpty() {
      DarkRegion(roi);
    }
  }

  /** A non-empty region is dark (brightness below one half) exactly when twice its sum of
      grey levels is below 255 times its pixel count. */
  lemma DarkRegion(img: Image)
    requires img.Valid() && !img.IsEmpty()
    ensures AverageBrightness(img).Ok?
    ensures AverageBrightness(img).value < 0.5 <==> 2 * GridGray(img.px, img.w) < 255 * (img.w * img.h)
  {
    var s, n := GridGray(img.px, img.w), img.w * img.h;
    DarkBelowHalf(s, n);
  }

  lemma DarkBelowHalf(s: int, n: int)
    requires 0 < n
    ensures (s as real / n as real) / 255.0 < 0.5 <==> 2 * s < 255 * n
  {
    var rs, rn := s as real, n as real;
    HalfRatio(rs, rn);
  }

  lemma HalfRatio(s: real, n: real)
    requires 0.0 < n
    ensures (s / n) / 255.0 < 0.5 <==> 2.0 * s < 255.0 * n
  {
    assert (s / n) * n == s;
  }

  /** A row of pixels all grey at level v sums to v times its length. */
  lemma {:induction false} RowGrayUniform(row: seq<Pixel>, v: Byte)
    requires forall x :: 0 <= x < |row| ==> row[x] == Pixel(v, v, v)
    ensures RowGray(row) == v as int * |row|
  {
    if row != [] {
      var init := row[..|row| - 1];
      assert forall x :: 0 <= x < |init| ==> init[x] == Pixel(v, v, v);
      RowGrayUniform(init, v);
      assert RowGray(row) == RowGray(init) + Gray(row[|row| - 1]);
      MulSucc(v as int, |init|);
    }
  }

  /** Rows of width w all grey at level v sum to v times their pixel count. */
  lemma {:induction false} GridGrayUniform(rows: seq<seq<Pixel>>, w: nat, v: Byte)
    requires forall y :: 0 <= y < |rows| ==> |rows[y]| == w
    requires forall y, x :: 0 <= y < |rows| && 0 <= x < w ==> rows[y][x] == Pixel(v, v, v)
    ensures GridGray(rows, w) == v as int * (w * |rows|)
  {
    if rows != [] {
      var n := |rows| - 1;
      var init := rows[..n];
      assert forall y, x :: 0 <= y < n && 0 <= x < w ==> init[y][x] == Pixel(v, v, v);
      GridGrayUniform(init, w, v);
      RowGrayUniform(rows[n], v);
      assert GridGray(rows, w) == GridGray(init, w) + RowGray(rows[n]);
      Distrib(v as int, w * n, w);
      MulSucc(w, n);
    }
  }

  /** On a region of one grey level v the text is white exactly for v <= 127. */
  lemma UniformRegion(image: Image, region: Option<Rect>, v: Byte)
    requires image.Valid()
    requires var roi := Region(image, region);
      !roi.IsEmpty() && forall y, x :: 0 <= y < roi.h && 0 <= x < roi.w ==> roi.px[y][x] == Pixel(v, v, v)
    ensures GetTextColor(image, region) == Ok(White) <==> v <= 127
  {
    UniformDark(Region(image, region), v);
  }

  /** An image of one grey level v is dark exactly for v <= 127. */
  lemma UniformDark(img: Image, v: Byte)
    requires img.Valid() && !img.IsEmpty()
    requires forall y, x :: 0 <= y < img.h && 0 <= x < img.w ==> img.px[y][x] == Pixel(v, v, v)
    ensures AverageBrightness(img).Ok?
    ensures AverageBrightness(img).value < 0.5 <==> v <= 127
  {
    GridGrayUniform(img.px, img.w, v);
    DarkRegion(img);
    HalfLevel(v as int, img.w * img.h);
  }

  lemma HalfLevel(v: int, n: int)
    requires 0 < n
    ensures 2 * (v * n) < 255 * n <==> v <= 127
  {
    if v <= 127 {
      MulLe(v, 127, n);
    } else {
      MulLe(128, v, n);
    }
  }

  lemma Distrib(v: int, a: int, b: int)
    ensures v * (a + b) == v * a + v * b
  {
  }

  lemma MulLe(a: int, b: int, n: int)
    requires a <= b && 0 <= n
    ensures a * n <= b * n
  {
    assert b * n - a * n == (b - a) * n;
  }

  /** The band whose brightness decides the colour, and the baseline of the text. */
  function Band(p: Position, w: int, h: int): (Rect, int)
  {
    match p
    case Top => (Rect(0, 0, w, h / 3), h / 6)
    case Bottom => (Rect(0, 2 * h / 3, w, h), 5 * h / 6)
    case Middle => (Rect(0, h / 3, w, 2 * h / 3), h / 2)
  }

  /** The darkened backing rectangle and its blending weight. */
  function Backing(p: Position, w: int, h: int): (Rect, real)
  {
    match p
    case Top => (Rect(0, 0, w, h / 4), 0.4)
    case Bottom => (Rect(0, 3 * h / 4, w, h), 0.4)
    case Middle => (Rect(w / 6, h / 3, 5 * w / 6, 2 * h / 3), 0.3)
  }

  /** The part of the frame whose brightness decides the text colour at a position. */
  function BandRegion(frame: Image, p: Position): (roi: Image)
    requires frame.Valid()
    ensures roi.Valid() && roi.w <= frame.w && roi.h <= frame.h
  {
    Region(frame, Some(Band(p, frame.w, frame.h).0))
  }

  /** A region darker than one half, in whole numbers: twice its sum of grey levels is
      below 255 times its pixel count. */
  predicate Dark(roi: Image)
    requires roi.Valid()
  {
    2 * GridGray(roi.px, roi.w) < 255 * (roi.w * roi.h)
  }

  /** add_text_overlay, with textWidth the width cv2.getTextSize reports for the text. The
      text is white on a band darker than one half and black otherwise, it is centred
      horizontally (floor division, as in Python), the shadow is offset by three pixels
      down and right, and the call raises when the measured band is empty. */
  function AddTextOverlay(frame: Image, text: string, position: string, textWidth: int): (r: Result<Caption>)
    requires frame.Valid()
    ensures var p := PositionOf(position);
      r.Ok? ==>
        && r.value.text == text
        && r.value.anchor == ((frame.w - textWidth) / 2, Band(p, frame.w, frame.h).1)
        && r.value.shadow == (r.value.anchor.0 + ShadowOffset, r.value.anchor.1 + ShadowOffset)
        && (r.value.backing, r.value.alpha) == Backing(p, frame.w, frame.h)
    ensures var roi := BandRegion(frame, PositionOf(position));
      r.Ok? ==> !roi.IsEmpty() && (r.value.colour == White <==> AverageBrightness(roi).value < 0.5)
    ensures r.Err? ==> r.error == EmptyRegion
  {
    var p := PositionOf(position);
    var (band, textY) := Band(p, frame.w, frame.h);
    match GetTextColor(frame, Some(band))
    case Err(e) => Err(e)
    case Ok(colour) =>
      var (backing, alpha) := Backing(p, frame.w, frame.h);
      var textX := (frame.w - textWidth) / 2;
      Ok(Caption(text, colour, backing, alpha, (textX, textY), (textX + ShadowOffset, textY + ShadowOffset)))
  }

  /** The caption's colour follows the brightness of the band it is drawn on: white
      exactly when the band is dark. */
  lemma CaptionColour(frame: Image, text: string, position: string, textWidth: int)
    requires frame.Valid()
    ensures var r := AddTextOverlay(frame, text, position, textWidth);
      var roi := BandRegion(frame, PositionOf(position));
      r.Ok? ==> (r.value.colour == White <==> Dark(roi))
  {
    var roi := BandRegion(frame, PositionOf(position));
    if !roi.IsEmpty() {
      DarkRegion(roi);
    }
  }

  /** The layout is sound for every frame size: the band and the backing lie inside the
      frame, the baseline lies in the measured band and on the backing, and the backing is
      blended at 40% at the edges and 30% in the centre. */
  lemma LayoutInsideFrame(p: Position, w: nat, h: nat)
    ensures var (band, textY) := Band(p, w, h);
      var (backing, alpha) := Backing(p, w, h);
      && 0 <= band.x1 <= band.x2 <= w && 0 <= band.y1 <= band.y2 <= h
      && 0 <= backing.x1 <= backing.x2 <= w && 0 <= backing.y1 <= backing.y2 <= h
      && band.y1 <= textY <= band.y2
      && backing.y1 <= textY <= backing.y2
      && alpha == (if p == Middle then 0.3 else 0.4)
  {
  }

  /** Which frames raise: the measured band is empty for a zero-width frame, and for frames
      shorter than 3 rows (top), 1 row (bottom) or 2 rows (centre). */
  lemma OverlayFails(frame: Image, text: string, position: string, textWidth: int)
    requires frame.Valid()
    ensures var p := PositionOf(position);
      var minH := match p case Top => 3 case Bottom => 1 case Middle => 2;
      AddTextOverlay(frame, text, position, textWidth).Err? <==> frame.w == 0 || frame.h < minH
  {
    var p := PositionOf(position);
    var band := Band(p, frame.w, frame.h).0;
    LayoutInsideFrame(p, frame.w, frame.h);
    TextColourRule(frame, Some(band));
  }

  /** A text no wider than the frame is centred: its left and right margins are equal or
      the right one is one pixel wider. */
  lemma TextCentred(w: int, textWidth: int)
    requires 0 <= textWidth <= w
    ensures var x := (w - textWidth) / 2;
      0 <= x && 0 <= (w - (x + textWidth)) - x <= 1
  {
  }
}
