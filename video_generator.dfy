/** ArtworkVideoGenerator (video_generator.py): a 30-second cinematic video of one artwork,
    made of a 3-second fade-in with a title card, a 24-second main sequence of camera moves
    and a 3-second fade-out with a call to action; plus the music style chosen for the
    artwork and the record returned when generation fails. */
module VideoGenerator {
  import opened Raster
  import opened Names
  import opened VideoEffects
  import Letterbox
  import TextOverlay

  const Duration := 30
  const IntroSeconds := 3
  const MainSeconds := 24
  const OutroSeconds := 3

  /** The artwork record, a dictionary of strings. */
  type Artwork = map<string, string>

  /** artwork_data.get(key, default). */
  function Get(data: Artwork, key: string, default: string): string {
    if key in data then data[key] else default
  }

  /** A line of text drawn with cv2.putText, with its bottom-left corner. */
  datatype TextLine = TextLine(text: string, x: int, y: int)

  /** An overlay: a black box blended in with the given weight, and the lines over it. */
  datatype Overlay = Overlay(box: TextOverlay.Rect, weight: real, lines: seq<TextLine>)

  /** One written frame: the picture, the cv2.addWeighted factor it is scaled by against
      black, and the overlay drawn over it. */
  datatype Shot = Shot(pic: Image, alpha: real, overlay: Option<Overlay>)

  // ---------------------------------------------------------------------------------
  // Overlays

  /** title[:n]. */
  function Shorten(s: string, n: nat): (r: string)
    ensures |r| <= n && StartsWith(s, r)
    ensures |s| <= n ==> r == s
    ensures n <= |s| ==> |r| == n
  {
    if |s| <= n then s else s[..n]
  }

  /** add_title_overlay: a box from (50, h - 200) to (w - 50, h - 50) blended at 0.3, the
      first 50 characters of the title at (70, h - 140) and "by <artist>" at (70, h - 90). */
  function TitleOverlay(w: int, h: int, title: string, artist: string): Overlay {
    Overlay(TextOverlay.Rect(50, h - 200, w - 50, h - 50), 0.3,
      [TextLine(Shorten(title, 50), 70, h - 140), TextLine("by " + artist, 70, h - 90)])
  }

  /** The title card keeps both lines on the box: they start 20 pixels right of its left
      edge, and their baselines lie 60 and 110 pixels below its top, inside it. */
  lemma TitleInsideBox(w: int, h: int, title: string, artist: string)
    ensures var o := TitleOverlay(w, h, title, artist);
      && |o.lines| == 2
      && |o.lines[0].text| <= 50
      && forall k :: 0 <= k < 2 ==>
           o.lines[k].x == o.box.x1 + 20 && o.box.y1 < o.lines[k].y < o.box.y2
  {
  }

  function CtaTexts(price: string): seq<string> {
    ["AVAILABLE NOW", "$" + price, "Gauntlet Gallery", "Authenticated & Ready to Ship"]
  }

  /** What add_cta_overlay draws: a box over the centre half in both directions blended at
      0.5, and the four lines, each centred on its measured width, 60 pixels apart from
      h // 3 + 80 down. */
  function CtaOverlay(w: int, h: int, price: string, textWidth: string -> int): Overlay {
    var texts := CtaTexts(price);
    Overlay(TextOverlay.Rect(w / 4, h / 3, 3 * w / 4, 2 * h / 3), 0.5,
      seq(|texts|, k requires 0 <= k < |texts| => TextLine(texts[k], (w - textWidth(texts[k])) / 2, h / 3 + 80 + 60 * k)))
  }

  /** add_cta_overlay: the lines are laid out one by one, y_offset growing by 60. */
  method AddCtaOverlay(w: int, h: int, price: string, textWidth: string -> int) returns (o: Overlay)
    ensures o == CtaOverlay(w, h, price, textWidth)
    ensures |o.lines| == 4 && forall k :: 0 <= k < 4 ==> o.lines[k].y == h / 3 + 80 + 60 * k
  {
    var texts := CtaTexts(price);
    var lines: seq<TextLine> := [];
    var yOffset := h / 3 + 80;
    for k := 0 to |texts|
      invariant yOffset == h / 3 + 80 + 60 * k
      invariant lines == seq(k, j requires 0 <= j < k => TextLine(texts[j], (w - textWidth(texts[j])) / 2, h / 3 + 80 + 60 * j))
    {
      var textX := (w - textWidth(texts[k])) / 2;
      lines := lines + [TextLine(texts[k], textX, yOffset)];
      yOffset := yOffset + 60;
    }
    o := Overlay(TextOverlay.Rect(w / 4, h / 3, 3 * w / 4, 2 * h / 3), 0.5, lines);
  }

  /** On a frame at least 780 pixels high all four call-to-action lines lie on the box, and
      a line no wider than the frame is centred. */
  lemma CtaInsideBox(w: int, h: int, price: string, textWidth: string -> int)
    requires 780 <= h
    ensures var o := CtaOverlay(w, h, price, textWidth);
      forall k :: 0 <= k < |o.lines| ==>
        && o.box.y1 < o.lines[k].y <= o.box.y2
        && (0 <= textWidth(o.lines[k].text) <= w ==>
              var x := o.lines[k].x;
              0 <= x && 0 <= (w - (x + textWidth(o.lines[k].text))) - x <= 1)
  {
  }

  // ---------------------------------------------------------------------------------
  // Fades

  /** The fade-in factor as written: i / (fps * 1.5), which keeps growing past 1. */
  function IntroFadeAsWritten(i: nat): real {
    i as real / (Fps as real * 1.5)
  }

  /** The fade-in factor as intended: i / (fps * 1.5), held at 1 once the 1.5-second fade
      is over. */
  function IntroFade(i: nat): real {
    var a := i as real / (Fps as real * 1.5);
    if a > 1.0 then 1.0 else a
  }

  /** The written fade agrees with the intended one during the fade, then overshoots: from
      frame 46 on it scales the frame by more than 1, up to 89 / 45 on the last intro frame,
      so cv2.addWeighted saturates the picture towards white. */
  lemma IntroOverexposes(i: nat)
    requires i < Fps * IntroSeconds
    ensures i <= 45 ==> IntroFadeAsWritten(i) == IntroFade(i)
    ensures i > 45 ==> IntroFadeAsWritten(i) > 1.0
    ensures IntroFadeAsWritten(89) == 89.0 / 45.0
  {
  }

  /** The intended fade rises from 0 to 1 over the first 45 frames, never decreases and
      stays within [0, 1]. */
  lemma IntroFadeSchedule(i: nat, j: nat)
    requires i <= j
    ensures 0.0 <= IntroFade(i) <= 1.0
    ensures IntroFade(0) == 0.0 && (45 <= i ==> IntroFade(i) == 1.0)
    ensures IntroFade(i) <= IntroFade(j)
  {
    var a, b := i as real, j as real;
    RatioMono(a, b, 45.0);
  }

  /** The fade-out factor: 1 - i / (fps * 2), clamped at 0. */
  function OutroFade(i: nat): real {
    var a := 1.0 - i as real / (Fps as real * 2.0);
    if a < 0.0 then 0.0 else a
  }

  /** The fade-out starts at 1, never increases, stays within [0, 1] and is 0 from frame 60
      on. */
  lemma OutroFadeSchedule(i: nat, j: nat)
    requires i <= j
    ensures OutroFade(0) == 1.0 && 0.0 <= OutroFade(i) <= 1.0
    ensures 60 <= i ==> OutroFade(i) == 0.0
    ensures OutroFade(j) <= OutroFade(i)
  {
    var a, b := i as real, j as real;
    RatioMono(a, b, 60.0);
  }

  // ---------------------------------------------------------------------------------
  // Intro, main sequence, outro

  /** Intro frame i: the picture scaled by the fade as written (which passes 1 after
      frame 45), with the title card from past the 1.5-second mark. */
  function IntroShot(img: Image, data: Artwork, i: nat): Shot {
    var title := if i as real > Fps as real * 1.5
      then Some(TitleOverlay(img.w, img.h, Get(data, "title", "Artwork"), Get(data, "artist", "Artist")))
      else None;
    Shot(img, IntroFadeAsWritten(i), title)
  }

  /** create_intro: fps * 3 frames, built one by one. */
  method CreateIntro(img: Image, data: Artwork) returns (frames: seq<Shot>)
    ensures |frames| == Fps * IntroSeconds
    ensures forall i :: 0 <= i < |frames| ==> frames[i] == IntroShot(img, data, i)
  {
    frames := [];
    for i := 0 to Fps * IntroSeconds
      invariant |frames| == i
      invariant forall k :: 0 <= k < i ==> frames[k] == IntroShot(img, data, k)
    {
      var alpha := i as real / (Fps as real * 1.5);
      var overlay: Option<Overlay> := None;
      if i as real > Fps as real * 1.5 {
        overlay := Some(TitleOverlay(img.w, img.h, Get(data, "title", "Artwork"), Get(data, "artist", "Artist")));
      }
      frames := frames + [Shot(img, alpha, overlay)];
    }
  }

  /** The title card is drawn on exactly the intro frames past frame 45, with the artwork's
      title (default 'Artwork') and artist (default 'Artist'). */
  lemma IntroTitle(img: Image, data: Artwork, i: nat)
    ensures var s := IntroShot(img, data, i);
      && (s.overlay.Some? <==> i > 45)
      && (s.overlay.Some? ==> s.overlay.value.lines[0].text == Shorten(Get(data, "title", "Artwork"), 50))
  {
  }

  /** Outro frame i: the picture faded out, with the call to action on every frame. */
  function OutroShot(img: Image, data: Artwork, i: nat, textWidth: string -> int): Shot {
    Shot(img, OutroFade(i), Some(CtaOverlay(img.w, img.h, Get(data, "price", ""), textWidth)))
  }

  /** create_outro: fps * 3 frames, the overlay laid out for each. */
  method CreateOutro(img: Image, data: Artwork, textWidth: string -> int) returns (frames: seq<Shot>)
    ensures |frames| == Fps * OutroSeconds
    ensures forall i :: 0 <= i < |frames| ==> frames[i] == OutroShot(img, data, i, textWidth)
  {
    frames := [];
    for i := 0 to Fps * OutroSeconds
      invariant |frames| == i
      invariant forall k :: 0 <= k < i ==> frames[k] == OutroShot(img, data, k, textWidth)
    {
      var alpha := 1.0 - i as real / (Fps as real * 2.0);
      if alpha < 0.0 {
        alpha := 0.0;
      }
      var cta := AddCtaOverlay(img.w, img.h, Get(data, "price", ""), textWidth);
      frames := frames + [Shot(img, alpha, Some(cta))];
    }
  }

  /** The main sequence's segments: an effect name and its length in seconds. */
  const Segments: seq<(string, nat)> := [
    ("ken_burns", 6), ("zoom_detail_topleft", 4), ("zoom_detail_center", 4),
    ("zoom_detail_bottomright", 4), ("pan_horizontal", 3), ("rotate_slow", 3)]

  /** The seconds of the first n segments. */
  function SegmentSeconds(n: nat): nat
    requires n <= |Segments|
  {
    if n == 0 then 0 else SegmentSeconds(n - 1) + Segments[n - 1].1
  }

  /** The frames of the first n segments, or the first error. */
  function MainSequence(img: Image, rotated: nat -> Image, n: nat): Result<seq<Image>>
    requires img.Valid() && RotationsValid(rotated) && n <= |Segments|
  {
    if n == 0 then Ok([])
    else
      match MainSequence(img, rotated, n - 1)
      case Err(e) => Err(e)
      case Ok(prefix) =>
        match EffectClip(img, EffectOf(Segments[n - 1].0), Fps * Segments[n - 1].1, rotated)
        case Err(e) => Err(e)
        case Ok(frames) => Ok(prefix + frames)
  }

  /** create_main_sequence: the segments' frames, extended in order. */
  method CreateMainSequence(img: Image, rotated: nat -> Image) returns (r: Result<seq<Image>>)
    requires img.Valid() && RotationsValid(rotated)
    ensures r == MainSequence(img, rotated, |Segments|)
  {
    var frames: seq<Image> := [];
    for n := 0 to |Segments|
      invariant MainSequence(img, rotated, n) == Ok(frames)
    {
      var (effect, duration) := Segments[n];
      var segment := ApplyEffect(img, effect, duration, rotated);
      if segment.Err? {
        MainSequenceErr(img, rotated, n + 1, |Segments|);
        return Err(segment.error);
      }
      frames := frames + segment.value;
    }
    r := Ok(frames);
  }

  lemma {:induction false} MainSequenceErr(img: Image, rotated: nat -> Image, i: nat, n: nat)
    requires img.Valid() && RotationsValid(rotated) && i <= n <= |Segments|
    requires MainSequence(img, rotated, i).Err?
    ensures MainSequence(img, rotated, n) == Err(MainSequence(img, rotated, i).error)
    decreases n
  {
    if i < n {
      MainSequenceErr(img, rotated, i, n - 1);
    }
  }

  /** The first n segments give fps frames per second of their lengths, all 1920 x 1080. */
  lemma {:induction false} MainSequenceShape(img: Image, rotated: nat -> Image, n: nat)
    requires img.Valid() && RotationsValid(rotated) && n <= |Segments|
    requires MainSequence(img, rotated, n).Ok?
    ensures var frames := MainSequence(img, rotated, n).value;
      && |frames| == Fps * SegmentSeconds(n)
      && forall k :: 0 <= k < |frames| ==> IsVideoFrame(frames[k])
  {
    if n > 0 {
      MainSequenceShape(img, rotated, n - 1);
    }
  }

  /** The segment lengths add up to the 24-second main duration: 720 frames. The
      'zoom_detail_bottomright' segment names no branch, so its 120 frames are the static
      image. */
  lemma MainTimeline()
    ensures SegmentSeconds(|Segments|) == MainSeconds
    ensures Fps * MainSeconds == 720
    ensures EffectOf(Segments[3].0) == Static
  {
  }

  /** The main sequence never fails on an image at least two rows high and one column
      wide, given non-empty rotations. */
  lemma {:induction false} MainSequenceSucceeds(img: Image, rotated: nat -> Image, n: nat)
    requires img.Valid() && 2 <= img.h && 1 <= img.w && RotationsValid(rotated)
    requires forall i :: !rotated(i).IsEmpty()
    requires n <= |Segments|
    ensures MainSequence(img, rotated, n).Ok?
  {
    if n > 0 {
      MainSequenceSucceeds(img, rotated, n - 1);
      EffectSucceeds(img, EffectOf(Segments[n - 1].0), Fps * Segments[n - 1].1, rotated);
    }
  }

  // ---------------------------------------------------------------------------------
  // The whole video

  /** The intro's frames. */
  function IntroFrames(base: Image, data: Artwork): seq<Shot> {
    seq(Fps * IntroSeconds, i requires 0 <= i => IntroShot(base, data, i))
  }

  /** The main sequence as written: full strength, no overlay. */
  function MainShots(main: seq<Image>): seq<Shot> {
    seq(|main|, k requires 0 <= k < |main| => Shot(main[k], 1.0, None))
  }

  /** The outro's frames. */
  function OutroFrames(base: Image, data: Artwork, textWidth: string -> int): seq<Shot> {
    seq(Fps * OutroSeconds, i requires 0 <= i => OutroShot(base, data, i, textWidth))
  }

  /** The frames generate_cinematic_video writes: the picture letterboxed by resize_and_pad,
      then the intro, the main sequence (unfaded, without overlay) and the outro. */
  function Cinematic(img: Image, data: Artwork, rotated: nat -> Image, textWidth: string -> int): Result<seq<Shot>>
    requires img.Valid() && !img.IsEmpty() && RotationsValid(rotated)
  {
    match Letterbox.Letterboxed(img, Width, Height)
    case Err(e) => Err(e)
    case Ok(base) =>
      match MainSequence(base, rotated, |Segments|)
      case Err(e) => Err(e)
      case Ok(main) => Ok(IntroFrames(base, data) + MainShots(main) + OutroFrames(base, data, textWidth))
  }

  /** generate_cinematic_video, up to the writing of the frames. */
  method GenerateCinematicVideo(img: Image, data: Artwork, rotated: nat -> Image, textWidth: string -> int)
    returns (r: Result<seq<Shot>>)
    requires img.Valid() && !img.IsEmpty() && RotationsValid(rotated)
    ensures r == Cinematic(img, data, rotated, textWidth)
  {
    var base := Letterbox.FitCentred(img, Width, Height);
    if base.Err? {
      return Err(base.error);
    }
    var intro := CreateIntro(base.value, data);
    var main := CreateMainSequence(base.value, rotated);
    if main.Err? {
      return Err(main.error);
    }
    var outro := CreateOutro(base.value, data, textWidth);
    assert intro == IntroFrames(base.value, data);
    assert outro == OutroFrames(base.value, data, textWidth);
    r := Ok(intro + MainShots(main.value) + outro);
  }

  /** A finished video has fps * duration = 900 frames: 90 of intro, 720 of main sequence,
      90 of outro; every picture in it is 1920 x 1080. The intro's weight is the fade as
      written, so frames 46 to 89 are scaled by more than 1. */
  lemma CinematicLength(img: Image, data: Artwork, rotated: nat -> Image, textWidth: string -> int)
    requires img.Valid() && !img.IsEmpty() && RotationsValid(rotated)
    ensures var r := Cinematic(img, data, rotated, textWidth);
      r.Ok? ==>
        && |r.value| == Fps * Duration
        && (forall i :: 0 <= i < 90 ==> r.value[i].alpha == IntroFadeAsWritten(i))
        && (forall i :: 45 < i < 90 ==> r.value[i].alpha > 1.0)
        && (forall i :: 810 <= i < 900 ==> r.value[i].alpha == OutroFade(i - 810))
        && (forall i :: 0 <= i < |r.value| ==> IsVideoFrame(r.value[i].pic))
  {
    var r := Cinematic(img, data, rotated, textWidth);
    if r.Ok? {
      var base := Letterbox.Letterboxed(img, Width, Height).value;
      MainSequenceShape(base, rotated, |Segments|);
      MainTimeline();
      forall i | 45 < i < 90 ensures r.value[i].alpha > 1.0 {
        IntroOverexposes(i);
      }
    }
  }

  /** An image that letterboxes to a non-empty picture always yields its video, given
      non-empty rotations. */
  lemma CinematicSucceeds(img: Image, data: Artwork, rotated: nat -> Image, textWidth: string -> int)
    requires img.Valid() && !img.IsEmpty() && RotationsValid(rotated)
    requires forall i :: !rotated(i).IsEmpty()
    requires img.h <= Height * img.w && img.w <= Width * img.h
    ensures Cinematic(img, data, rotated, textWidth).Ok?
  {
    Letterbox.PlaceNonEmpty(img.w, img.h, Width, Height);
    Letterbox.LetterboxedShape(img, Width, Height);
    var base := Letterbox.Letterboxed(img, Width, Height).value;
    MainSequenceSucceeds(base, rotated, |Segments|);
  }

  // ---------------------------------------------------------------------------------
  // Music and the fallback record

  const MusicStyles: seq<string> := ["ambient", "classical", "modern", "upbeat", "dramatic"]

  /** select_music_style: by artist first ('death' or 'banksy', then 'classical'), then by
      style ('abstract'), case-insensitively; 'upbeat' otherwise. */
  function SelectMusicStyle(data: Artwork): (style: string)
    ensures style in MusicStyles && style != "dramatic"
  {
    var artist := Lower(Get(data, "artist", ""));
    if Contains(artist, "death") || Contains(artist, "banksy") then "modern"
    else if Contains(artist, "classical") then "classical"
    else if Contains(Lower(Get(data, "style", "")), "abstract") then "ambient"
    else "upbeat"
  }

  /** The priorities of select_music_style: the artist decides before the style, and a
      missing artist or style counts as empty. */
  lemma MusicPriority(data: Artwork)
    ensures var artist := Lower(Get(data, "artist", ""));
      var style := Lower(Get(data, "style", ""));
      var m := SelectMusicStyle(data);
      && (m == "modern" <==> Contains(artist, "death") || Contains(artist, "banksy"))
      && (m == "classical" <==> !(Contains(artist, "death") || Contains(artist, "banksy")) && Contains(artist, "classical"))
      && (m == "ambient" <==>
            !(Contains(artist, "death") || Contains(artist, "banksy") || Contains(artist, "classical"))
            && Contains(style, "abstract"))
  {
  }

  /** The choice ignores letter case: re-spelling the artist in other cases changes
      nothing. */
  lemma MusicIgnoresCase(data: Artwork, artist: string)
    requires "artist" in data && Lower(artist) == Lower(data["artist"])
    ensures SelectMusicStyle(data["artist" := artist]) == SelectMusicStyle(data)
  {
    assert Get(data["artist" := artist], "style", "") == Get(data, "style", "");
  }

  /** The record get_fallback_video_data returns. */
  datatype VideoData = VideoData(id: string, status: string, duration: string, resolution: string,
                                 fps: nat, effects: seq<string>, music: Music, format: string,
                                 message: string, estimatedTime: string)

  /** The music entry of the record. */
  datatype Music = Music(style: string, mood: string, licensed: bool)

  const AppliedEffects: seq<string> := ["Ken Burns Effect", "Zoom Transitions", "Pan Movements",
                                        "Fade In/Out", "Title Overlay", "Call-to-Action"]

  /** get_fallback_video_data: a pending record for the artwork's SKU ('ART' when it has
      none), announcing the generator's own settings. */
  function FallbackVideoData(data: Artwork): (r: VideoData)
    ensures StartsWith(r.id, "PENDING_") && r.id[|"PENDING_"|..] == Get(data, "sku", "ART")
    ensures r.fps == Fps && r.status == "pending_generation" && r.music.style in MusicStyles
  {
    VideoData("PENDING_" + Get(data, "sku", "ART"), "pending_generation", "30 seconds", "1920x1080",
              30, AppliedEffects, Music("ambient", "Cinematic", true), "MP4 H.264",
              "Video will be generated shortly", "2-3 minutes")
  }

  /** Two artworks share a fallback id exactly when they have the same SKU. */
  lemma FallbackIdsDistinct(a: Artwork, b: Artwork)
    ensures FallbackVideoData(a).id == FallbackVideoData(b).id <==> Get(a, "sku", "ART") == Get(b, "sku", "ART")
  {
    var ia, ib := FallbackVideoData(a).id, FallbackVideoData(b).id;
    if ia == ib {
      assert ia[8..] == ib[8..];
    }
  }
}
