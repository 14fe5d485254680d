/** create_product_video (create_product_videos.py): the crops of one SKU folder become one
    Ken Burns clip each, every other clip carries a quote in its middle third, and an
    authenticity slide closes the video. The video is the sequence of frames handed to the
    writer; encoding is not modelled. */
module ProductVideo {
  import opened Raster
  import opened Names
  import opened Letterbox
  import opened KenBurns
  import TextOverlay

  const VideoDuration := 45
  const Width := 1920
  const Height := 1080
  /** The authenticity slide is held for three seconds. */
  const TrailerFrames := FPS * 3

  const ArtQuotes: seq<string> := [
    "Own a piece of history", "Invest in timeless art", "Elevate your space",
    "Curated for collectors", "Authenticated & verified", "Limited edition excellence",
    "Art that tells a story", "Museum-quality artwork", "Collectible masterpiece",
    "Gallery-worthy investment", "Rare find for discerning collectors", "Transform your walls",
    "Certified authentic artwork", "Hand-signed by the artist", "Ready to display",
    "Professionally curated", "A statement piece", "Timeless pop culture art"]

  /** The glob patterns, in the order they are searched. */
  const Patterns: seq<string> := [".png", ".jpg", ".jpeg"]

  /** One written frame: the picture and, when add_text_overlay was applied to it, the
      caption drawn over it. */
  datatype Frame = Frame(pic: Image, caption: Option<TextOverlay.Caption>)

  /** The authenticity slide: absent, present but unreadable, or a readable image. */
  datatype Trailer = NoTrailer | Unreadable | Slide(image: Image)

  /** Everything the function takes from outside: cv2.imread per file name, the direction
      random.choice draws for the clip with enumerate index idx, the quote it draws for
      that clip, the width cv2.getTextSize measures for a text, and the authenticity slide. */
  datatype World = World(
    read: string -> Option<Image>,
    direction: nat -> Direction,
    quote: nat -> string,
    textWidth: string -> int,
    trailer: Trailer)

  /** What the outside world guarantees: imread returns a valid non-empty image or nothing,
      random.choice picks one of the quotes. */
  ghost predicate WorldValid(w: World) {
    && (forall name :: w.read(name).Some? ==> w.read(name).value.Valid() && !w.read(name).value.IsEmpty())
    && (forall idx :: w.quote(idx) in ArtQuotes)
    && (w.trailer.Slide? ==> w.trailer.image.Valid() && !w.trailer.image.IsEmpty())
  }

  // ---------------------------------------------------------------------------------
  // Selecting the crops

  /** Neither a thumbnail (the check is case-sensitive) nor a stock image (the check is
      case-insensitive). */
  predicate Wanted(name: string) {
    !Contains(name, "THUMBNAIL") && !Contains(Lower(name), "stock")
  }

  /** The names a glob `*<suffix>` returns, in listing order. */
  function Matching(listing: seq<string>, suffix: string): (r: seq<string>)
    ensures forall x :: x in r <==> x in listing && EndsWith(x, suffix)
  {
    if listing == [] then []
    else
      var rest := Matching(listing[1..], suffix);
      assert listing == [listing[0]] + listing[1..];
      if EndsWith(listing[0], suffix) then [listing[0]] + rest else rest
  }

  /** The wanted names, in order. */
  function Kept(names: seq<string>): (r: seq<string>)
    ensures forall x :: x in r <==> x in names && Wanted(x)
  {
    if names == [] then []
    else
      var rest := Kept(names[1..]);
      assert names == [names[0]] + names[1..];
      if Wanted(names[0]) then [names[0]] + rest else rest
  }

  /** What one pattern contributes: its sorted glob result, wanted names only. */
  function PatternFiles(listing: seq<string>, suffix: string): seq<string> {
    Kept(Sort(Matching(listing, suffix)))
  }

  /** The crop files of a SKU folder: PNGs, then JPGs, then JPEGs. */
  function CropFiles(listing: seq<string>): seq<string> {
    PatternFiles(listing, ".png") + PatternFiles(listing, ".jpg") + PatternFiles(listing, ".jpeg")
  }

  /** The files the first p patterns contribute. */
  function Gathered(listing: seq<string>, p: nat): seq<string>
    requires p <= |Patterns|
  {
    if p == 0 then [] else Gathered(listing, p - 1) + PatternFiles(listing, Patterns[p - 1])
  }

  /** The pattern loop: for each pattern, the sorted glob result, keeping wanted names. */
  method CollectCrops(listing: seq<string>) returns (files: seq<string>)
    ensures files == CropFiles(listing)
  {
    files := [];
    for p := 0 to |Patterns|
      invariant files == Gathered(listing, p)
    {
      var kept := KeepWanted(Sort(Matching(listing, Patterns[p])));
      files := files + kept;
    }
    GatheredAll(listing);
  }

  lemma GatheredAll(listing: seq<string>)
    ensures Gathered(listing, |Patterns|) == CropFiles(listing)
  {
    assert Gathered(listing, 1) == PatternFiles(listing, ".png");
    assert Gathered(listing, 2) == Gathered(listing, 1) + PatternFiles(listing, ".jpg");
  }

  /** The inner loop: the names of one sorted glob result that pass the filters, in order. */
  method KeepWanted(found: seq<string>) returns (kept: seq<string>)
    ensures kept == Kept(found)
  {
    kept := [];
    for j := 0 to |found|
      invariant kept == Kept(found[..j])
    {
      KeptSnoc(found[..j], found[j]);
      assert found[..j + 1] == found[..j] + [found[j]];
      if Wanted(found[j]) {
        kept := kept + [found[j]];
      }
    }
    assert found[..|found|] == found;
  }

  lemma {:induction false} KeptSnoc(names: seq<string>, x: string)
    ensures Kept(names + [x]) == Kept(names) + (if Wanted(x) then [x] else [])
  {
    if names != [] {
      assert (names + [x])[1..] == names[1..] + [x];
      KeptSnoc(names[1..], x);
    }
  }

  function Group(name: string): nat {
    if EndsWith(name, ".png") then 0 else if EndsWith(name, ".jpg") then 1 else 2
  }

  predicate IsImageFile(name: string) {
    EndsWith(name, ".png") || EndsWith(name, ".jpg") || EndsWith(name, ".jpeg")
  }

  /** A crop file is exactly a listed image file that is wanted. */
  lemma CropFilesMembers(listing: seq<string>, x: string)
    ensures x in CropFiles(listing) <==> x in listing && IsImageFile(x) && Wanted(x)
  {
    InSort(Matching(listing, ".png"), x);
    InSort(Matching(listing, ".jpg"), x);
    InSort(Matching(listing, ".jpeg"), x);
  }

  lemma InSort(s: seq<string>, x: string)
    ensures x in Sort(s) <==> x in s
  {
    assert x in Sort(s) <==> x in multiset(Sort(s));
  }

  /** PNGs first, then JPGs, then JPEGs, each group in sorted order. */
  predicate Ordered(files: seq<string>) {
    forall i, j :: 0 <= i < j < |files| ==>
      Group(files[i]) <= Group(files[j]) && (Group(files[i]) == Group(files[j]) ==> LexLe(files[i], files[j]))
  }

  /** Crop files come PNGs first, then JPGs, then JPEGs, each group in sorted order. */
  lemma CropFilesOrder(listing: seq<string>)
    ensures Ordered(CropFiles(listing))
  {
    var a, b, c := PatternFiles(listing, ".png"), PatternFiles(listing, ".jpg"), PatternFiles(listing, ".jpeg");
    SortedGroup(listing, ".png", 0);
    SortedGroup(listing, ".jpg", 1);
    SortedGroup(listing, ".jpeg", 2);
    OrderedConcat(a, b);
    OrderedConcat(a + b, c);
  }

  lemma OrderedConcat(a: seq<string>, b: seq<string>)
    requires Ordered(a) && Ordered(b)
    requires forall x, y :: x in a && y in b ==> Group(x) < Group(y)
    ensures Ordered(a + b)
  {
    var ab := a + b;
    forall i, j | 0 <= i < j < |ab|
      ensures Group(ab[i]) <= Group(ab[j]) && (Group(ab[i]) == Group(ab[j]) ==> LexLe(ab[i], ab[j]))
    {
      if j < |a| {
        assert ab[i] == a[i] && ab[j] == a[j];
      } else if |a| <= i {
        assert ab[i] == b[i - |a|] && ab[j] == b[j - |a|];
      } else {
        assert ab[i] in a && ab[j] in b;
      }
    }
  }

  /** A sorted run of one group is ordered. */
  lemma OrderedGroup(part: seq<string>, g: nat)
    requires Sorted(part) && forall x :: x in part ==> Group(x) == g
    ensures Ordered(part)
  {
    forall i, j | 0 <= i < j < |part| ensures Group(part[i]) == Group(part[j]) == g {
      assert part[i] in part && part[j] in part;
    }
  }

  /** One pattern's contribution is sorted and lies in that pattern's group. */
  lemma SortedGroup(listing: seq<string>, suffix: string, g: nat)
    requires suffix in Patterns && g < |Patterns| && Patterns[g] == suffix
    ensures var part := PatternFiles(listing, suffix);
      Ordered(part) && forall x :: x in part ==> Group(x) == g
  {
    var s := Sort(Matching(listing, suffix));
    KeptSorted(s);
    forall x | x in Kept(s) ensures Group(x) == g {
      InSort(Matching(listing, suffix), x);
      SuffixGroup(x, g);
    }
    OrderedGroup(Kept(s), g);
  }

  /** The three suffixes exclude one another, so a name ending in pattern g is in group g. */
  lemma SuffixGroup(x: string, g: nat)
    requires g < |Patterns| && EndsWith(x, Patterns[g])
    ensures Group(x) == g
  {
    if g == 1 {
      assert x[|x| - 4] == '.';
    } else if g == 2 {
      assert x[|x| - 4] == 'j';
    }
  }

  lemma {:induction false} KeptSorted(s: seq<string>)
    requires Sorted(s)
    ensures Sorted(Kept(s))
  {
    if s != [] {
      KeptSorted(s[1..]);
      var rest := Kept(s[1..]);
      forall x | x in rest ensures LexLe(s[0], x) {
        var k :| 0 <= k < |s[1..]| && s[1..][k] == x;
        assert s[k + 1] == x;
      }
    }
  }

  /** The thumbnail test is case-sensitive: a name without upper-case letters is never
      taken for a thumbnail, whatever it says. */
  lemma {:induction false} LowerCaseNoThumbnail(s: string)
    requires forall i :: 0 <= i < |s| ==> !('A' <= s[i] <= 'Z')
    ensures !Contains(s, "THUMBNAIL")
  {
    if s != [] {
      LowerCaseNoThumbnail(s[1..]);
      assert s[0] != "THUMBNAIL"[0];
    }
  }

  /** The stock test is case-insensitive: a name containing "stock" in any mix of cases is
      dropped. */
  lemma StockAnyCase(name: string, sub: string)
    requires Contains(name, sub) && Lower(sub) == "stock"
    ensures !Wanted(name)
  {
    ContainsLower(name, sub);
  }

  lemma {:induction false} ContainsLower(s: string, sub: string)
    requires Contains(s, sub)
    ensures Contains(Lower(s), Lower(sub))
  {
    if StartsWith(s, sub) {
      assert Lower(s)[..|sub|] == Lower(sub);
    } else {
      ContainsLower(s[1..], sub);
      assert Lower(s)[1..] == Lower(s[1..]);
    }
  }

  // ---------------------------------------------------------------------------------
  // One clip per crop

  /** The quote a clip carries: a random quote for every clip with an even enumerate
      index, none for the others. */
  function Quote(w: World, idx: nat): (q: Option<string>)
    requires WorldValid(w)
    ensures q.Some? <==> idx % 2 == 0
    ensures q.Some? ==> q.value in ArtQuotes
  {
    if idx % 2 == 0 then Some(w.quote(idx)) else None
  }

  /** Frame k of a clip of n frames: captioned with the quote when the clip has one and k
      lies in the middle third [n / 3, 2 * n / 3), left as it is otherwise. */
  function Captioned(pic: Image, k: nat, n: nat, quote: Option<string>, textWidth: int): (r: Result<Frame>)
    requires pic.Valid()
    ensures r.Ok? ==> r.value.pic == pic
    ensures r.Err? ==> r.error == EmptyRegion
  {
    if quote.Some? && n / 3 <= k < 2 * n / 3 then
      match TextOverlay.AddTextOverlay(pic, quote.value, "bottom", textWidth)
      case Err(e) => Err(e)
      case Ok(caption) => Ok(Frame(pic, Some(caption)))
    else Ok(Frame(pic, None))
  }

  /** The clip after the overlay loop, or the error add_text_overlay raises. */
  function Decorated(pics: seq<Image>, quote: Option<string>, textWidth: int): (r: Result<seq<Frame>>)
    requires forall k :: 0 <= k < |pics| ==> pics[k].Valid()
    ensures r.Ok? ==> |r.value| == |pics| && forall k :: 0 <= k < |pics| ==> r.value[k].pic == pics[k]
  {
    if forall k :: 0 <= k < |pics| ==> Captioned(pics[k], k, |pics|, quote, textWidth).Ok?
    then Ok(seq(|pics|, k requires 0 <= k < |pics| => Captioned(pics[k], k, |pics|, quote, textWidth).value))
    else Err(EmptyRegion)
  }

  /** The overlay loop, in place on the list of frames: frames[i] is replaced by its
      captioned version for i in [len // 3, 2 * len // 3). */
  method CaptionClip(pics: seq<Image>, quote: Option<string>, textWidth: int) returns (r: Result<seq<Frame>>)
    requires forall k :: 0 <= k < |pics| ==> pics[k].Valid()
    ensures r == Decorated(pics, quote, textWidth)
  {
    var n := |pics|;
    var frames := new Frame[n](k requires 0 <= k < n => Frame(pics[k], None));
    if quote.Some? {
      var failed := OverlayBand(frames, pics, quote.value, textWidth);
      if failed {
        return Err(EmptyRegion);
      }
    }
    forall k | 0 <= k < n && !(quote.Some? && n / 3 <= k < 2 * n / 3)
      ensures Captioned(pics[k], k, n, quote, textWidth) == Ok(frames[k])
    {
    }
    DecoratedIs(pics, quote, textWidth, frames[..]);
    r := Ok(frames[..]);
  }

  /** The loop over the middle third: each frame there is replaced by its captioned version;
      failed reports that add_text_overlay raised. */
  method OverlayBand(frames: array<Frame>, pics: seq<Image>, quote: string, textWidth: int) returns (failed: bool)
    requires frames.Length == |pics| && forall k :: 0 <= k < |pics| ==> pics[k].Valid()
    modifies frames
    ensures var n := |pics|;
      failed ==> exists k :: n / 3 <= k < 2 * n / 3 && Captioned(pics[k], k, n, Some(quote), textWidth).Err?
    ensures var n := |pics|;
      !failed ==> forall k :: n / 3 <= k < 2 * n / 3 ==> Captioned(pics[k], k, n, Some(quote), textWidth) == Ok(frames[k])
    ensures forall k :: 0 <= k < |pics| && !(|pics| / 3 <= k < 2 * |pics| / 3) ==> frames[k] == old(frames[k])
  {
    var n := |pics|;
    for i := n / 3 to 2 * n / 3
      invariant forall k :: 0 <= k < n && !(n / 3 <= k < i) ==> frames[k] == old(frames[k])
      invariant forall k :: n / 3 <= k < i ==> Captioned(pics[k], k, n, Some(quote), textWidth) == Ok(frames[k])
    {
      var frame := CaptionFrame(pics[i], i, n, Some(quote), textWidth);
      if frame.Err? {
        return true;
      }
      ghost var before := frames[..];
      frames[i] := frame.value;
      assert forall k :: 0 <= k < n && k != i ==> frames[k] == before[k];
    }
    failed := false;
  }

  lemma DecoratedIs(pics: seq<Image>, quote: Option<string>, textWidth: int, frames: seq<Frame>)
    requires forall k :: 0 <= k < |pics| ==> pics[k].Valid()
    requires |frames| == |pics|
    requires forall k :: 0 <= k < |pics| ==> Captioned(pics[k], k, |pics|, quote, textWidth) == Ok(frames[k])
    ensures Decorated(pics, quote, textWidth) == Ok(frames)
  {
    assert frames == seq(|pics|, k requires 0 <= k < |pics| => Captioned(pics[k], k, |pics|, quote, textWidth).value);
  }

  /** add_text_overlay on one frame of the middle third. */
  method CaptionFrame(pic: Image, k: nat, n: nat, quote: Option<string>, textWidth: int) returns (r: Result<Frame>)
    requires pic.Valid() && quote.Some? && n / 3 <= k < 2 * n / 3
    ensures r == Captioned(pic, k, n, quote, textWidth)
  {
    var caption := TextOverlay.AddTextOverlay(pic, quote.value, "bottom", textWidth);
    if caption.Err? {
      return Err(caption.error);
    }
    r := Ok(Frame(pic, Some(caption.value)));
  }

  /** A frame of the video's size. */
  predicate IsFullFrame(f: Frame) {
    f.pic.Valid() && f.pic.h == Height && f.pic.w == Width
  }

  /** The width the overlay measures for a clip's quote. */
  function QuoteWidth(w: World, quote: Option<string>): int {
    if quote.Some? then w.textWidth(quote.value) else 0
  }

  /** The frames the loop body writes for the crop at enumerate index idx: nothing for an
      unreadable file; otherwise the letterboxed crop's Ken Burns clip from zoom 1.0 to 1.3
      with the drawn direction, captioned when idx is even. */
  function ClipFor(w: World, idx: nat, name: string): (r: Result<seq<Frame>>)
    requires WorldValid(w)
    ensures r.Ok? ==> |r.value| == (if w.read(name).Some? then ClipFrames else 0)
    ensures r.Ok? ==> forall k :: 0 <= k < |r.value| ==> IsFullFrame(r.value[k])
  {
    match w.read(name)
    case None => Ok([])
    case Some(img) =>
      match Letterboxed(img, Width, Height)
      case Err(e) => Err(e)
      case Ok(canvas) =>
        match Clip(canvas, 1.0, 1.3, w.direction(idx))
        case Err(e) => Err(e)
        case Ok(pics) => Decorated(pics, Quote(w, idx), QuoteWidth(w, Quote(w, idx)))
  }

  /** One pass of the enumerate loop, up to the writing of its frames. */
  method RenderCrop(w: World, idx: nat, name: string) returns (r: Result<seq<Frame>>)
    requires WorldValid(w)
    ensures r == ClipFor(w, idx, name)
  {
    var img := w.read(name);
    if img.None? {
      return Ok([]);
    }
    var canvas := FitCentred(img.value, Width, Height);
    if canvas.Err? {
      return Err(canvas.error);
    }
    var pics := ApplyKenBurnsEffect(canvas.value, 1.0, 1.3, "random", w.direction(idx));
    if pics.Err? {
      return Err(pics.error);
    }
    var quote := Quote(w, idx);
    r := CaptionClip(pics.value, quote, QuoteWidth(w, quote));
  }

  // ---------------------------------------------------------------------------------
  // The whole video

  /** The frames written for the first n crop files, or the first error raised. */
  function Clips(w: World, files: seq<string>, n: nat): Result<seq<Frame>>
    requires WorldValid(w) && n <= |files|
  {
    if n == 0 then Ok([])
    else
      match Clips(w, files, n - 1)
      case Err(e) => Err(e)
      case Ok(prefix) =>
        match ClipFor(w, n - 1, files[n - 1])
        case Err(e) => Err(e)
        case Ok(clip) => Ok(prefix + clip)
  }

  /** The authenticity slide, held for three seconds; an unreadable slide makes
      resize_to_video_dimensions raise on None. */
  function TrailerOf(t: Trailer): Result<seq<Frame>>
    requires t.Slide? ==> t.image.Valid() && !t.image.IsEmpty()
  {
    match t
    case NoTrailer => Ok([])
    case Unreadable => Err(NoImage)
    case Slide(img) =>
      match Letterboxed(img, Width, Height)
      case Err(e) => Err(e)
      case Ok(canvas) => Ok(seq(TrailerFrames, _ => Frame(canvas, None)))
  }

  /** create_product_video on a SKU folder (None when the folder does not exist, else its
      listing): no video (None) for a missing folder or one without crop files; otherwise
      the clips of all crop files followed by the authenticity slide, or the error raised
      on the way. */
  function Video(w: World, folder: Option<seq<string>>): Result<Option<seq<Frame>>>
    requires WorldValid(w)
  {
    match folder
    case None => Ok(None)
    case Some(listing) =>
      var files := CropFiles(listing);
      if |files| == 0 then Ok(None)
      else
        match Clips(w, files, |files|)
        case Err(e) => Err(e)
        case Ok(body) =>
          match TrailerOf(w.trailer)
          case Err(e) => Err(e)
          case Ok(trailer) => Ok(Some(body + trailer))
  }

  /** cv2.VideoWriter: the frames written so far. */
  class VideoWriter {
    var written: seq<Frame>

    constructor ()
      ensures written == []
    {
      written := [];
    }

    method Write(frame: Frame)
      modifies this
      ensures written == old(written) + [frame]
    {
      written := written + [frame];
    }

    /** Writes each frame of a list in turn. */
    method WriteAll(frames: seq<Frame>)
      modifies this
      ensures written == old(written) + frames
    {
      for k := 0 to |frames|
        invariant written == old(written) + frames[..k]
      {
        assert frames[..k + 1] == frames[..k] + [frames[k]];
        Write(frames[k]);
      }
      assert frames[..|frames|] == frames;
    }
  }

  /** create_product_video: the frames handed to the writer, or the error raised. */
  method CreateProductVideo(w: World, folder: Option<seq<string>>) returns (r: Result<Option<seq<Frame>>>)
    requires WorldValid(w)
    ensures r == Video(w, folder)
  {
    if folder.None? {
      return Ok(None);
    }
    var files := CollectCrops(folder.value);
    if |files| == 0 {
      return Ok(None);
    }
    var out := new VideoWriter();
    var failure := WriteClips(w, files, out);
    if failure.Some? {
      return Err(failure.value);
    }
    failure := WriteTrailer(w.trailer, out);
    if failure.Some? {
      return Err(failure.value);
    }
    r := Ok(Some(out.written));
  }

  /** The enumerate loop: each crop's frames are written as soon as they are made. */
  method WriteClips(w: World, files: seq<string>, out: VideoWriter) returns (failure: Option<Failure>)
    requires WorldValid(w) && out.written == []
    modifies out
    ensures failure.None? ==> Clips(w, files, |files|) == Ok(out.written)
    ensures failure.Some? ==> Clips(w, files, |files|) == Err(failure.value)
  {
    for idx := 0 to |files|
      invariant Clips(w, files, idx) == Ok(out.written)
    {
      var clip := RenderCrop(w, idx, files[idx]);
      if clip.Err? {
        ClipsErr(w, files, idx + 1, |files|);
        return Some(clip.error);
      }
      out.WriteAll(clip.value);
    }
    failure := None;
  }

  /** The authenticity slide: the letterboxed slide written FPS * 3 times. */
  method WriteTrailer(t: Trailer, out: VideoWriter) returns (failure: Option<Failure>)
    requires t.Slide? ==> t.image.Valid() && !t.image.IsEmpty()
    modifies out
    ensures match TrailerOf(t)
      case Ok(frames) => failure.None? && out.written == old(out.written) + frames
      case Err(e) => failure == Some(e)
  {
    match t {
      case NoTrailer =>
        failure := None;
      case Unreadable =>
        failure := Some(NoImage);
      case Slide(img) =>
        var canvas := FitCentred(img, Width, Height);
        if canvas.Err? {
          return Some(canvas.error);
        }
        for k := 0 to TrailerFrames
          invariant out.written == old(out.written) + seq(k, _ => Frame(canvas.value, None))
        {
          out.Write(Frame(canvas.value, None));
        }
        failure := None;
    }
  }

  /** Once a crop raises, the whole call raises that error. */
  lemma {:induction false} ClipsErr(w: World, files: seq<string>, i: nat, n: nat)
    requires WorldValid(w) && i <= n <= |files| && Clips(w, files, i).Err?
    ensures Clips(w, files, n) == Err(Clips(w, files, i).error)
    decreases n
  {
    if i < n {
      ClipsErr(w, files, i, n - 1);
    }
  }

  // ---------------------------------------------------------------------------------
  // Properties of the video

  /** The number of readable files among the first n. */
  function Readable(w: World, files: seq<string>, n: nat): nat
    requires n <= |files|
  {
    if n == 0 then 0 else Readable(w, files, n - 1) + (if w.read(files[n - 1]).Some? then 1 else 0)
  }

  /** The captions of the clip with enumerate index idx: 120 frames, of which those in
      [40, 80) carry a caption exactly when idx is even; that caption is the quote drawn for
      the clip, centred on its measured width, with its baseline at y = 900, in white
      exactly when the bottom band of its frame is dark. */
  predicate CaptionsAsDrawn(w: World, idx: nat, frames: seq<Frame>)
    requires WorldValid(w)
  {
    && |frames| == ClipFrames
    && forall k :: 0 <= k < ClipFrames ==>
         && (frames[k].caption.Some? <==> idx % 2 == 0 && 40 <= k < 80)
         && (frames[k].caption.Some? ==>
               var c := frames[k].caption.value;
               var quote := w.quote(idx);
               && c.text == quote
               && c.anchor == ((Width - w.textWidth(quote)) / 2, 900)
               && frames[k].pic.Valid()
               && (c.colour == TextOverlay.White <==> TextOverlay.Dark(TextOverlay.BandRegion(frames[k].pic, TextOverlay.Bottom))))
  }

  /** Every clip of a readable crop is captioned as drawn. */
  lemma ClipCaptions(w: World, idx: nat, name: string)
    requires WorldValid(w) && w.read(name).Some?
    ensures ClipFor(w, idx, name).Ok? ==> CaptionsAsDrawn(w, idx, ClipFor(w, idx, name).value)
  {
    var r := ClipFor(w, idx, name);
    if r.Ok? {
      var img := w.read(name).value;
      var canvas := Letterboxed(img, Width, Height).value;
      var pics := Clip(canvas, 1.0, 1.3, w.direction(idx)).value;
      var quote := Quote(w, idx);
      var tw := QuoteWidth(w, quote);
      assert r == Decorated(pics, quote, tw);
      DecoratedCaptions(w, idx, pics);
    }
  }

  /** The overlay loop captions exactly the middle third of a clip of full frames. */
  lemma DecoratedCaptions(w: World, idx: nat, pics: seq<Image>)
    requires WorldValid(w) && |pics| == ClipFrames
    requires forall k :: 0 <= k < |pics| ==> pics[k].Valid() && pics[k].h == Height && pics[k].w == Width
    requires var quote := Quote(w, idx); Decorated(pics, quote, QuoteWidth(w, quote)).Ok?
    ensures var quote := Quote(w, idx); CaptionsAsDrawn(w, idx, Decorated(pics, quote, QuoteWidth(w, quote)).value)
  {
    var quote := Quote(w, idx);
    var tw := QuoteWidth(w, quote);
    var frames := Decorated(pics, quote, tw).value;
    forall k | 0 <= k < |pics|
      ensures && (frames[k].caption.Some? <==> idx % 2 == 0 && 40 <= k < 80)
              && (frames[k].caption.Some? ==>
                    frames[k].caption.value.text == w.quote(idx)
                    && frames[k].caption.value.anchor == ((Width - w.textWidth(w.quote(idx))) / 2, 900)
                    && frames[k].pic.Valid()
                    && (frames[k].caption.value.colour == TextOverlay.White <==>
                          TextOverlay.Dark(TextOverlay.BandRegion(frames[k].pic, TextOverlay.Bottom))))
    {
      DecoratedAt(pics, quote, tw, k);
      CaptionOf(pics[k], k, |pics|, quote, tw);
    }
  }

  lemma DecoratedAt(pics: seq<Image>, quote: Option<string>, tw: int, k: nat)
    requires forall k :: 0 <= k < |pics| ==> pics[k].Valid()
    requires Decorated(pics, quote, tw).Ok? && k < |pics|
    ensures Captioned(pics[k], k, |pics|, quote, tw) == Ok(Decorated(pics, quote, tw).value[k])
  {
  }

  /** A captioned frame of the video's size carries the quote, centred, on the baseline of
      the bottom band, white exactly when that band is dark. */
  lemma CaptionOf(pic: Image, k: nat, n: nat, quote: Option<string>, tw: int)
    requires pic.Valid() && pic.h == Height && pic.w == Width
    requires Captioned(pic, k, n, quote, tw).Ok?
    ensures var f := Captioned(pic, k, n, quote, tw).value;
      && (f.caption.Some? <==> quote.Some? && n / 3 <= k < 2 * n / 3)
      && (f.caption.Some? ==> f.caption.value.text == quote.value && f.caption.value.anchor == ((Width - tw) / 2, 900))
      && (f.caption.Some? ==>
            (f.caption.value.colour == TextOverlay.White <==> TextOverlay.Dark(TextOverlay.BandRegion(pic, TextOverlay.Bottom))))
  {
    if quote.Some? {
      TextOverlay.CaptionColour(pic, quote.value, "bottom", tw);
    }
  }

  /** A readable crop whose sides differ by less than a factor of 1920 or 1080 always
      yields its clip: the letterboxed canvas is non-empty, no Ken Burns frame is empty and
      the bottom band of a 1920 x 1080 frame is never empty. */
  lemma ClipSucceeds(w: World, idx: nat, name: string)
    requires WorldValid(w) && w.read(name).Some?
    requires var img := w.read(name).value; img.h <= Height * img.w && img.w <= Width * img.h
    ensures ClipFor(w, idx, name).Ok?
  {
    var img := w.read(name).value;
    PlaceNonEmpty(img.w, img.h, Width, Height);
    LetterboxedShape(img, Width, Height);
    var canvas := Letterboxed(img, Width, Height).value;
    ClipNeverFails(canvas, 1.0, 1.3, w.direction(idx));
    var pics := Clip(canvas, 1.0, 1.3, w.direction(idx)).value;
    var quote := Quote(w, idx);
    forall k | 0 <= k < |pics|
      ensures Captioned(pics[k], k, |pics|, quote, QuoteWidth(w, quote)).Ok?
    {
      if quote.Some? {
        TextOverlay.OverlayFails(pics[k], quote.value, "bottom", QuoteWidth(w, quote));
      }
    }
  }

  /** The frames of the first n files: 120 per readable file, each of the video's size. */
  lemma {:induction false} ClipsShape(w: World, files: seq<string>, n: nat)
    requires WorldValid(w) && n <= |files| && Clips(w, files, n).Ok?
    ensures var frames := Clips(w, files, n).value;
      && |frames| == ClipFrames * Readable(w, files, n)
      && forall k :: 0 <= k < |frames| ==> IsFullFrame(frames[k])
  {
    if n > 0 {
      ClipsShape(w, files, n - 1);
    }
  }

  /** A finished video holds 120 frames per readable crop file, then 90 frames of the
      authenticity slide when there is one, all 1920 x 1080. */
  lemma VideoShape(w: World, listing: seq<string>)
    requires WorldValid(w)
    ensures var r := Video(w, Some(listing));
      var files := CropFiles(listing);
      r.Ok? && r.value.Some? ==>
        && |r.value.value| == ClipFrames * Readable(w, files, |files|) + (if w.trailer.Slide? then TrailerFrames else 0)
        && forall k :: 0 <= k < |r.value.value| ==> IsFullFrame(r.value.value[k])
  {
    var files := CropFiles(listing);
    if |files| > 0 && Clips(w, files, |files|).Ok? {
      ClipsShape(w, files, |files|);
    }
  }

  /** No video is made exactly when the folder is missing or holds no crop file; a folder
      whose crops are all unreadable still yields a video. */
  lemma NoVideo(w: World, folder: Option<seq<string>>)
    requires WorldValid(w)
    ensures Video(w, folder) == Ok(None) <==> folder.None? || CropFiles(folder.value) == []
  {
  }

  /** An authenticity slide that exists but cannot be read makes the call raise once all
      clips are written. */
  lemma UnreadableSlide(w: World, listing: seq<string>)
    requires WorldValid(w) && w.trailer == Unreadable
    requires var files := CropFiles(listing); files != [] && Clips(w, files, |files|).Ok?
    ensures Video(w, Some(listing)) == Err(NoImage)
  {
  }
}
