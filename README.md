# Product video creator, modelled in Dafny

This project models the video-making core of a small Python tool that turns photos of
artworks into short marketing videos.

- **`create_product_videos.py`** makes one video per product (SKU). It collects the SKU's
  cropped photos, letterboxes each onto a 1920×1080 black canvas and runs a 4-second Ken
  Burns zoom-and-pan over it. It captions the middle third of every other clip with a
  quote for collectors, then appends a 3-second authenticity slide.
- **`video_generator.py`** makes a 30-second "cinematic" video from one artwork:
  - a 3-second fade-in with a title card;
  - a 24-second main sequence of six effect segments (Ken Burns, corner zoom, centre
    zoom, a static hold, a horizontal pan, a slow rotation);
  - a 3-second fade-out with a call-to-action box.

  It also picks a music style and builds a fallback metadata record.
- **`demo.py`** simulates the Ken Burns crop windows, a 45-second timeline, the
  frame-count table and a 4×2 storyboard of thumbnails.
- **`batch_video_generator.py`** runs the product video over every SKU folder in sorted
  order. It skips SKUs whose video exists, counts successes, failures and skips, and
  exits with 0 exactly when nothing failed.

Images are values of `Raster.Image`: rows of BGR pixels with explicit width and height.
Integer conversions follow Python's `int()` (truncation toward zero, `Raster.Trunc`).
Python's `//` is written as Dafny's `/`. Every divisor here is positive, and for a
positive divisor both round toward minus infinity. That includes a negative dividend
such as `(w - text_width) // 2` for text wider than the frame. A `cv2.resize` that would
produce an empty image raises in OpenCV; here it is the error `ResizeToEmpty`. The
callers propagate it, with one exception: the reshaping resize after the Ken Burns crop
(create_product_videos.py:164-174). It sits inside a bare `except`, which falls back to
resizing the original image (`KenBurns.FrameAt`).

The operations are modelled in two layers:
- Operations written as loops are Dafny methods. Each is proved equal to a specification
  function: Ken Burns frame generation, the effect loops, the intro and outro loops, the
  CTA line layout, the frame-writing loop with its `VideoWriter` class, the crop
  collection, the timeline, the storyboard and the batch loop.
- The properties the program relies on are lemmas about those functions.

Modules follow the source files:

| module | file | covers |
|---|---|---|
| `Raster` | `raster.dfy` | images, truncation, crop, resize |
| `Names` | `names.dfy` | substring, suffix, lower-casing and sorting of names |
| `Letterbox` | `letterbox.dfy` | `resize_to_video_dimensions` / `resize_and_pad` |
| `KenBurns` | `ken_burns.dfy` | `apply_ken_burns_effect` |
| `TextOverlay` | `text_overlay.dfy` | brightness, text colour, caption layout |
| `ProductVideo` | `product_video.dfy` | `create_product_video` |
| `VideoEffects` | `video_effects.dfy` | `apply_effect` |
| `VideoGenerator` | `video_generator.dfy` | the rest of `video_generator.py` |
| `Demo` | `demo.dfy` | `demo.py` |
| `Batch` | `batch.dfy` | `batch_video_generator.py` |

Three facts about `create_product_videos.py` shape the model:
- **Clip length.** Each crop's clip is always `FPS * 4` = 120 frames (lines 122-123).
  The value `seconds_per_crop` (line 294) is only printed.
- **THUMBNAIL filter.** The "THUMBNAIL" test on a file name is case-sensitive. Only
  the "stock" test lower-cases the name (line 275).
- **Unclamped crop.** The Ken Burns crop offsets are not clamped. Zooms of at least 1
  keep the crop inside the resized image (`KenBurns.PanInsideResized`). So with those
  zooms, neither the reshaping resize nor the `except` fallback is used
  (`KenBurns.FrameIsWindow`).

## Model

| member | source | states |
|---|---|---|
| Raster.Trunc | create_product_videos.py:139-140 | `int()` of a real: the integer part, rounded toward zero, for both signs |
| Raster.Crop | create_product_videos.py:164 | numpy slicing: the result is a valid image no larger than the source; when the bounds are in range it has exactly those rows and columns and the source's pixels |
| Raster.Resize | create_product_videos.py:143 | `cv2.resize`: succeeds exactly when the image is non-empty and both target sides are positive, and then has the requested size; otherwise the error is `ResizeToEmpty` |
| Raster.Gray | create_product_videos.py:86 | BGR-to-gray of one pixel lies in 0..255 and equals the level of a gray pixel |
| Raster.GridGray | create_product_videos.py:86-89 | the summed gray of a region lies between 0 and 255·area |
| Raster.Snapshot | create_product_videos.py:245-251 | reading a canvas array gives an image of its size with its pixels |
| Raster.StretchWithin | create_product_videos.py:147-161 | `int(a * q)` for 0 ≤ q ≤ 1 lies in 0..a |
| Raster.StretchGrows | create_product_videos.py:139-140 | `int(a * zoom)` with zoom ≥ 1 is at least a |
| Raster.StretchMono | create_product_videos.py:137-140 | `int(a * q)` grows with q |
| Names.Lower | create_product_videos.py:275 | `str.lower()` on ASCII letters: same length, each A–Z mapped to its lower-case letter, no ASCII capital remains |
| Names.LexLeTotal | create_product_videos.py:274 | Python's string order is total |
| Names.LexLeTrans | create_product_videos.py:274 | Python's string order is transitive |
| Names.LexLeAntisym | create_product_videos.py:274 | Python's string order is antisymmetric |
| Names.Insert | create_product_videos.py:274 | inserting into a sorted list keeps it sorted and adds exactly that name |
| Names.Sort | batch_video_generator.py:25 | `sorted()`: the result is sorted and a permutation of the input |
| Names.SortLength | batch_video_generator.py:25 | sorting keeps the number of names |
| Letterbox.PlaceInside | create_product_videos.py:236-250 | the scaled size and offset put the picture inside the canvas, centred to within one pixel on each axis |
| Letterbox.PlaceNonEmpty | create_product_videos.py:237-239 | for an image whose sides differ by less than the canvas factor, both scaled sides are at least 1 |
| Letterbox.Letterboxed | create_product_videos.py:232-253 | the letterboxed canvas is exactly W×H |
| Letterbox.LetterboxedShape | video_generator.py:335-357 | it fails exactly when a scaled side is 0; otherwise the canvas is W×H, black outside the placed rectangle and the resized image inside it |
| Letterbox.CanvasIsPaste | create_product_videos.py:245-251 | a canvas filled pixel by pixel reads back as the pasted image |
| Letterbox.FitCentred | create_product_videos.py:232-253 | the array-filling method computes `Letterboxed` |
| Letterbox.PasteCentred | video_generator.py:348-355 | filling a zero canvas and pasting the resized image gives `Paste` |
| KenBurns.Resolve | create_product_videos.py:128-131 | "random" takes the drawn direction; each direction name picks its direction; any other name is the centre |
| KenBurns.FrameAt | create_product_videos.py:143-174 | a frame succeeds exactly when the image is non-empty and the zoomed sides are positive, and then has the input's size |
| KenBurns.Clip | create_product_videos.py:116-176 | a successful clip has 120 frames, each the size of the input image |
| KenBurns.ApplyKenBurnsEffect | create_product_videos.py:116-176 | the frame loop computes `Clip` for the resolved direction |
| KenBurns.RenderFrame | create_product_videos.py:143-174 | one loop body computes `FrameAt` |
| KenBurns.ProgressRange | create_product_videos.py:133-134 | progress `i / total_frames` lies in [0, 1) |
| KenBurns.ZoomAtLeastOne | create_product_videos.py:137 | the current zoom never falls below 1 when both ends are at least 1 |
| KenBurns.FactorsRange | create_product_videos.py:146-161 | the pan factors of every direction lie in [0, 1] |
| KenBurns.PanWithin | create_product_videos.py:146-161 | pan offsets lie between 0 and the overhang |
| KenBurns.PanInsideResized | create_product_videos.py:139-164 | the crop window always lies inside the resized image |
| KenBurns.FrameIsWindow | create_product_videos.py:143-174 | each frame is exactly the window of the resized image at the pan offset, at the input's size |
| KenBurns.ZoomMonotone | create_product_videos.py:137-140 | with end zoom ≥ start zoom, zoom and scaled sides never decrease along the clip |
| KenBurns.FirstFrame | create_product_videos.py:134-141 | frame 0 is at the start zoom; from zoom 1 it is the unscaled image |
| KenBurns.ClipNeverFails | create_product_videos.py:116-176 | a non-empty image with zooms ≥ 1 always yields a clip |
| TextOverlay.PositionOf | create_product_videos.py:187-195 | "top" and "bottom" pick their bands; any other name is the centre |
| TextOverlay.AverageBrightness | create_product_videos.py:83-91 | the mean gray over 255 lies in [0, 1]; an empty region is an error |
| TextOverlay.Region | create_product_videos.py:99-105 | the measured region is a valid sub-image |
| TextOverlay.TextColourRule | create_product_videos.py:94-113 | the colour is an error exactly for an empty region; otherwise white exactly when 2·(summed gray) < 255·area, i.e. brightness < 0.5 |
| TextOverlay.DarkRegion | create_product_videos.py:107-113 | brightness < 0.5 exactly when 2·sum < 255·area |
| TextOverlay.UniformRegion | create_product_videos.py:94-113 | on a region of one gray level v, the text is white exactly when v ≤ 127 |
| TextOverlay.UniformDark | create_product_videos.py:83-91 | a uniform gray image of level v is dark exactly when v ≤ 127 |
| TextOverlay.AddTextOverlay | create_product_videos.py:179-229 | the caption carries the text, white exactly when the brightness of the position's band is below 0.5 and black otherwise, centred horizontally at the band's text line, a shadow 3 px down and right, and the position's backing box and alpha; a failure is `EmptyRegion` |
| TextOverlay.CaptionColour | create_product_videos.py:196-198 | a drawn caption is white exactly when its band is dark: 2·(summed gray) < 255·area |
| TextOverlay.LayoutInsideFrame | create_product_videos.py:186-211 | bands and backing boxes lie inside the frame and contain the text line |
| TextOverlay.OverlayFails | create_product_videos.py:186-198 | captioning fails exactly when the frame is too small for the band to hold a pixel |
| TextOverlay.TextCentred | create_product_videos.py:217-218 | `(w - tw) // 2` centres text of width tw to within one pixel |
| ProductVideo.Matching | create_product_videos.py:273 | a glob keeps exactly the listed names with that suffix |
| ProductVideo.Kept | create_product_videos.py:275 | exactly the names without "THUMBNAIL" and without "stock" in any case are kept |
| ProductVideo.CollectCrops | create_product_videos.py:272-276 | the gathering loop computes `CropFiles` |
| ProductVideo.KeepWanted | create_product_videos.py:274-276 | the filter loop computes `Kept` |
| ProductVideo.CropFilesMembers | create_product_videos.py:272-276 | a name is collected exactly when it is listed, is .png/.jpg/.jpeg and is wanted |
| ProductVideo.CropFilesOrder | create_product_videos.py:272-276 | the collection is grouped by pattern in order, sorted within each group |
| ProductVideo.LowerCaseNoThumbnail | create_product_videos.py:275 | a lower-case name never contains "THUMBNAIL" |
| ProductVideo.StockAnyCase | create_product_videos.py:275 | a name containing "stock" in any letter case is dropped |
| ProductVideo.Quote | create_product_videos.py:314-316 | even-indexed clips get a quote drawn from the quote list; odd ones none |
| ProductVideo.Captioned | create_product_videos.py:317-321 | a captioned frame keeps its picture; a failure is `EmptyRegion` |
| ProductVideo.Decorated | create_product_videos.py:314-321 | a decorated clip keeps its length and every picture |
| ProductVideo.CaptionClip | create_product_videos.py:314-321 | the caption loop computes `Decorated` |
| ProductVideo.OverlayBand | create_product_videos.py:317-321 | frames in `[n//3, 2n//3)` get the caption; all others are unchanged; failure means some frame there cannot be captioned |
| ProductVideo.CaptionFrame | create_product_videos.py:321 | one overlay call computes `Captioned` |
| ProductVideo.CaptionOf | create_product_videos.py:314-321 | a frame is captioned exactly when its clip has a quote and it lies in the middle third, with the quote at ((1920 - tw)//2, 900), white exactly when the frame's bottom band is dark |
| ProductVideo.ClipFor | create_product_videos.py:300-321 | an unreadable crop adds no frames; a readable one adds 120 full 1920×1080 frames |
| ProductVideo.RenderCrop | create_product_videos.py:300-321 | the per-crop loop body computes `ClipFor` |
| ProductVideo.ClipCaptions | create_product_videos.py:313-321 | frames 40..79 of every even clip carry its quote, white exactly when that frame's bottom band is dark, and no other frame has a caption |
| ProductVideo.ClipSucceeds | create_product_videos.py:300-321 | a readable crop of non-extreme aspect ratio always yields its clip |
| ProductVideo.ClipsShape | create_product_videos.py:300-325 | the written clips hold 120 frames per readable crop, all full frames |
| ProductVideo.VideoShape | create_product_videos.py:256-349 | a produced video holds 120 frames per readable crop plus 90 for a present slide, all full frames |
| ProductVideo.NoVideo | create_product_videos.py:267-282 | no video (None) exactly when the folder is missing or no crop passes the filters |
| ProductVideo.UnreadableSlide | create_product_videos.py:329-333 | an authenticity slide that exists but cannot be read makes the run raise |
| ProductVideo.VideoWriter.constructor | create_product_videos.py:291 | a new writer has written nothing |
| ProductVideo.VideoWriter.Write | create_product_videos.py:324-325 | `out.write` appends exactly that frame |
| ProductVideo.VideoWriter.WriteAll | create_product_videos.py:324-325 | writing a clip appends its frames in order |
| ProductVideo.CreateProductVideo | create_product_videos.py:256-349 | the procedure computes `Video`: None, an error, or the written frames |
| ProductVideo.WriteClips | create_product_videos.py:300-325 | the writer holds exactly the clips' frames, or the first error is reported |
| ProductVideo.WriteTrailer | create_product_videos.py:329-335 | a present slide appends 90 copies; a missing one nothing; an unreadable one is an error |
| VideoEffects.EffectOf | video_generator.py:192-280 | each effect name selects its branch; every other name is the static hold |
| VideoEffects.KenBurnsFrame | video_generator.py:194-214 | a Ken Burns frame is 1920×1080 or a `ResizeToEmpty` error |
| VideoEffects.TopLeftFrame | video_generator.py:216-228 | a top-left zoom frame is 1920×1080 or a `ResizeToEmpty` error |
| VideoEffects.CentreFrame | video_generator.py:230-244 | a centre zoom frame is 1920×1080 or a `ResizeToEmpty` error |
| VideoEffects.PanFrame | video_generator.py:246-260 | a pan frame is 1920×1080 or a `ResizeToEmpty` error |
| VideoEffects.EffectFrame | video_generator.py:186-282 | every branch, including rotation and the static default, gives a 1920×1080 frame or `ResizeToEmpty` |
| VideoEffects.EffectClip | video_generator.py:186-282 | a successful segment has `fps * duration` video frames |
| VideoEffects.ApplyEffect | video_generator.py:186-282 | the effect loop computes `EffectClip` for the named effect |
| VideoEffects.KenBurnsPanBounds | video_generator.py:198-204 | scaled sides are at least the original; the pans stay within the overhang, y within half of it |
| VideoEffects.KenBurnsFrameIsSlice | video_generator.py:206-212 | the slice of the resized image has the input's size; on a 1920×1080 input it is the frame itself |
| VideoEffects.CropSizeBounds | video_generator.py:222 | the detail crop side lies between h//2 and h and shrinks as progress grows |
| VideoEffects.CentreWindowInside | video_generator.py:236-240 | the centre window is clamped inside the image and, when it fits, is a square of the crop size around the centre |
| VideoEffects.PanInside | video_generator.py:252-255 | when the image is wider than 1920, the pan window stays inside it |
| VideoEffects.EffectSucceeds | video_generator.py:186-282 | an image at least 1 wide and 2 high never fails in any effect |
| VideoEffects.ZoomTightens | video_generator.py:222 | the detail crop never grows along the segment |
| VideoGenerator.Shorten | video_generator.py:297 | `title[:50]`: a prefix of at most 50 characters, the whole title when short enough |
| VideoGenerator.TitleInsideBox | video_generator.py:284-304 | the title card has two lines, the title at most 50 characters, both 20 px in from the box and vertically inside it |
| VideoGenerator.AddCtaOverlay | video_generator.py:306-333 | the y_offset loop gives the four CTA lines at h//3 + 80 + 60k |
| VideoGenerator.CtaInsideBox | video_generator.py:312-331 | for frames at least 780 high, every CTA line lies inside the box, centred to within a pixel when it fits |
| VideoGenerator.IntroOverexposes | video_generator.py:124-125 | the fade as written equals the clamped fade up to frame 45 and exceeds 1 after it; frame 89 gets 89/45 |
| VideoGenerator.IntroFadeSchedule | video_generator.py:123-125 | the corrected fade starts at 0, stays within [0, 1], never decreases and is 1 from frame 45 |
| VideoGenerator.OutroFadeSchedule | video_generator.py:169-173 | the outro fade starts at 1, stays within [0, 1], never increases and is 0 from frame 60 |
| VideoGenerator.CreateIntro | video_generator.py:114-137 | 90 frames; frame i is the picture at weight i/45, unclamped as written, with the title card exactly when i > 45 (`IntroShot`) |
| VideoGenerator.IntroTitle | video_generator.py:128-133 | the title card is present exactly when i > 45, with the title (default "Artwork") cut to 50 characters |
| VideoGenerator.CreateOutro | video_generator.py:160-184 | 90 frames, frame i being `OutroShot`, each with the CTA |
| VideoGenerator.CreateMainSequence | video_generator.py:139-158 | the segment loop computes `MainSequence` |
| VideoGenerator.MainSequenceShape | video_generator.py:154-156 | the first n segments give fps times their seconds of video frames |
| VideoGenerator.MainTimeline | video_generator.py:142-152 | the segments last 24 s (720 frames); "zoom_detail_bottomright" is the static hold |
| VideoGenerator.MainSequenceSucceeds | video_generator.py:139-158 | an image at least 1 wide and 2 high never fails the main sequence |
| VideoGenerator.GenerateCinematicVideo | video_generator.py:74-98 | the letterboxed picture, then the intro as written, the main sequence and the outro, in order (`Cinematic`) |
| VideoGenerator.CinematicLength | video_generator.py:82-98 | a video has 900 = fps·duration frames, all 1920×1080; frames 0..89 have the written intro weight i/45, which exceeds 1 on frames 46..89; frames 810..899 have the outro fade |
| VideoGenerator.CinematicSucceeds | video_generator.py:74-98 | an image of non-extreme aspect ratio always gives a video |
| VideoGenerator.SelectMusicStyle | video_generator.py:401-412 | the style is one of the library's styles and never "dramatic" |
| VideoGenerator.MusicPriority | video_generator.py:403-412 | "death" or "banksy" in the artist gives modern; else "classical" gives classical; else "abstract" in the style gives ambient; else upbeat |
| VideoGenerator.MusicIgnoresCase | video_generator.py:403 | the artist is compared case-insensitively |
| VideoGenerator.FallbackVideoData | video_generator.py:435-452 | the id is "PENDING_" + sku (default "ART"), status pending, 30 fps, a known music style |
| VideoGenerator.FallbackIdsDistinct | video_generator.py:438 | two fallback ids agree exactly when the SKUs agree |
| Demo.SimulateKenBurnsFrame | demo.py:70-92 | the zoom and pans are echoed; the crop area is exactly the frame size |
| Demo.ClampedOffsetRange | demo.py:80-85 | the clamped offset lies in [0, room], is 0 when there is no room and the unclamped pan offset otherwise |
| Demo.CropWindowBounds | demo.py:70-92 | the crop starts at or after 0 and ends inside the zoomed image exactly when the frame fits; otherwise it starts at 0 |
| Demo.PanMovesWindow | demo.py:80-84 | a larger pan never moves the window left |
| Demo.VisualizeTimeline | demo.py:99-122 | slots start at 0, are contiguous, last their durations, and the total is the summed durations |
| Demo.TimelineTotal | demo.py:99-122 | the timeline lasts 45 seconds |
| Demo.FramesAtFps | demo.py:129-152 | every prefix of the frame table has 30 times the frames of the timeline's seconds |
| Demo.FrameTableMatchesTimeline | demo.py:129-152 | the table has 1350 = 30·45 frames, segment by segment 30 times the timeline |
| Demo.SimulateFrameGeneration | demo.py:141-164 | each segment reports the crop windows of its start and end zoom and pan on the full artwork |
| Demo.FrameTableCropsOverhang | demo.py:159-164 | at every zoom up to 1.8 the reported crop starts at 0 and runs past the zoomed 800-wide artwork |
| Demo.ThumbSize | demo.py:199-200 | a thumbnail fits 380×195, never grows, and is unchanged when it already fits |
| Demo.CreateStoryboard | demo.py:191-207 | cell i is `CellAt(i, …)` for every frame |
| Demo.StoryFramesFill | demo.py:172-189 | eight frames on a 1600×550 board |
| Demo.CellInsideBoard | demo.py:191-202 | cell i is at column i%4 and row i//4, inside the board, with its thumbnail inside the cell |
| Demo.CellsDisjoint | demo.py:191-199 | two different cells never overlap |
| Batch.Order | batch_video_generator.py:33-34 | the processed SKU names, one per step in order |
| Batch.BatchGenerateVideos | batch_video_generator.py:17-86 | SKUs go in sorted order, once each; each outcome is `Classify`; the counters count the outcomes and sum to the number of folders |
| Batch.ProcessSku | batch_video_generator.py:37-72 | one loop body decides `Classify` |
| Batch.CountsPartition | batch_video_generator.py:29-86 | every step lands on exactly one counter |
| Batch.CountZero | batch_video_generator.py:29-86 | a counter is 0 exactly when no step lands on it |
| Batch.ExitStatus | batch_video_generator.py:91 | the exit code is 0 or 1 |
| Batch.ExitStatusZero | batch_video_generator.py:86-91 | the exit code is 0 exactly when no folder's SKU fails |
| Batch.ExistingIsSkipped | batch_video_generator.py:40-44 | an existing video is skipped whatever generating or uploading would do |
| Batch.UploadDoesNotDecide | batch_video_generator.py:61-72 | after a saved video, only an upload that raises makes the SKU fail; a missing file id still counts as success |
| Batch.NoCropsFails | batch_video_generator.py:49-54 | a new SKU with no folder or no usable crop fails |

## Left out

- Pixel arithmetic is not modelled:
  - `cv2.addWeighted` blends and `cv2.putText`/`draw.text` drawing are layout records (text, anchor, box, alpha) rather than pixels.
  - `cv2.resize` is a nearest-neighbour stand-in with OpenCV's size and error behaviour, not its interpolation.
- Text widths from `cv2.getTextSize` are parameters, because the font metrics are not part of this model.
- Names.Lower: only the ASCII capitals A–Z are folded. Python's `str.lower` also folds non-ASCII capitals, for example KELVIN SIGN to "k", and can lengthen a string (U+0130). So non-ASCII file and artist names may be filtered differently by `ProductVideo.Kept` and may choose a different music style.
- Exact reals replace Python floats: `int(w * scale)` is exact truncation, so a float rounding that lands one below an integer is not reproduced.
- Randomness is a parameter: the Ken Burns direction draw and the quote draw are given by the caller or the `World` record.
- VideoEffects.EffectFrame: the rotation effect takes its rotated pictures from the `rotated` parameter. `cv2.getRotationMatrix2D`/`warpAffine` and the `15·sin(πp)` angle are not modelled; only the resize to 1920×1080 is.
- VideoEffects.CropSizeBounds: states `h // 2 <= crop_size <= h`, which is weaker than a strict `h / 2 < crop_size`. That is because `int()` can land exactly on `h // 2` (h = 3 near progress 1 gives 1).
- Demo.ThumbSize: PIL's `thumbnail` rounds the scaled side, and the model truncates it; the bounds and the "unchanged when it fits" rule hold either way.
- File I/O is given as parameters:
  - directory listing, `glob`, `cv2.imread` (the `World.read` map) and `Path.exists` (the `Env.present` and `Env.saved` functions);
  - the temporary file, `convert_to_h264`/ffmpeg, `unlink` and `mkdir`.
- `seconds_per_crop` (create_product_videos.py:294) is only printed, so it is not modelled.
- The Google Drive upload (`upload_to_drive`, `get_drive_service`) is the `Env.upload` outcome; authentication and the API are not part of this model.
- `create_video_from_artwork`, `create_thumbnail`, `create_from_url`, `add_audio_track`, `get_music_info` and `generate_artwork_video` are not part of this model. They are datetime ids, base64/URL download and file writes around the modelled core; the metadata dictionary returned by `generate_cinematic_video` is likewise left out.
- `get_applied_effects` is the constant `VideoGenerator.AppliedEffects`, with no contract.
- Demo drawing is not modelled:
  - `print_header`, every `print` and its formatting;
  - the PIL drawing in `create_sample_artwork` (only the crop sizes are kept);
  - `save_outputs` and `main`.
- Batch console output is not modelled: the progress lines, `video_size` and the traceback.
- Exceptions raised inside `create_product_video` are the error branch of its `Result`.
- `generate_demo_gif.py`, `marketing_demo.py`, `showcase.py` and the tests are not part of this model.

## Findings

| source | as written | input that shows it | evidently intended | confidence | as-written member | corrected member |
|---|---|---|---|---|---|---|
| video_generator.py:124 | `alpha = i / (fps * 1.5)` is never clamped, so after frame 45 the intro blends the frame with weight above 1 and overexposes it | intro frame i = 89: alpha = 89/45 ≈ 1.98 | a 1.5-second fade that holds at alpha = 1 | high, not executed | VideoGenerator.IntroOverexposes | VideoGenerator.IntroFadeSchedule |

The video pipeline (`VideoGenerator.CreateIntro`, `Cinematic`, `CinematicLength`) keeps the
weight as written. `VideoGenerator.IntroFade` is the intended fade, and
`VideoGenerator.IntroFadeSchedule` is proved about it.
