/** demo.py: the arithmetic behind the Ken Burns demonstration, that is the crop window a
    zoom and pan select, the 45-second timeline, the per-segment frame table and the 4 x 2
    storyboard grid. */
module Demo {
  import opened Raster
  import Letterbox

  /** A width and a height in pixels. */
  datatype Size = Size(w: nat, h: nat)

  /** A rectangle by its corners (left, upper, right, lower), as PIL writes boxes. */
  datatype Box = Box(left: int, upper: int, right: int, lower: int)

  /** The frame the demo renders to. */
  const Video := Size(1920, 1080)

  // ---------------------------------------------------------------------------------
  // simulate_ken_burns_frame

  /** What simulate_ken_burns_frame reports: the zoom and pans it was given and the crop. */
  datatype FrameParams = FrameParams(zoom: real, panX: real, panY: real, cropArea: Box)

  /** The zoomed side int(side * zoom). */
  function ZoomedSide(side: nat, zoom: real): int {
    Stretch(side, zoom)
  }

  /** int(room * pan) clamped to [0, room]: max(0, min(offset, room)). */
  function ClampedOffset(room: int, pan: real): int {
    var offset := Stretch(room, pan);
    if offset < room then (if offset < 0 then 0 else offset)
    else (if room < 0 then 0 else room)
  }

  /** simulate_ken_burns_frame: the target-sized crop of the zoomed image that the pans
      select. */
  function SimulateKenBurnsFrame(image: Size, zoom: real, panX: real, panY: real, frame: Size): (r: FrameParams)
    ensures r.zoom == zoom && r.panX == panX && r.panY == panY
    ensures r.cropArea.right - r.cropArea.left == frame.w
    ensures r.cropArea.lower - r.cropArea.upper == frame.h
  {
    var zoomW := ZoomedSide(image.w, zoom);
    var zoomH := ZoomedSide(image.h, zoom);
    var cropX := ClampedOffset(zoomW - frame.w, panX);
    var cropY := ClampedOffset(zoomH - frame.h, panY);
    FrameParams(zoom, panX, panY, Box(cropX, cropY, cropX + frame.w, cropY + frame.h))
  }

  /** The clamp keeps an offset within [0, room] when there is room, and pins it to 0 when
      there is none; with a pan in [0, 1] the clamp leaves int(room * pan) as it is. */
  lemma ClampedOffsetRange(room: int, pan: real)
    ensures 0 <= ClampedOffset(room, pan)
    ensures 0 <= room ==> ClampedOffset(room, pan) <= room
    ensures room < 0 ==> ClampedOffset(room, pan) == 0
    ensures 0 <= room && 0.0 <= pan <= 1.0 ==> ClampedOffset(room, pan) == Stretch(room, pan)
  {
    if 0 <= room && 0.0 <= pan <= 1.0 {
      StretchWithin(room, pan);
    }
  }

  /** The crop window never starts left of or above the zoomed image, for any zoom and
      pan; it ends inside the zoomed image exactly when the zoomed side is at least the
      target side, and otherwise it starts at 0 and overhangs it. */
  lemma CropWindowBounds(image: Size, zoom: real, panX: real, panY: real, frame: Size)
    ensures var c := SimulateKenBurnsFrame(image, zoom, panX, panY, frame).cropArea;
      var zoomW, zoomH := ZoomedSide(image.w, zoom), ZoomedSide(image.h, zoom);
      && 0 <= c.left && 0 <= c.upper
      && (c.right <= zoomW <==> frame.w <= zoomW)
      && (c.lower <= zoomH <==> frame.h <= zoomH)
      && (zoomW < frame.w ==> c.left == 0)
      && (zoomH < frame.h ==> c.upper == 0)
  {
    ClampedOffsetRange(ZoomedSide(image.w, zoom) - frame.w, panX);
    ClampedOffsetRange(ZoomedSide(image.h, zoom) - frame.h, panY);
  }

  /** A larger pan moves the window no further left or up when the image covers the
      frame. */
  lemma PanMovesWindow(image: Size, zoom: real, pan: real, pan': real, panY: real, frame: Size)
    requires 0.0 <= pan <= pan' <= 1.0
    requires frame.w <= ZoomedSide(image.w, zoom)
    ensures SimulateKenBurnsFrame(image, zoom, pan, panY, frame).cropArea.left
         <= SimulateKenBurnsFrame(image, zoom, pan', panY, frame).cropArea.left
  {
    var room := ZoomedSide(image.w, zoom) - frame.w;
    ClampedOffsetRange(room, pan);
    ClampedOffsetRange(room, pan');
    StretchMono(room, pan, pan');
  }

  // ---------------------------------------------------------------------------------
  // visualize_video_timeline

  /** The timeline's segments and their lengths in seconds. */
  const Timeline: seq<(string, nat)> := [
    ("Opening", 5), ("Detail 1", 4), ("Detail 2", 4), ("Detail 3", 4), ("Quote", 3),
    ("Detail 4", 4), ("Full Art", 5), ("Auth Badge", 4), ("Detail 5", 4), ("Closing", 8)]

  /** The seconds of the first n segments. */
  function Elapsed(segments: seq<(string, nat)>, n: nat): nat
    requires n <= |segments|
  {
    if n == 0 then 0 else Elapsed(segments, n - 1) + segments[n - 1].1
  }

  /** A printed row of the timeline: the segment and its time range. */
  datatype Slot = Slot(name: string, start: nat, end: nat)

  /** The accumulation loop of visualize_video_timeline: each row runs from the running
      total to the running total plus the segment's length. */
  method VisualizeTimeline(segments: seq<(string, nat)>) returns (slots: seq<Slot>, total: nat)
    ensures |slots| == |segments| && total == Elapsed(segments, |segments|)
    ensures |slots| > 0 ==> slots[0].start == 0 && slots[|slots| - 1].end == total
    ensures forall k :: 0 <= k < |slots| ==>
      slots[k].name == segments[k].0 && slots[k].end - slots[k].start == segments[k].1
    ensures forall k :: 0 < k < |slots| ==> slots[k].start == slots[k - 1].end
  {
    slots := [];
    total := 0;
    for n := 0 to |segments|
      invariant |slots| == n && total == Elapsed(segments, n)
      invariant forall k :: 0 <= k < n ==>
        slots[k] == Slot(segments[k].0, Elapsed(segments, k), Elapsed(segments, k + 1))
    {
      var duration := segments[n].1;
      slots := slots + [Slot(segments[n].0, total, total + duration)];
      total := total + duration;
    }
    forall k | 0 <= k < |slots|
      ensures slots[k].name == segments[k].0 && slots[k].end - slots[k].start == segments[k].1
      ensures 0 < k ==> slots[k].start == slots[k - 1].end
    {
      assert slots[k] == Slot(segments[k].0, Elapsed(segments, k), Elapsed(segments, k + 1));
      assert Elapsed(segments, k + 1) == Elapsed(segments, k) + segments[k].1;
    }
    if |slots| > 0 {
      assert slots[0] == Slot(segments[0].0, Elapsed(segments, 0), Elapsed(segments, 1));
      assert Elapsed(segments, 0) == 0;
    }
  }

  /** The demo's timeline fills the announced 45 seconds. */
  lemma TimelineTotal()
    ensures Elapsed(Timeline, |Timeline|) == 45
  {
    FramesAtFps(|Timeline|);
    FrameTableTotal();
  }

  /** The table's frames, segment by segment, are the timeline's seconds at 30 fps. */
  lemma {:induction false} FramesAtFps(n: nat)
    requires n <= |Timeline|
    ensures |FrameTable| == |Timeline|
    ensures FrameCount(FrameTable, n) == Fps * Elapsed(Timeline, n)
  {
    if n > 0 {
      FramesAtFps(n - 1);
      SegmentAtFps(n - 1);
    }
  }

  lemma SegmentAtFps(k: nat)
    requires k < |Timeline|
    ensures FrameTable[k].name == Timeline[k].0 && FrameTable[k].frames == Fps * Timeline[k].1
  {
    if k < 5 {
      assert k == 0 || k == 1 || k == 2 || k == 3 || k == 4;
    } else {
      assert k == 5 || k == 6 || k == 7 || k == 8 || k == 9;
    }
  }

  /** The frame counts add up to 1350. */
  lemma FrameTableTotal()
    ensures FrameCount(FrameTable, |FrameTable|) == 1350
  {
    var t := FrameTable;
    assert FrameCount(t, 2) == 270;
    assert FrameCount(t, 4) == 510;
    assert FrameCount(t, 6) == 720;
    assert FrameCount(t, 8) == 990;
  }

  // ---------------------------------------------------------------------------------
  // simulate_frame_generation

  const Fps := 30
  const Duration := 45

  /** A row of the generation table: its frames, zoom range and pan range. */
  datatype Segment = Segment(name: string, frames: nat, startZoom: real, endZoom: real,
                             startPan: real, endPan: real)

  const FrameTable: seq<Segment> := [
    Segment("Opening", 150, 1.0, 1.3, 0.5, 0.3),
    Segment("Detail 1", 120, 1.2, 1.4, 0.0, 0.5),
    Segment("Detail 2", 120, 1.3, 1.5, 1.0, 0.5),
    Segment("Detail 3", 120, 1.1, 1.4, 0.5, 0.5),
    Segment("Quote", 90, 1.2, 1.2, 0.5, 0.5),
    Segment("Detail 4", 120, 1.5, 1.8, 0.5, 0.5),
    Segment("Full Art", 150, 1.3, 1.0, 0.5, 0.5),
    Segment("Auth Badge", 120, 1.0, 1.0, 0.5, 0.5),
    Segment("Detail 5", 120, 1.2, 1.3, 0.5, 0.8),
    Segment("Closing", 240, 1.0, 1.0, 0.5, 0.5)]

  function FrameCount(table: seq<Segment>, n: nat): nat
    requires n <= |table|
  {
    if n == 0 then 0 else FrameCount(table, n - 1) + table[n - 1].frames
  }

  /** The table's frame counts add up to the printed total, fps * duration = 1350, and
      each segment lasts as many frames as the timeline gives it seconds at 30 fps. */
  lemma FrameTableMatchesTimeline()
    ensures FrameCount(FrameTable, |FrameTable|) == Fps * Duration == 1350
    ensures |FrameTable| == |Timeline|
    ensures forall k :: 0 <= k < |FrameTable| ==>
      FrameTable[k].name == Timeline[k].0 && FrameTable[k].frames == Fps * Timeline[k].1
  {
    FrameTableTotal();
    forall k | 0 <= k < |FrameTable|
      ensures FrameTable[k].name == Timeline[k].0 && FrameTable[k].frames == Fps * Timeline[k].1
    {
      SegmentAtFps(k);
    }
  }

  /** The full sample artwork, 800 x 1000. */
  const FullArt := Size(800, 1000)

  /** The crops of the first and the last frame of every segment. The demo always measures
      the full artwork, with the segment's start or end pan across and 0.5 down. */
  method SimulateFrameGeneration() returns (crops: seq<(Box, Box)>)
    ensures |crops| == |FrameTable|
    ensures forall k :: 0 <= k < |crops| ==>
      var s := FrameTable[k];
      crops[k] == (SimulateKenBurnsFrame(FullArt, s.startZoom, s.startPan, 0.5, Video).cropArea,
                   SimulateKenBurnsFrame(FullArt, s.endZoom, s.endPan, 0.5, Video).cropArea)
  {
    crops := [];
    for k := 0 to |FrameTable|
      invariant |crops| == k
      invariant forall j :: 0 <= j < k ==>
        var s := FrameTable[j];
        crops[j] == (SimulateKenBurnsFrame(FullArt, s.startZoom, s.startPan, 0.5, Video).cropArea,
                     SimulateKenBurnsFrame(FullArt, s.endZoom, s.endPan, 0.5, Video).cropArea)
    {
      var s := FrameTable[k];
      var first := SimulateKenBurnsFrame(FullArt, s.startZoom, s.startPan, 0.5, Video);
      var last := SimulateKenBurnsFrame(FullArt, s.endZoom, s.endPan, 0.5, Video);
      crops := crops + [(first.cropArea, last.cropArea)];
    }
  }

  /** At the table's zooms (at most 1.8) the 800-pixel-wide artwork stays narrower than
      the 1920-pixel frame, so every printed crop starts at the left edge and overhangs the
      zoomed image. */
  lemma FrameTableCropsOverhang(zoom: real, pan: real)
    requires 0.0 <= zoom <= 1.8
    ensures var c := SimulateKenBurnsFrame(FullArt, zoom, pan, 0.5, Video).cropArea;
      c.left == 0 && ZoomedSide(FullArt.w, zoom) < c.right
  {
    StretchMono(800, zoom, 1.8);
    CropWindowBounds(FullArt, zoom, pan, 0.5, Video);
  }

  // ---------------------------------------------------------------------------------
  // create_storyboard

  const CellW := 400
  const CellH := 225

  /** The storyboard canvas: four cells across, two down, and a 100-pixel title band. */
  const Board := Size(CellW * 4, CellH * 2 + 100)

  /** The sample crops of create_sample_artwork, by the sizes of their crop boxes:
      (0, 0, 400, 500), (400, 0, 800, 500), (500, 850, 800, 1000) and (200, 300, 600, 700). */
  const TopLeft := Size(400, 500)
  const TopRight := Size(400, 500)
  const Signature := Size(300, 150)
  const Centre := Size(400, 400)

  /** The storyboard's frames: a label and the size of the image shown. */
  const StoryFrames: seq<(string, Size)> := [
    ("1. Opening", FullArt), ("2. Detail", TopLeft), ("3. Detail", TopRight),
    ("4. Center", Centre), ("5. Quote", FullArt), ("6. Signature", Signature),
    ("7. Full Art", FullArt), ("8. Closing", FullArt)]

  /** Image.thumbnail((cell_w - 20, cell_h - 30)): an image that fits is kept as it is;
      otherwise it shrinks, keeping its aspect ratio, until it fits. */
  function ThumbSize(s: Size): (t: Size)
    requires 0 < s.w && 0 < s.h
    ensures t.w <= CellW - 20 && t.h <= CellH - 30
    ensures t.w <= s.w && t.h <= s.h
    ensures s.w <= CellW - 20 && s.h <= CellH - 30 ==> t == s
  {
    if s.w <= CellW - 20 && s.h <= CellH - 30 then s
    else
      var f := Letterbox.Place(s.w, s.h, CellW - 20, CellH - 30);
      Letterbox.PlaceInside(s.w, s.h, CellW - 20, CellH - 30);
      ThumbShrinks(s);
      Size(f.newW, f.newH)
  }

  /** The thumbnail's scale is below one when the image does not fit already. */
  lemma ThumbShrinks(s: Size)
    requires 0 < s.w && 0 < s.h && !(s.w <= CellW - 20 && s.h <= CellH - 30)
    ensures Letterbox.Place(s.w, s.h, CellW - 20, CellH - 30).newW <= s.w
    ensures Letterbox.Place(s.w, s.h, CellW - 20, CellH - 30).newH <= s.h
  {
    var a, b := 380.0 / s.w as real, 195.0 / s.h as real;
    var scale := Letterbox.Min(a, b);
    if s.w > 380 {
      assert a < 1.0;
    } else {
      assert b < 1.0;
    }
    StretchWithin(s.w, scale);
    StretchWithin(s.h, scale);
  }

  /** A pasted storyboard cell: its label, the cell's corner, the thumbnail's size and the
      corner it is pasted at. */
  datatype Cell = Cell(title: string, x: int, y: int, thumb: Size, pasteX: int, pasteY: int)

  /** Frame i goes to column i % 4 and row i // 4; its thumbnail is centred across the
      cell and 20 pixels below its top. */
  function CellAt(i: nat, title: string, image: Size): Cell
    requires 0 < image.w && 0 < image.h
  {
    var x := (i % 4) * CellW;
    var y := 100 + (i / 4) * CellH;
    var thumb := ThumbSize(image);
    Cell(title, x, y, thumb, x + (CellW - thumb.w) / 2, y + 20)
  }

  /** The paste loop of create_storyboard, recording each paste onto the canvas. */
  method CreateStoryboard(frames: seq<(string, Size)>) returns (cells: seq<Cell>)
    requires forall k :: 0 <= k < |frames| ==> 0 < frames[k].1.w && 0 < frames[k].1.h
    ensures |cells| == |frames|
    ensures forall i :: 0 <= i < |cells| ==> cells[i] == CellAt(i, frames[i].0, frames[i].1)
  {
    cells := [];
    for i := 0 to |frames|
      invariant |cells| == i
      invariant forall k :: 0 <= k < i ==> cells[k] == CellAt(k, frames[k].0, frames[k].1)
    {
      var (title, img) := frames[i];
      var row := i / 4;
      var col := i % 4;
      var x := col * CellW;
      var y := 100 + row * CellH;
      var thumb := ThumbSize(img);
      var pasteX := x + (CellW - thumb.w) / 2;
      var pasteY := y + 20;
      cells := cells + [Cell(title, x, y, thumb, pasteX, pasteY)];
    }
  }

  /** The demo shows eight frames, so they fill the 4 x 2 grid of the 1600 x 550 board. */
  lemma StoryFramesFill()
    ensures |StoryFrames| == 8 && Board == Size(1600, 550)
    ensures forall k :: 0 <= k < |StoryFrames| ==> 0 < StoryFrames[k].1.w && 0 < StoryFrames[k].1.h
  {
  }

  /** Each of the first eight cells lies below the title band and inside the board, and
      its thumbnail lies inside the cell, clear of the title row. */
  lemma CellInsideBoard(i: nat, title: string, image: Size)
    requires i < 8 && 0 < image.w && 0 < image.h
    ensures var c := CellAt(i, title, image);
      && c.x == (i % 4) * 400 && c.y == 100 + (i / 4) * 225
      && 0 <= c.x && c.x + CellW <= Board.w && 100 <= c.y && c.y + CellH <= Board.h
      && c.x <= c.pasteX && c.pasteX + c.thumb.w <= c.x + CellW
      && c.y < c.pasteY && c.pasteY + c.thumb.h <= c.y + CellH
  {
  }

  /** Different frames among the first eight get cells that do not overlap. */
  lemma CellsDisjoint(i: nat, j: nat, a: Size, b: Size)
    requires i < 8 && j < 8 && i != j && 0 < a.w && 0 < a.h && 0 < b.w && 0 < b.h
    ensures var ci, cj := CellAt(i, "", a), CellAt(j, "", b);
      ci.x + CellW <= cj.x || cj.x + CellW <= ci.x || ci.y + CellH <= cj.y || cj.y + CellH <= ci.y
  {
  }
}
