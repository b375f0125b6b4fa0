/** Painting detection boxes onto the luma plane of an NV12 frame, in place. */
module Overlay {
  import opened Bytes
  import opened Grid
  import opened Options

  const OUTLINE_LUMA: Byte := 24
  const BOX_LUMA: Byte := 235

  // ----- pictures

  /** What is painted at each pixel; None leaves it as it was. */
  type Paint = (int, int) -> Option<Byte>

  /** `now` is `before` with the paint applied to its luma plane and nothing else changed. */
  ghost predicate Shows(now: Chunk, before: Chunk, size: Size, paint: Paint) {
    && |now| == |before| && size.height * size.width <= |now|
    && (forall p :: size.height * size.width <= p < |now| ==> now[p] == before[p])
    && forall row, col :: Inside(size, row, col) ==>
         now[Cell(size, row, col)] == match paint(row, col) case Some(v) => v case None => before[Cell(size, row, col)]
  }

  function Over(top: Paint, bottom: Paint): Paint {
    (row, col) => if top(row, col).Some? then top(row, col) else bottom(row, col)
  }

  lemma ShowsOver(now: Chunk, mid: Chunk, before: Chunk, size: Size, top: Paint, bottom: Paint)
    requires Shows(mid, before, size, bottom) && Shows(now, mid, size, top)
    ensures Shows(now, before, size, Over(top, bottom))
  {
  }

  lemma ShowsSame(now: Chunk, before: Chunk, size: Size, paint: Paint, same: Paint)
    requires Shows(now, before, size, paint)
    requires forall row, col :: Inside(size, row, col) ==> paint(row, col) == same(row, col)
    ensures Shows(now, before, size, same)
  {
  }

  /** One value over a span of one row. */
  function Span(row: int, from: int, to: int, luma: Byte): Paint {
    (r, c) => if r == row && from <= c <= to then Some(luma) else None
  }

  lemma CellInSpan(size: Size, row: int, from: int, to: int, r: int, c: int)
    requires Inside(size, row, from) && Inside(size, row, to) && Inside(size, r, c)
    ensures Cell(size, row, from) <= Cell(size, r, c) <= Cell(size, row, to) <==> r == row && from <= c <= to
  {
    if r < row {
      RowsApart(r, row, size.width);
    } else if row < r {
      RowsApart(row, r, size.width);
    }
  }

  method FillSpan(plane: array<Byte>, size: Size, row: int, from: int, to: int, luma: Byte)
    requires size.height * size.width <= plane.Length
    requires Inside(size, row, from) && Inside(size, row, to) && from <= to + 1
    modifies plane
    ensures Shows(plane[..], old(plane[..]), size, Span(row, from, to, luma))
  {
    var start := row * size.width + from;
    var n := to - from + 1;
    CellInSpan(size, row, from, to, row, to);
    var i := 0;
    while i < n
      invariant 0 <= i <= n
      invariant forall p :: 0 <= p < plane.Length ==> plane[p] == if start <= p < start + i then luma else old(plane[p])
    {
      plane[start + i] := luma;
      i := i + 1;
    }
    forall r, c | Inside(size, r, c)
      ensures Cell(size, row, from) <= Cell(size, r, c) <= Cell(size, row, to) <==> r == row && from <= c <= to
    {
      CellInSpan(size, row, from, to, r, c);
    }
  }

  // ----- one rectangle

  /** A rectangle of pixels, bounds included. */
  datatype Rect = Rect(left: int, top: int, right: int, bottom: int) {
    predicate Covers(row: int, col: int) {
      top <= row <= bottom && left <= col <= right
    }

    /** How far a pixel of the rectangle is from the nearest side. */
    function Depth(row: int, col: int): int {
      Min(Min(row - top, bottom - row), Min(col - left, right - col))
    }

    predicate Proper() {
      left < right && top < bottom
    }
  }

  /** The pixels of a rectangle less than `thickness` away from one of its sides. */
  predicate InRing(rect: Rect, thickness: int, row: int, col: int) {
    rect.Covers(row, col) && rect.Depth(row, col) < thickness
  }

  function Ring(rect: Rect, thickness: int, luma: Byte): Paint {
    (row, col) => if InRing(rect, thickness, row, col) then Some(luma) else None
  }

  function Nothing(): Paint {
    (row, col) => None
  }

  function ClampCoordinate(value: int, lower: int, upper: int): (r: int)
    ensures lower <= upper ==> lower <= r <= upper
    ensures lower <= value <= upper ==> r == value
  {
    if upper < lower then lower else Max(lower, Min(value, upper))
  }

  /** The rectangle between two corners, cut to the picture. */
  function Clamped(size: Size, x1: int, y1: int, x2: int, y2: int): Rect {
    Rect(ClampCoordinate(Min(x1, x2), 0, size.width - 1), ClampCoordinate(Min(y1, y2), 0, size.height - 1),
         ClampCoordinate(Max(x1, x2), 0, size.width - 1), ClampCoordinate(Max(y1, y2), 0, size.height - 1))
  }

  /** The left and right sides of a rectangle, between two rows. */
  function Sides(rect: Rect, from: int, to: int, luma: Byte): Paint {
    (row, col) => if from <= row < to && (col == rect.left || col == rect.right) then Some(luma) else None
  }

  method FillSides(plane: array<Byte>, size: Size, rect: Rect, luma: Byte)
    requires size.height * size.width <= plane.Length
    requires Inside(size, rect.top, rect.left) && Inside(size, rect.bottom, rect.right)
    requires rect.left <= rect.right && rect.top <= rect.bottom
    modifies plane
    ensures Shows(plane[..], old(plane[..]), size, Sides(rect, rect.top, rect.bottom + 1, luma))
  {
    ghost var before := plane[..];
    var row := rect.top;
    while row <= rect.bottom
      invariant rect.top <= row <= rect.bottom + 1
      invariant Shows(plane[..], before, size, Sides(rect, rect.top, row, luma))
    {
      ghost var mid := plane[..];
      FillSpan(plane, size, row, rect.left, rect.left, luma);
      ghost var next := plane[..];
      FillSpan(plane, size, row, rect.right, rect.right, luma);
      ShowsOver(next, mid, before, size, Span(row, rect.left, rect.left, luma), Sides(rect, rect.top, row, luma));
      ghost var paint := Over(Span(row, rect.left, rect.left, luma), Sides(rect, rect.top, row, luma));
      ShowsOver(plane[..], next, before, size, Span(row, rect.right, rect.right, luma), paint);
      ShowsSame(plane[..], before, size, Over(Span(row, rect.right, rect.right, luma), paint),
                Sides(rect, rect.top, row + 1, luma));
      row := row + 1;
    }
  }

  /** The rectangle `offset` pixels further in. */
  function Inset(rect: Rect, offset: int): Rect {
    Rect(rect.left + offset, rect.top + offset, rect.right - offset, rect.bottom - offset)
  }

  /** One turn of the loop: the outermost pixels of a rectangle, all four sides. */
  method DrawBorder(plane: array<Byte>, size: Size, rect: Rect, luma: Byte)
    requires size.height * size.width <= plane.Length
    requires Inside(size, rect.top, rect.left) && Inside(size, rect.bottom, rect.right)
    requires rect.left <= rect.right && rect.top <= rect.bottom
    modifies plane
    ensures Shows(plane[..], old(plane[..]), size, Ring(rect, 1, luma))
  {
    ghost var before := plane[..];
    var top := Span(rect.top, rect.left, rect.right, luma);
    FillSpan(plane, size, rect.top, rect.left, rect.right, luma);
    ghost var paint := top;
    if rect.bottom != rect.top {
      ghost var mid := plane[..];
      FillSpan(plane, size, rect.bottom, rect.left, rect.right, luma);
      ShowsOver(plane[..], mid, before, size, Span(rect.bottom, rect.left, rect.right, luma), top);
      paint := Over(Span(rect.bottom, rect.left, rect.right, luma), top);
    }
    ghost var mid := plane[..];
    FillSides(plane, size, rect, luma);
    ghost var sides := Sides(rect, rect.top, rect.bottom + 1, luma);
    ShowsOver(plane[..], mid, before, size, sides, paint);
    ShowsSame(plane[..], before, size, Over(sides, paint), Ring(rect, 1, luma));
  }

  /** Rings grow by the border of the next inset, and not at all once that is empty. */
  lemma RingGrows(rect: Rect, offset: int, row: int, col: int, luma: Byte)
    requires 0 <= offset
    ensures Over(Ring(Inset(rect, offset), 1, luma), Ring(rect, offset, luma))(row, col)
         == Ring(rect, offset + 1, luma)(row, col)
  {
  }

  lemma RingFull(rect: Rect, offset: int, thickness: int, row: int, col: int, luma: Byte)
    requires 0 <= offset <= thickness
    requires var r := Inset(rect, offset); r.top > r.bottom || r.left > r.right
    ensures Ring(rect, offset, luma)(row, col) == Ring(rect, thickness, luma)(row, col)
  {
  }

  /** What drawing a rectangle paints: its ring, or nothing when it is flat or cut away. */
  function RectPaint(size: Size, rect: Rect, thickness: int, luma: Byte): Paint {
    if size.width > 0 && size.height > 0 && rect.Proper() then Ring(rect, thickness, luma) else Nothing()
  }

  /** Exactly the ring of the clamped rectangle changes; stopping once the inset rectangle
      is empty loses no pixel. */
  method DrawRectangleY(plane: array<Byte>, size: Size, x1: int, y1: int, x2: int, y2: int, thickness: int, luma: Byte)
    requires size.height * size.width <= plane.Length
    modifies plane
    ensures Shows(plane[..], old(plane[..]), size, RectPaint(size, Clamped(size, x1, y1, x2, y2), thickness, luma))
  {
    if size.width == 0 || size.height == 0 || thickness <= 0 {
      return;
    }
    var rect := Clamped(size, x1, y1, x2, y2);
    if !rect.Proper() {
      return;
    }
    ghost var before := plane[..];
    var offset := 0;
    while offset < thickness
      invariant 0 <= offset <= thickness
      invariant Shows(plane[..], before, size, Ring(rect, offset, luma))
    {
      var inset := Inset(rect, offset);
      if inset.top > inset.bottom || inset.left > inset.right {
        forall r, c ensures Ring(rect, offset, luma)(r, c) == Ring(rect, thickness, luma)(r, c) {
          RingFull(rect, offset, thickness, r, c, luma);
        }
        ShowsSame(plane[..], before, size, Ring(rect, offset, luma), Ring(rect, thickness, luma));
        return;
      }
      ghost var mid := plane[..];
      DrawBorder(plane, size, inset, luma);
      ShowsOver(plane[..], mid, before, size, Ring(inset, 1, luma), Ring(rect, offset, luma));
      ghost var grown := Over(Ring(inset, 1, luma), Ring(rect, offset, luma));
      forall r, c ensures grown(r, c) == Ring(rect, offset + 1, luma)(r, c) {
        RingGrows(rect, offset, r, c, luma);
      }
      ShowsSame(plane[..], before, size, grown, Ring(rect, offset + 1, luma));
      offset := offset + 1;
    }
  }

  // ----- a list of detections

  /** A detection's corners, rounded to whole pixels. */
  datatype Box = Box(x1: int, y1: int, x2: int, y2: int)

  function BoxRect(size: Size, box: Box): Rect {
    Rect(ClampCoordinate(box.x1, 0, size.width - 1), ClampCoordinate(box.y1, 0, size.height - 1),
         ClampCoordinate(box.x2, 0, size.width - 1), ClampCoordinate(box.y2, 0, size.height - 1))
  }

  /** The box grown by a pixel on each side, as far as the picture goes. */
  function OutlineRect(size: Size, box: Box): Rect {
    var r := BoxRect(size, box);
    Clamped(size, r.left - 1, r.top - 1, r.right + 1, r.bottom + 1)
  }

  function Thickness(size: Size, wanted: int): (t: int)
    ensures 1 <= t
  {
    Max(1, Min(wanted, Min(size.width, size.height)))
  }

  function OutlineThickness(size: Size, wanted: int): int {
    Min(Thickness(size, wanted) + 1, Min(size.width, size.height))
  }

  predicate BoxCovers(size: Size, wanted: int, box: Box, row: int, col: int) {
    BoxRect(size, box).Proper() && InRing(BoxRect(size, box), Thickness(size, wanted), row, col)
  }

  predicate OutlineCovers(size: Size, wanted: int, box: Box, row: int, col: int) {
    BoxRect(size, box).Proper() && InRing(OutlineRect(size, box), OutlineThickness(size, wanted), row, col)
  }

  /** The luma a pixel ends up with: that of the last detection with a ring on it, the box
      ring hiding the outline. */
  function Colour(size: Size, wanted: int, boxes: seq<Box>, row: int, col: int): Option<Byte> {
    if boxes == [] then None
    else
      var last := boxes[|boxes| - 1];
      if BoxCovers(size, wanted, last, row, col) then Some(BOX_LUMA)
      else if OutlineCovers(size, wanted, last, row, col) then Some(OUTLINE_LUMA)
      else Colour(size, wanted, boxes[..|boxes| - 1], row, col)
  }

  function Picture(size: Size, wanted: int, boxes: seq<Box>): Paint {
    (row, col) => Colour(size, wanted, boxes, row, col)
  }

  function BoxPaint(size: Size, wanted: int, box: Box): Paint {
    (row, col) => if BoxCovers(size, wanted, box, row, col) then Some(BOX_LUMA)
                  else if OutlineCovers(size, wanted, box, row, col) then Some(OUTLINE_LUMA) else None
  }

  lemma BoxGeometry(size: Size, box: Box)
    requires size.width > 0 && size.height > 0 && BoxRect(size, box).Proper()
    ensures var r := BoxRect(size, box);
            Clamped(size, r.left, r.top, r.right, r.bottom) == r && OutlineRect(size, box).Proper()
  {
  }

  /** The outline first, then the box. */
  lemma TwoRings(now: Chunk, mid: Chunk, before: Chunk, size: Size, wanted: int, box: Box)
    requires size.width > 0 && size.height > 0 && BoxRect(size, box).Proper()
    requires Shows(mid, before, size,
                   RectPaint(size, OutlineRect(size, box), OutlineThickness(size, wanted), OUTLINE_LUMA))
    requires Shows(now, mid, size, RectPaint(size, BoxRect(size, box), Thickness(size, wanted), BOX_LUMA))
    ensures Shows(now, before, size, BoxPaint(size, wanted, box))
  {
    BoxGeometry(size, box);
    var outline := Ring(OutlineRect(size, box), OutlineThickness(size, wanted), OUTLINE_LUMA);
    var ring := Ring(BoxRect(size, box), Thickness(size, wanted), BOX_LUMA);
    ShowsOver(now, mid, before, size, ring, outline);
    ShowsSame(now, before, size, Over(ring, outline), BoxPaint(size, wanted, box));
  }

  method DrawDetection(plane: array<Byte>, size: Size, wanted: int, box: Box)
    requires size.height * size.width <= plane.Length && size.width > 0 && size.height > 0
    modifies plane
    ensures Shows(plane[..], old(plane[..]), size, BoxPaint(size, wanted, box))
  {
    ghost var before := plane[..];
    var r := BoxRect(size, box);
    if r.right <= r.left || r.bottom <= r.top {
      ShowsSame(plane[..], before, size, Nothing(), BoxPaint(size, wanted, box));
      return;
    }
    DrawRectangleY(plane, size, r.left - 1, r.top - 1, r.right + 1, r.bottom + 1,
                   OutlineThickness(size, wanted), OUTLINE_LUMA);
    ghost var mid := plane[..];
    assert Shows(mid, before, size,
                 RectPaint(size, OutlineRect(size, box), OutlineThickness(size, wanted), OUTLINE_LUMA));
    DrawRectangleY(plane, size, r.left, r.top, r.right, r.bottom, Thickness(size, wanted), BOX_LUMA);
    BoxGeometry(size, box);
    TwoRings(plane[..], mid, before, size, wanted, box);
  }

  /** Painter's order: the last detection over a pixel decides it. */
  method DrawDetections(nv12: array<Byte>, size: Size, wanted: int, boxes: seq<Box>)
    requires size.width > 0 && size.height > 0
    modifies nv12
    ensures nv12.Length < size.height * size.width ==> nv12[..] == old(nv12[..])
    ensures nv12.Length >= size.height * size.width ==>
              Shows(nv12[..], old(nv12[..]), size, Picture(size, wanted, boxes))
  {
    if boxes == [] || nv12.Length < size.width * size.height {
      return;
    }
    ghost var before := nv12[..];
    var i := 0;
    while i < |boxes|
      invariant 0 <= i <= |boxes|
      invariant Shows(nv12[..], before, size, Picture(size, wanted, boxes[..i]))
    {
      ghost var mid := nv12[..];
      DrawDetection(nv12, size, wanted, boxes[i]);
      assert boxes[..i + 1][..i] == boxes[..i];
      ShowsOver(nv12[..], mid, before, size, BoxPaint(size, wanted, boxes[i]), Picture(size, wanted, boxes[..i]));
      ShowsSame(nv12[..], before, size, Over(BoxPaint(size, wanted, boxes[i]), Picture(size, wanted, boxes[..i])),
                Picture(size, wanted, boxes[..i + 1]));
      i := i + 1;
    }
    assert boxes[..i] == boxes;
  }

  // ----- what is seen

  /** Index k is the last detection with a ring on the pixel. */
  predicate LastOver(size: Size, wanted: int, boxes: seq<Box>, row: int, col: int, k: int) {
    && 0 <= k < |boxes|
    && (BoxCovers(size, wanted, boxes[k], row, col) || OutlineCovers(size, wanted, boxes[k], row, col))
    && forall i :: k < i < |boxes| ==>
         !BoxCovers(size, wanted, boxes[i], row, col) && !OutlineCovers(size, wanted, boxes[i], row, col)
  }

  /** A pixel's luma is decided by the last ring over it, with the box ring on top; a
      pixel under no ring keeps its own. */
  lemma {:induction false} LastDecides(size: Size, wanted: int, boxes: seq<Box>, row: int, col: int)
    ensures Colour(size, wanted, boxes, row, col) == None <==>
              forall i :: 0 <= i < |boxes| ==>
                !BoxCovers(size, wanted, boxes[i], row, col) && !OutlineCovers(size, wanted, boxes[i], row, col)
    ensures forall k :: LastOver(size, wanted, boxes, row, col, k) ==>
              Colour(size, wanted, boxes, row, col)
              == Some(if BoxCovers(size, wanted, boxes[k], row, col) then BOX_LUMA else OUTLINE_LUMA)
  {
    if boxes != [] {
      var init := boxes[..|boxes| - 1];
      LastDecides(size, wanted, init, row, col);
      assert boxes == init + [boxes[|boxes| - 1]];
      forall k | LastOver(size, wanted, boxes, row, col, k) && k < |init|
        ensures LastOver(size, wanted, init, row, col, k)
      {
        assert !BoxCovers(size, wanted, boxes[|init|], row, col);
      }
    }
  }

  /** Pixels outside every box grown by one pixel are never touched. */
  lemma {:induction false} OutsideUntouched(size: Size, wanted: int, boxes: seq<Box>, row: int, col: int)
    requires Inside(size, row, col)
    requires forall i :: 0 <= i < |boxes| ==> !OutlineRect(size, boxes[i]).Covers(row, col)
    ensures Colour(size, wanted, boxes, row, col) == None
  {
    if boxes != [] {
      var last := boxes[|boxes| - 1];
      assert !OutlineRect(size, last).Covers(row, col);
      OutsideUntouched(size, wanted, boxes[..|boxes| - 1], row, col);
    }
  }

  /** Around a box that does not touch the picture's edge, the dark outline shows as
      exactly the frame one pixel wide that surrounds the box. */
  lemma OutlineIsOnePixel(size: Size, wanted: int, box: Box, row: int, col: int)
    requires 1 <= box.x1 < box.x2 <= size.width - 2 && 1 <= box.y1 < box.y2 <= size.height - 2
    ensures BoxPaint(size, wanted, box)(row, col) == Some(OUTLINE_LUMA) <==>
              Rect(box.x1 - 1, box.y1 - 1, box.x2 + 1, box.y2 + 1).Covers(row, col)
              && !Rect(box.x1, box.y1, box.x2, box.y2).Covers(row, col)
  {
  }

  /** A box inside the picture is drawn, at the thickness asked for, in luma 235: exactly the
      pixels of the box less than that far from one of its sides. */
  lemma BoxIsAsThickAsAsked(size: Size, wanted: int, box: Box, row: int, col: int)
    requires 1 <= wanted <= size.width && wanted <= size.height
    requires 0 <= box.x1 < box.x2 < size.width && 0 <= box.y1 < box.y2 < size.height
    ensures BoxPaint(size, wanted, box)(row, col) == Some(235) <==>
              && box.y1 <= row <= box.y2 && box.x1 <= col <= box.x2
              && (row - box.y1 < wanted || box.y2 - row < wanted || col - box.x1 < wanted || box.x2 - col < wanted)
  {
  }

  /** Whether (row, col) lies between the corners, less than t from a side. */
  predicate NearSide(left: int, top: int, right: int, bottom: int, t: int, row: int, col: int) {
    && top <= row <= bottom && left <= col <= right
    && (row - top < t || bottom - row < t || col - left < t || right - col < t)
  }

  /** What one detection paints, wherever its corners are: they are moved to the nearest
      pixels of the picture; a box left with no width or height paints nothing; the
      others get the box at 235, at least one pixel and at most the picture's smaller side
      thick, over an outline at 24 that starts a pixel further out, where there is one,
      and is a pixel thicker. */
  lemma WhatOneBoxPaints(size: Size, wanted: int, box: Box, row: int, col: int)
    requires Inside(size, row, col)
    ensures var w, h := size.width, size.height;
            var l, r := Max(0, Min(box.x1, w - 1)), Max(0, Min(box.x2, w - 1));
            var t, b := Max(0, Min(box.y1, h - 1)), Max(0, Min(box.y2, h - 1));
            var thick := Max(1, Min(wanted, Min(w, h)));
            BoxPaint(size, wanted, box)(row, col)
            == if l >= r || t >= b then None
               else if NearSide(l, t, r, b, thick, row, col) then Some(235)
               else if NearSide(Max(0, l - 1), Max(0, t - 1), Min(w - 1, r + 1), Min(h - 1, b + 1),
                                Min(thick + 1, Min(w, h)), row, col) then Some(24)
               else None
  {
    BoxCorners(size, box);
    var r := BoxRect(size, box);
    if r.Proper() {
      OutlineCorners(size, box);
      RingIsNearSide(r, Thickness(size, wanted), row, col);
      RingIsNearSide(OutlineRect(size, box), OutlineThickness(size, wanted), row, col);
    }
  }

  lemma BoxCorners(size: Size, box: Box)
    requires size.width > 0 && size.height > 0
    ensures BoxRect(size, box)
         == Rect(Max(0, Min(box.x1, size.width - 1)), Max(0, Min(box.y1, size.height - 1)),
                 Max(0, Min(box.x2, size.width - 1)), Max(0, Min(box.y2, size.height - 1)))
  {
  }

  lemma OutlineCorners(size: Size, box: Box)
    requires size.width > 0 && size.height > 0 && BoxRect(size, box).Proper()
    ensures var r := BoxRect(size, box);
            OutlineRect(size, box)
            == Rect(Max(0, r.left - 1), Max(0, r.top - 1),
                    Min(size.width - 1, r.right + 1), Min(size.height - 1, r.bottom + 1))
  {
  }

  lemma RingIsNearSide(r: Rect, t: int, row: int, col: int)
    ensures InRing(r, t, row, col) <==> NearSide(r.left, r.top, r.right, r.bottom, t, row, col)
  {
  }

  /** Along a side of the picture that a box touches or crosses there is no room for the
      outline outside: it shows inside, as one more pixel behind the box's own side. */
  lemma OutlineInsideAtTheEdge(size: Size, wanted: int, box: Box, row: int, col: int)
    requires 1 <= wanted < size.width && wanted < size.height && Inside(size, row, col)
    requires box.x1 <= 0 && col + wanted < box.x2 < size.width - 1
    requires 0 < box.y1 && box.y1 + wanted <= row <= box.y2 - wanted && box.y2 < size.height - 1
    ensures BoxPaint(size, wanted, box)(row, col)
         == if col < wanted then Some(235) else if col == wanted then Some(24) else None
  {
  }

  // ----- the overlay object

  datatype Snapshot = Snapshot(valid: bool, frameSequence: nat, boxes: seq<Box>)

  /** A frame is painted with a snapshot neither from its future nor older than the window. */
  predicate Usable(enabled: bool, window: int, snapshot: Snapshot, sequence: nat) {
    enabled && snapshot.valid && snapshot.frameSequence <= sequence <= snapshot.frameSequence + window
  }

  /** With the overlay on, an answer is used from its own frame to the end of the window. */
  lemma UsedThroughTheWindow(window: int, found: nat, boxes: seq<Box>, age: int)
    requires 0 <= found + age
    ensures Usable(true, window, Snapshot(true, found, boxes), found + age) <==> 0 <= age <= window
  {
  }

  class DetectionOverlay {
    const enabled: bool
    const boxThickness: int
    const staleFrameWindow: int
    var snapshot: Snapshot

    constructor (enabled: bool, boxThickness: int, staleFrameWindow: int)
      ensures this.enabled == enabled && snapshot == Snapshot(false, 0, [])
      ensures this.boxThickness == Max(1, boxThickness) && this.staleFrameWindow == Max(1, staleFrameWindow)
    {
      this.enabled := enabled;
      this.boxThickness := Max(1, boxThickness);
      this.staleFrameWindow := Max(1, staleFrameWindow);
      snapshot := Snapshot(false, 0, []);
    }

    method Update(valid: bool, frameSequence: nat, boxes: seq<Box>)
      modifies `snapshot
      ensures snapshot == if enabled && valid then Snapshot(true, frameSequence, boxes) else old(snapshot)
    {
      if !enabled || !valid {
        return;
      }
      snapshot := Snapshot(true, frameSequence, boxes);
    }

    ghost predicate Current(sequence: nat)
      reads `snapshot
    {
      Usable(enabled, staleFrameWindow, snapshot, sequence)
    }

    method Apply(sequence: nat, nv12: array<Byte>, width: int, height: int)
      modifies nv12
      ensures !(Current(sequence) && width > 0 && height > 0 && nv12.Length >= height * width) ==>
                nv12[..] == old(nv12[..])
      ensures Current(sequence) && width > 0 && height > 0 && nv12.Length >= height * width ==>
                Shows(nv12[..], old(nv12[..]), Size(width, height),
                      Picture(Size(width, height), boxThickness, snapshot.boxes))
    {
      if !enabled || nv12.Length == 0 || width <= 0 || height <= 0 {
        return;
      }
      if !snapshot.valid || sequence < snapshot.frameSequence {
        return;
      }
      if sequence - snapshot.frameSequence > staleFrameWindow {
        return;
      }
      DrawDetections(nv12, Size(width, height), boxThickness, snapshot.boxes);
    }
  }
}
