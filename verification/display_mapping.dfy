/**
 Mapping of decoder points from raw frame pixels to display pixels under a
 "cover" fit: the frame is scaled uniformly until it covers the whole display
 and is centred, so the overflowing part is cropped (negative offsets).
 */
module DisplayMapping {
  import opened Geometry

  /**
   The uniform scale factor of the cover fit: one of the two axis ratios, and
   for a positive frame large enough that the scaled frame covers the display
   on both axes (positive when the display is).
   */
  function CoverScale(sourceW: real, sourceH: real, displayW: real, displayH: real): (scale: real)
    requires sourceW != 0.0 && sourceH != 0.0
    ensures scale == displayW / sourceW || scale == displayH / sourceH
    ensures sourceW > 0.0 && sourceH > 0.0 ==> sourceW * scale >= displayW && sourceH * scale >= displayH
    ensures sourceW > 0.0 && sourceH > 0.0 && displayW > 0.0 ==> scale > 0.0
  {
    Max2(displayW / sourceW, displayH / sourceH)
  }

  /**
   Horizontal offset that centres the scaled frame on the display: the scaled
   frame's middle is the display's middle, and for a positive frame the offset
   is never positive (the overflow is cropped evenly on both sides).
   */
  function OffsetX(sourceW: real, sourceH: real, displayW: real, displayH: real): (off: real)
    requires sourceW != 0.0 && sourceH != 0.0
    ensures off + sourceW * CoverScale(sourceW, sourceH, displayW, displayH) / 2.0 == displayW / 2.0
    ensures sourceW > 0.0 && sourceH > 0.0 ==> off <= 0.0
  {
    (displayW - sourceW * CoverScale(sourceW, sourceH, displayW, displayH)) / 2.0
  }

  /** Vertical offset that centres the scaled frame on the display; see OffsetX. */
  function OffsetY(sourceW: real, sourceH: real, displayW: real, displayH: real): (off: real)
    requires sourceW != 0.0 && sourceH != 0.0
    ensures off + sourceH * CoverScale(sourceW, sourceH, displayW, displayH) / 2.0 == displayH / 2.0
    ensures sourceW > 0.0 && sourceH > 0.0 ==> off <= 0.0
  {
    (displayH - sourceH * CoverScale(sourceW, sourceH, displayW, displayH)) / 2.0
  }

  /**
   One frame point in display pixels: its offset from the display's centre is
   its offset from the frame's centre, stretched by the cover scale.
   */
  function MapPoint(p: Point, sourceW: real, sourceH: real, displayW: real, displayH: real): (q: Point)
    requires sourceW != 0.0 && sourceH != 0.0
    ensures q.x - displayW / 2.0 == CoverScale(sourceW, sourceH, displayW, displayH) * (p.x - sourceW / 2.0)
    ensures q.y - displayH / 2.0 == CoverScale(sourceW, sourceH, displayW, displayH) * (p.y - sourceH / 2.0)
  {
    var scale := CoverScale(sourceW, sourceH, displayW, displayH);
    Point(p.x * scale + OffsetX(sourceW, sourceH, displayW, displayH),
          p.y * scale + OffsetY(sourceW, sourceH, displayW, displayH))
  }

  /**
   All decoder points in display pixels; nothing when there are no points or
   the frame size is unknown (zero).
   */
  function MapPointsToDisplay(points: seq<Point>, sourceW: real, sourceH: real, displayW: real, displayH: real)
    : (r: seq<Point>)
    ensures |points| == 0 || sourceW == 0.0 || sourceH == 0.0 ==> r == []
    ensures |points| > 0 && sourceW != 0.0 && sourceH != 0.0 ==>
              |r| == |points| &&
              forall i :: 0 <= i < |r| ==> r[i] == MapPoint(points[i], sourceW, sourceH, displayW, displayH)
  {
    if |points| == 0 || sourceW == 0.0 || sourceH == 0.0 then []
    else seq(|points|, i requires 0 <= i < |points| => MapPoint(points[i], sourceW, sourceH, displayW, displayH))
  }

  /**
   The cover-fit scale is the least factor at which the scaled frame covers the
   display on both axes: it covers on both axes, meets the display exactly on
   at least one, and any smaller factor leaves one axis uncovered.
   */
  lemma CoverScaleIsLeastCovering(sourceW: real, sourceH: real, displayW: real, displayH: real, k: real)
    requires sourceW > 0.0 && sourceH > 0.0
    ensures var scale := CoverScale(sourceW, sourceH, displayW, displayH);
            sourceW * scale >= displayW && sourceH * scale >= displayH &&
            (sourceW * scale == displayW || sourceH * scale == displayH) &&
            (k < scale ==> sourceW * k < displayW || sourceH * k < displayH)
  {
  }

  /** The centre of the frame lands on the centre of the display. */
  lemma CentreMapsToCentre(sourceW: real, sourceH: real, displayW: real, displayH: real)
    requires sourceW != 0.0 && sourceH != 0.0
    ensures MapPoint(Point(sourceW / 2.0, sourceH / 2.0), sourceW, sourceH, displayW, displayH)
            == Point(displayW / 2.0, displayH / 2.0)
  {
  }

  /**
   The fit is uniform: the same factor stretches horizontal and vertical
   distances, so the frame's aspect ratio is kept.
   */
  lemma MapPointIsUniform(p: Point, q: Point, sourceW: real, sourceH: real, displayW: real, displayH: real)
    requires sourceW != 0.0 && sourceH != 0.0
    ensures var scale := CoverScale(sourceW, sourceH, displayW, displayH);
            var mp, mq := MapPoint(p, sourceW, sourceH, displayW, displayH), MapPoint(q, sourceW, sourceH, displayW, displayH);
            mq.x - mp.x == scale * (q.x - p.x) && mq.y - mp.y == scale * (q.y - p.y)
  {
  }

  /** With a positive frame and display, the order of points along each axis is kept. */
  lemma MapPointKeepsOrder(p: Point, q: Point, sourceW: real, sourceH: real, displayW: real, displayH: real)
    requires sourceW > 0.0 && sourceH > 0.0 && displayW > 0.0 && displayH > 0.0
    ensures var mp, mq := MapPoint(p, sourceW, sourceH, displayW, displayH), MapPoint(q, sourceW, sourceH, displayW, displayH);
            (p.x < q.x <==> mp.x < mq.x) && (p.y < q.y <==> mp.y < mq.y)
  {
  }

  /**
   With a positive frame and display, a point inside the frame lands inside the
   scaled, centred frame image, which spans the whole display and beyond.
   */
  lemma FramePointLandsInImage(p: Point, sourceW: real, sourceH: real, displayW: real, displayH: real)
    requires sourceW > 0.0 && sourceH > 0.0 && displayW > 0.0
    requires 0.0 <= p.x <= sourceW && 0.0 <= p.y <= sourceH
    ensures var q := MapPoint(p, sourceW, sourceH, displayW, displayH);
            var scale := CoverScale(sourceW, sourceH, displayW, displayH);
            var offX, offY := OffsetX(sourceW, sourceH, displayW, displayH), OffsetY(sourceW, sourceH, displayW, displayH);
            offX <= q.x <= offX + sourceW * scale && offY <= q.y <= offY + sourceH * scale
  {
  }

  /** A frame the same size as the display maps every point to itself. */
  lemma SameSizeIsIdentity(points: seq<Point>, w: real, h: real)
    requires w != 0.0 && h != 0.0
    ensures MapPointsToDisplay(points, w, h, w, h) == points
  {
    assert CoverScale(w, h, w, h) == 1.0;
    var r := MapPointsToDisplay(points, w, h, w, h);
    assert forall i :: 0 <= i < |points| ==> r[i] == points[i];
  }

  /** A 50x50 frame on a 100x100 display doubles coordinates. */
  lemma ScaleTwoExample()
    ensures MapPointsToDisplay([Point(25.0, 25.0)], 50.0, 50.0, 100.0, 100.0) == [Point(50.0, 50.0)]
  {
    assert CoverScale(50.0, 50.0, 100.0, 100.0) == 2.0;
  }
}
