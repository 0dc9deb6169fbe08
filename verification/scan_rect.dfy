/**
 The highlight rectangle around mapped decoder points: the bounding box of the
 points, each axis grown symmetrically to at least MinRect display pixels, then
 the origin clamped into the display.
 */
module ScanRect {
  import opened Wrappers
  import opened Geometry

  /** Smallest visible side of the highlight, in display pixels. */
  const MinRect: real := 20.0

  /** One axis of a box: its low end and its extent. */
  datatype Span = Span(lo: real, size: real) {
    function Hi(): real { lo + size }
  }

  /** The tightest span holding every value of a non-empty list. */
  function BoundingSpan(vs: seq<real>): (b: Span)
    requires |vs| > 0
    ensures b.size >= 0.0
    ensures forall i :: 0 <= i < |vs| ==> b.lo <= vs[i] <= b.Hi()
    ensures b.lo in vs && b.Hi() in vs
  {
    Span(MinOf(vs), MaxOf(vs) - MinOf(vs))
  }

  /**
   Grows a span that is shorter than MinRect to exactly MinRect around the
   same centre; a long enough span is kept.
   */
  function Grow(b: Span): (g: Span)
    ensures g.size == Max2(b.size, MinRect)
    ensures g.lo + g.size / 2.0 == b.lo + b.size / 2.0
    ensures g.lo <= b.lo && b.Hi() <= g.Hi()
  {
    if b.size < MinRect then Span(b.lo - (MinRect - b.size) / 2.0, MinRect) else b
  }

  /**
   Moves an origin `lo` of a side `size` into [0, limit - size]; when the side
   does not fit, the origin goes to 0.
   */
  function Clamp(lo: real, size: real, limit: real): (x: real)
    ensures x >= 0.0
    ensures size <= limit ==> x + size <= limit
    ensures size > limit ==> x == 0.0
    ensures 0.0 <= lo && lo + size <= limit ==> x == lo
  {
    Max2(0.0, Min2(lo, limit - size))
  }

  /** The grown (not yet clamped) horizontal span of the points. */
  function GrownX(pts: seq<Point>): Span
    requires |pts| > 0
  {
    Grow(BoundingSpan(Xs(pts)))
  }

  /** The grown (not yet clamped) vertical span of the points. */
  function GrownY(pts: seq<Point>): Span
    requires |pts| > 0
  {
    Grow(BoundingSpan(Ys(pts)))
  }

  /**
   The highlight rectangle of the points on a display of the given size, or
   None when there are no points.
   */
  function PointsToRect(pts: seq<Point>, displayW: real, displayH: real): (r: Option<Rect>)
    ensures r.None? <==> |pts| == 0
    ensures r.Some? ==> r.value.width >= MinRect && r.value.height >= MinRect
    ensures r.Some? ==> r.value.x >= 0.0 && r.value.y >= 0.0
    ensures r.Some? && r.value.width <= displayW ==> r.value.x + r.value.width <= displayW
    ensures r.Some? && r.value.height <= displayH ==> r.value.y + r.value.height <= displayH
  {
    if |pts| == 0 then None
    else
      var gx, gy := GrownX(pts), GrownY(pts);
      Some(Rect(Clamp(gx.lo, gx.size, displayW), Clamp(gy.lo, gy.size, displayH), gx.size, gy.size))
  }

  /**
   Each side is the bounding-box extent of the points on that axis, or MinRect
   when the extent is smaller.
   */
  lemma SidesAreExtentOrMinimum(pts: seq<Point>, displayW: real, displayH: real)
    requires |pts| > 0
    ensures var r := PointsToRect(pts, displayW, displayH).value;
            r.width == Max2(MaxOf(Xs(pts)) - MinOf(Xs(pts)), MinRect) &&
            r.height == Max2(MaxOf(Ys(pts)) - MinOf(Ys(pts)), MinRect)
  {
    var r := PointsToRect(pts, displayW, displayH).value;
    assert r.width == GrownX(pts).size && r.height == GrownY(pts).size;
  }

  /** The clamped origin is the position in [0, limit - size] nearest to `lo`. */
  lemma ClampIsNearest(lo: real, size: real, limit: real, y: real)
    requires 0.0 <= y <= limit - size
    ensures var x := Clamp(lo, size, limit);
            (if x <= lo then lo - x else x - lo) <= (if y <= lo then lo - y else y - lo)
  {
  }

  /**
   When the grown box already lies inside the display it is returned unchanged,
   and then it holds every point.
   */
  lemma InsideBoxUnchanged(pts: seq<Point>, displayW: real, displayH: real)
    requires |pts| > 0
    requires 0.0 <= GrownX(pts).lo && GrownX(pts).Hi() <= displayW
    requires 0.0 <= GrownY(pts).lo && GrownY(pts).Hi() <= displayH
    ensures var r := PointsToRect(pts, displayW, displayH).value;
            r == Rect(GrownX(pts).lo, GrownY(pts).lo, GrownX(pts).size, GrownY(pts).size) &&
            forall i :: 0 <= i < |pts| ==>
              r.x <= pts[i].x <= r.x + r.width && r.y <= pts[i].y <= r.y + r.height
  {
  }

  /**
   The clamp moves the grown box by the least amount: on each axis where it
   fits, the origin is the allowed position nearest the grown box's origin,
   and where it does not fit the origin is 0.
   */
  lemma OriginIsLeastShift(pts: seq<Point>, displayW: real, displayH: real, ox: real, oy: real)
    requires |pts| > 0
    ensures var r, gx, gy := PointsToRect(pts, displayW, displayH).value, GrownX(pts), GrownY(pts);
            (gx.size <= displayW && 0.0 <= ox <= displayW - gx.size ==>
               (if r.x <= gx.lo then gx.lo - r.x else r.x - gx.lo) <= (if ox <= gx.lo then gx.lo - ox else ox - gx.lo)) &&
            (gy.size <= displayH && 0.0 <= oy <= displayH - gy.size ==>
               (if r.y <= gy.lo then gy.lo - r.y else r.y - gy.lo) <= (if oy <= gy.lo then gy.lo - oy else oy - gy.lo)) &&
            (gx.size > displayW ==> r.x == 0.0) &&
            (gy.size > displayH ==> r.y == 0.0)
  {
    var gx, gy := GrownX(pts), GrownY(pts);
    if gx.size <= displayW && 0.0 <= ox <= displayW - gx.size {
      ClampIsNearest(gx.lo, gx.size, displayW, ox);
    }
    if gy.size <= displayH && 0.0 <= oy <= displayH - gy.size {
      ClampIsNearest(gy.lo, gy.size, displayH, oy);
    }
  }

  /**
   When every point lies on the display (the extremes on each axis do) and the
   grown box fits, the clamped rectangle still holds every point.
   */
  lemma FittingBoxHoldsPoints(pts: seq<Point>, displayW: real, displayH: real)
    requires |pts| > 0
    ensures var r := PointsToRect(pts, displayW, displayH).value;
            0.0 <= MinOf(Xs(pts)) && MaxOf(Xs(pts)) <= displayW &&
            0.0 <= MinOf(Ys(pts)) && MaxOf(Ys(pts)) <= displayH &&
            GrownX(pts).size <= displayW && GrownY(pts).size <= displayH ==>
              forall i :: 0 <= i < |pts| ==> r.x <= pts[i].x <= r.x + r.width && r.y <= pts[i].y <= r.y + r.height
  {
  }

  /**
   A single point well inside the display gives a MinRect square centred on it.
   */
  lemma SinglePointCentred(p: Point, displayW: real, displayH: real)
    requires MinRect / 2.0 <= p.x <= displayW - MinRect / 2.0
    requires MinRect / 2.0 <= p.y <= displayH - MinRect / 2.0
    ensures PointsToRect([p], displayW, displayH)
            == Some(Rect(p.x - MinRect / 2.0, p.y - MinRect / 2.0, MinRect, MinRect))
  {
  }

  /** A single point near the corner is pushed inside: (10, 10) on 300x300. */
  lemma CornerPointExample()
    ensures PointsToRect([Point(10.0, 10.0)], 300.0, 300.0) == Some(Rect(0.0, 0.0, 20.0, 20.0))
  {
  }
}
