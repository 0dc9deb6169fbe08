/**
 The highlight drawn over the video for the current scan region: the rectangle
 around the mapped decoder points, or a centred fallback square when there is
 no usable geometry.
 */
module Overlay {
  import opened Wrappers
  import opened Geometry
  import opened DisplayMapping
  import opened ScanRect

  /** Share of the smaller display side used by the fallback square. */
  const FallbackShare: real := 0.4

  /** The centred square of side 0.4 * min(w, h). */
  function FallbackRect(w: real, h: real): (r: Rect)
    ensures r.width == r.height == FallbackShare * Min2(w, h)
    ensures r.x + r.width / 2.0 == w / 2.0 && r.y + r.height / 2.0 == h / 2.0
    ensures w > 0.0 && h > 0.0 ==>
              0.0 < r.width && 0.0 <= r.x && r.x + r.width <= w && 0.0 <= r.y && r.y + r.height <= h
  {
    var size := Min2(w, h) * FallbackShare;
    Rect((w - size) / 2.0, (h - size) / 2.0, size, size)
  }

  /**
   The rectangle from the region's own points: there is one exactly when the
   region has points and a known frame size, and it is then at least MinRect
   on each side.
   */
  function PointsRect(region: ScanRegion, w: real, h: real): (r: Option<Rect>)
    ensures r.None? <==> region.points.None? || |region.points.value| == 0 ||
                         region.sourceWidth == 0 || region.sourceHeight == 0
    ensures r.Some? ==> r.value.width >= MinRect && r.value.height >= MinRect
  {
    if region.points.Some? && |region.points.value| > 0 then
      PointsToRect(MapPointsToDisplay(region.points.value, region.sourceWidth as real,
                                      region.sourceHeight as real, w, h), w, h)
    else None
  }

  /**
   What is drawn for the current scan region on a display of w x h pixels:
   nothing without a region or with an unsized display, otherwise the points'
   rectangle or, failing that, the fallback square.
   */
  function OverlayRect(region: Option<ScanRegion>, w: nat, h: nat): (r: Option<Rect>)
    ensures r.None? <==> region.None? || w == 0 || h == 0
    ensures r.Some? ==> r.value.x >= 0.0 && r.value.y >= 0.0 && r.value.width > 0.0 && r.value.height > 0.0
    ensures r.Some? && r.value.width <= w as real ==> r.value.x + r.value.width <= w as real
    ensures r.Some? && r.value.height <= h as real ==> r.value.y + r.value.height <= h as real
  {
    match region
    case None => None
    case Some(reg) =>
      if w == 0 || h == 0 then None
      else
        var rect := PointsRect(reg, w as real, h as real);
        if rect.Some? then rect else Some(FallbackRect(w as real, h as real))
  }

  /**
   The fallback is drawn exactly when the region carries no points or the frame
   size is unknown; otherwise the drawn rectangle is the one around the mapped
   points, at least MinRect on each side.
   */
  lemma FallbackExactlyWithoutGeometry(region: ScanRegion, w: nat, h: nat)
    requires w > 0 && h > 0
    ensures var noGeometry := region.points.None? || |region.points.value| == 0 ||
                              region.sourceWidth == 0 || region.sourceHeight == 0;
            var r := OverlayRect(Some(region), w, h).value;
            (noGeometry ==> r == FallbackRect(w as real, h as real)) &&
            (!noGeometry ==>
               r == PointsToRect(MapPointsToDisplay(region.points.value, region.sourceWidth as real,
                                                    region.sourceHeight as real, w as real, h as real),
                                 w as real, h as real).value &&
               r.width >= MinRect && r.height >= MinRect)
  {
  }

  /** Without points a 400x300 display gets the centred 120x120 square. */
  lemma FallbackExample()
    ensures OverlayRect(Some(ScanRegion(None, 640, 480)), 400, 300) == Some(Rect(140.0, 90.0, 120.0, 120.0))
  {
  }
}
