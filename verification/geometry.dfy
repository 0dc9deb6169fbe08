/**
 Plain geometry shared by the overlay code: points, rectangles, the raw scan
 region remembered after a decode, and the minimum / maximum of a non-empty
 list of coordinates (the `Math.min(...xs)` / `Math.max(...xs)` spreads).
 */
module Geometry {
  import opened Wrappers

  /** A point, either in raw frame pixels or in display pixels. */
  datatype Point = Point(x: real, y: real)

  /** An axis-aligned rectangle in display pixels. */
  datatype Rect = Rect(x: real, y: real, width: real, height: real)

  /**
   The geometry kept after a successful decode: the decoder's points in frame
   pixels (None when the decoder reported none) and the frame size.
   */
  datatype ScanRegion = ScanRegion(points: Option<seq<Point>>, sourceWidth: nat, sourceHeight: nat)

  function Min2(a: real, b: real): (m: real)
    ensures m <= a && m <= b
    ensures m == a || m == b
  {
    if a <= b then a else b
  }

  function Max2(a: real, b: real): (m: real)
    ensures m >= a && m >= b
    ensures m == a || m == b
  {
    if a >= b then a else b
  }

  /** The smallest element of a non-empty list. */
  function MinOf(s: seq<real>): (m: real)
    requires |s| > 0
    ensures m in s
    ensures forall i :: 0 <= i < |s| ==> m <= s[i]
  {
    if |s| == 1 then s[0] else Min2(s[0], MinOf(s[1..]))
  }

  /** The largest element of a non-empty list. */
  function MaxOf(s: seq<real>): (m: real)
    requires |s| > 0
    ensures m in s
    ensures forall i :: 0 <= i < |s| ==> s[i] <= m
  {
    if |s| == 1 then s[0] else Max2(s[0], MaxOf(s[1..]))
  }

  /** The x coordinates of the points, in order. */
  function Xs(pts: seq<Point>): (xs: seq<real>)
    ensures |xs| == |pts|
    ensures forall i :: 0 <= i < |pts| ==> xs[i] == pts[i].x
  {
    seq(|pts|, i requires 0 <= i < |pts| => pts[i].x)
  }

  /** The y coordinates of the points, in order. */
  function Ys(pts: seq<Point>): (ys: seq<real>)
    ensures |ys| == |pts|
    ensures forall i :: 0 <= i < |pts| ==> ys[i] == pts[i].y
  {
    seq(|pts|, i requires 0 <= i < |pts| => pts[i].y)
  }
}
