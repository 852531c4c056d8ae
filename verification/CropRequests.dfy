/**
 * Which region a request gets, told from what it asks for, and what is reported of it
 * (interfaces/camera/mainline/session/RequestSettings.cpp).
 */
module CropRequests {
  import opened Common
  import opened Crop

  /** Ratios up to here do not count as zooming. */
  function Threshold(round: real -> real): real { round(1.0 + round(ZOOM_EPSILON)) }

  /** The ratio asked for, as far as the array can be zoomed. */
  ghost predicate Zooms(round: real -> real, maxZoom: real, zoomRatio: Option<real>, zoom: real) {
    zoomRatio.Some? && Threshold(round) < zoom <= maxZoom && 1.0 <= zoom &&
    (zoom == zoomRatio.value || (zoom == maxZoom && maxZoom < zoomRatio.value))
  }

  /** n / zoom, without the fraction. */
  ghost predicate WholePart(round: real -> real, n: int, zoom: real, part: int)
    requires zoom >= 1.0
  {
    part as real <= round(round(n as real) / zoom) < part as real + 1.0
  }

  /** As much is left free before as behind, up to one pixel. */
  predicate InTheMiddle(at: int, length: int, whole: int) { 0 <= whole - length - 2 * at <= 1 }

  /** Rounding keeps one; no sensible format does not. */
  ghost predicate KeepsOne(round: real -> real) { round(1.0) == 1.0 }

  lemma ThresholdFromOne(round: real -> real, sensor: Size)
    requires Rounds(round, sensor) && KeepsOne(round)
    ensures Threshold(round) >= 1.0
  {
    Monotone(round, sensor, 0.0, ZOOM_EPSILON);
    Monotone(round, sensor, 1.0, 1.0 + round(ZOOM_EPSILON));
  }

  /** Zooming takes the middle of the array, each side divided by the ratio; the crop region does not matter then. */
  lemma ZoomTakesOver(round: real -> real, sensor: Size, maxZoom: real, zoomRatio: Option<real>,
                      cropRegion: Option<Rect>, zoom: real)
    requires maxZoom >= 1.0 && sensor.width > 0 && sensor.height > 0 && Rounds(round, sensor)
    requires Zooms(round, maxZoom, zoomRatio, zoom)
    ensures
      var r := RequestedRegion(round, sensor, maxZoom, zoomRatio, cropRegion);
      r == RequestedRegion(round, sensor, maxZoom, zoomRatio, None) &&
      WholePart(round, sensor.width, zoom, r.width) && WholePart(round, sensor.height, zoom, r.height) &&
      InTheMiddle(r.x, r.width, sensor.width) && InTheMiddle(r.y, r.height, sensor.height)
  {
    Shortened(round, sensor, sensor.width, zoom, maxZoom);
    Shortened(round, sensor, sensor.height, zoom, maxZoom);
  }

  /** Not zooming: no ratio, or one up to the threshold, or an array that can not be zoomed beyond it. */
  ghost predicate Unzoomed(round: real -> real, maxZoom: real, zoomRatio: Option<real>) {
    zoomRatio.Some? ==> zoomRatio.value <= Threshold(round) || maxZoom <= Threshold(round)
  }

  lemma ZoomsOrNot(round: real -> real, sensor: Size, maxZoom: real, zoomRatio: Option<real>)
    requires Rounds(round, sensor) && KeepsOne(round) && maxZoom >= 1.0
    ensures Unzoomed(round, maxZoom, zoomRatio) <==> !exists zoom :: Zooms(round, maxZoom, zoomRatio, zoom)
  {
    ThresholdFromOne(round, sensor);
    if !Unzoomed(round, maxZoom, zoomRatio) {
      assert Zooms(round, maxZoom, zoomRatio, if zoomRatio.value <= maxZoom then zoomRatio.value else maxZoom);
    }
  }

  /** The least whole number of pixels a side may have. */
  ghost predicate LeastSide(round: real -> real, n: int, maxZoom: real, least: int)
    requires maxZoom >= 1.0
  {
    least as real - 1.0 < Quotient(round, n, maxZoom) <= least as real
  }

  /** The number in the range that is nearest to the one asked for. */
  predicate Nearest(asked: int, lo: int, hi: int, got: int) {
    lo <= got <= hi && (lo <= asked <= hi ==> got == asked) && (asked < lo ==> got == lo) && (asked > hi ==> got == hi)
  }

  /** One side of the region: as long as asked for within the limits, and as near to its place as that lets it. */
  ghost predicate SideRight(round: real -> real, n: int, maxZoom: real, askedAt: int, asked: int, at: int, length: int)
    requires maxZoom >= 1.0
  {
    (exists least :: LeastSide(round, n, maxZoom, least) && Nearest(asked, least, n, length)) &&
    Nearest(askedAt, 0, n - length, at)
  }

  /** What counts as a crop region; anything else asks for the whole array. */
  function CropAsked(sensor: Size, cropRegion: Option<Rect>): Rect {
    if cropRegion.Some? && cropRegion.value.width > 0 && cropRegion.value.height > 0 then cropRegion.value
    else Rect(0, 0, sensor.width, sensor.height)
  }

  lemma CeilingIsLeast(round: real -> real, n: int, maxZoom: real)
    requires maxZoom >= 1.0
    ensures LeastSide(round, n, maxZoom, Ceiling(Quotient(round, n, maxZoom)))
  {
  }

  lemma CeilingInside(round: real -> real, sensor: Size, n: int, maxZoom: real)
    requires Rounds(round, sensor) && (n == sensor.width || n == sensor.height) && n > 0 && maxZoom >= 1.0
    ensures 0 <= Ceiling(Quotient(round, n, maxZoom)) <= n
  {
    Shortened(round, sensor, n, 1.0, maxZoom);
  }

  /** Without zoom each side is the nearest there can be to the crop region asked for. */
  lemma CropTakesOver(round: real -> real, sensor: Size, maxZoom: real, zoomRatio: Option<real>, cropRegion: Option<Rect>)
    requires maxZoom >= 1.0 && sensor.width > 0 && sensor.height > 0 && Rounds(round, sensor) && KeepsOne(round)
    requires Unzoomed(round, maxZoom, zoomRatio)
    ensures
      var r, asked := RequestedRegion(round, sensor, maxZoom, zoomRatio, cropRegion), CropAsked(sensor, cropRegion);
      SideRight(round, sensor.width, maxZoom, asked.x, asked.width, r.x, r.width) &&
      SideRight(round, sensor.height, maxZoom, asked.y, asked.height, r.y, r.height)
  {
    ThresholdFromOne(round, sensor);
    CeilingIsLeast(round, sensor.width, maxZoom);
    CeilingIsLeast(round, sensor.height, maxZoom);
    CeilingInside(round, sensor, sensor.width, maxZoom);
    CeilingInside(round, sensor, sensor.height, maxZoom);
  }

  // --- What is reported ----------------------------------------------------------------

  /** The crop region and the zoom ratio that go into the result. */
  function Reported(round: real -> real, sensor: Size, maxZoom: real, zoomRatio: Option<real>, cropRegion: Option<Rect>)
    : (Rect, real)
    requires maxZoom >= 1.0 && sensor.width > 0 && sensor.height > 0
  {
    var asked := match zoomRatio case None => 1.0 case Some(z) => z;
    var zoom := ClampReal(asked, 1.0, maxZoom);
    if zoom > Threshold(round) then (Rect(0, 0, sensor.width, sensor.height), zoom)
    else (RequestedRegion(round, sensor, maxZoom, zoomRatio, cropRegion), 1.0)
  }

  /** Asking for what was reported gives the same region again, and reports the same. */
  lemma ReportedAsksTheSame(round: real -> real, sensor: Size, maxZoom: real, zoomRatio: Option<real>, cropRegion: Option<Rect>)
    requires maxZoom >= 1.0 && sensor.width > 0 && sensor.height > 0 && Rounds(round, sensor) && KeepsOne(round)
    ensures
      var (crop, zoom) := Reported(round, sensor, maxZoom, zoomRatio, cropRegion);
      RequestedRegion(round, sensor, maxZoom, Some(zoom), Some(crop)) ==
        RequestedRegion(round, sensor, maxZoom, zoomRatio, cropRegion) &&
      Reported(round, sensor, maxZoom, Some(zoom), Some(crop)) == (crop, zoom)
  {
    ThresholdFromOne(round, sensor);
    CeilingInside(round, sensor, sensor.width, maxZoom);
    CeilingInside(round, sensor, sensor.height, maxZoom);
  }
}
