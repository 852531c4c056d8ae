/**
 * From the requested crop region or zoom to the rectangle that is cut out of a frame
 * (interfaces/camera/mainline/session/RequestSettings.cpp,
 * interfaces/camera/mainline/convert/FormatConverter.cpp).
 */
module Crop {
  import opened Common

  datatype Rect = Rect(x: int, y: int, width: int, height: int)

  predicate Inside(r: Rect, frame: Size) {
    0 <= r.x && 0 <= r.y && 0 <= r.width && 0 <= r.height &&
    r.x + r.width <= frame.width && r.y + r.height <= frame.height
  }

  function Clamp(v: int, lo: int, hi: int): int { if v < lo then lo else if v > hi then hi else v }

  /** Division as the processor does it: towards zero. */
  function TruncDiv(a: int, b: int): int
    requires b > 0
  {
    if a < 0 then -(-a / b) else a / b
  }

  /** v & ~1 */
  function Even(v: int): int { v - v % 2 }

  // --- The requested region ------------------------------------------------------------

  const ZOOM_EPSILON := 0.0001

  function Ceiling(v: real): int { if v == v.Floor as real then v.Floor else v.Floor + 1 }

  function Centered(sensor: Size, width: int, height: int): Rect {
    Rect(TruncDiv(sensor.width - width, 2), TruncDiv(sensor.height - height, 2), width, height)
  }

  function ClampReal(v: real, lo: real, hi: real): real { if v < lo then lo else if v > hi then hi else v }

  /** n / zoom in floating point: both the conversion and the quotient are rounded. */
  function Quotient(round: real -> real, n: int, zoom: real): real
    requires zoom >= 1.0
  {
    round(round(n as real) / zoom)
  }

  /** Whatever the format, rounding is monotone; the sides of the array are small enough to be exact. */
  ghost predicate Rounds(round: real -> real, sensor: Size) {
    (forall a, b :: a <= b ==> round(a) <= round(b)) && round(0.0) == 0.0 &&
    round(sensor.width as real) == sensor.width as real && round(sensor.height as real) == sensor.height as real
  }

  /**
   * The crop part of ParseSettings, for any rounding of its floating point; None is a setting that is
   * not given or not of four numbers.
   */
  function RequestedRegion(round: real -> real, sensor: Size, maxZoom: real, zoomRatio: Option<real>,
                           cropRegion: Option<Rect>): Rect
    requires maxZoom >= 1.0 && sensor.width > 0 && sensor.height > 0
  {
    var asked := match zoomRatio case None => 1.0 case Some(z) => z;
    var zoom := ClampReal(asked, 1.0, maxZoom);
    if zoom > round(1.0 + round(ZOOM_EPSILON)) then
      Centered(sensor, Quotient(round, sensor.width, zoom).Floor, Quotient(round, sensor.height, zoom).Floor)
    else
      var crop := match cropRegion
        case Some(r) => if r.width > 0 && r.height > 0 then r else Rect(0, 0, sensor.width, sensor.height)
        case None => Rect(0, 0, sensor.width, sensor.height);
      var width := Clamp(crop.width, Ceiling(Quotient(round, sensor.width, maxZoom)), sensor.width);
      var height := Clamp(crop.height, Ceiling(Quotient(round, sensor.height, maxZoom)), sensor.height);
      Rect(Clamp(crop.x, 0, sensor.width - width), Clamp(crop.y, 0, sensor.height - height), width, height)
  }

  /** Rounding changes nothing about the order: a larger zoom never gives a longer side, and none leaves the array. */
  lemma Shortened(round: real -> real, sensor: Size, n: int, zoom: real, maxZoom: real)
    requires Rounds(round, sensor) && (n == sensor.width || n == sensor.height)
    requires n > 0 && 1.0 <= zoom <= maxZoom
    ensures 0.0 <= Quotient(round, n, maxZoom) <= Quotient(round, n, zoom) <= n as real
  {
    var a := Exact(n as real, maxZoom);
    var b := Exact(n as real, zoom);
    ExactOrdered(n as real, a, b, zoom, maxZoom);
    Monotone(round, sensor, 0.0, a);
    Monotone(round, sensor, a, b);
    Monotone(round, sensor, b, n as real);
  }

  lemma Monotone(round: real -> real, sensor: Size, a: real, b: real)
    requires Rounds(round, sensor) && a <= b
    ensures round(a) <= round(b)
  {
  }

  lemma Exact(n: real, zoom: real) returns (q: real)
    requires zoom >= 1.0
    ensures q == n / zoom && q * zoom == n
  {
    q := n / zoom;
  }

  lemma ExactOrdered(n: real, a: real, b: real, zoom: real, maxZoom: real)
    requires a * maxZoom == n && b * zoom == n && n > 0.0 && 1.0 <= zoom <= maxZoom
    ensures 0.0 < a <= b <= n
  {
    if a <= 0.0 {
      RealOrdered(maxZoom, 0.0, a);
    }
    RealOrdered(a, maxZoom, zoom);
    if b <= 0.0 {
      RealOrdered(zoom, 0.0, b);
    }
    if a > b {
      RealLarger(zoom, a, b);
    }
    RealOrdered(b, zoom, 1.0);
  }

  lemma RealOrdered(f: real, a: real, b: real)
    requires f > 0.0 && a >= b
    ensures f * a >= f * b
  {
  }

  lemma RealLarger(f: real, a: real, b: real)
    requires f > 0.0 && a > b
    ensures f * a > f * b
  {
  }

  /** Whatever is asked for, the region lies in the array. */
  lemma RegionInside(round: real -> real, sensor: Size, maxZoom: real, zoomRatio: Option<real>, cropRegion: Option<Rect>)
    requires maxZoom >= 1.0 && sensor.width > 0 && sensor.height > 0 && Rounds(round, sensor)
    ensures Inside(RequestedRegion(round, sensor, maxZoom, zoomRatio, cropRegion), sensor)
  {
    var asked := match zoomRatio case None => 1.0 case Some(z) => z;
    var zoom := ClampReal(asked, 1.0, maxZoom);
    Shortened(round, sensor, sensor.width, zoom, maxZoom);
    Shortened(round, sensor, sensor.height, zoom, maxZoom);
  }

  /** A side of the region never gets shorter than the largest zoom makes it. */
  lemma NeverBeyondMaxZoom(round: real -> real, sensor: Size, maxZoom: real, zoomRatio: Option<real>,
                           cropRegion: Option<Rect>)
    requires maxZoom >= 1.0 && sensor.width > 0 && sensor.height > 0 && Rounds(round, sensor)
    ensures
      var r := RequestedRegion(round, sensor, maxZoom, zoomRatio, cropRegion);
      Quotient(round, sensor.width, maxZoom).Floor <= r.width && Quotient(round, sensor.height, maxZoom).Floor <= r.height
  {
    var asked := match zoomRatio case None => 1.0 case Some(z) => z;
    var zoom := ClampReal(asked, 1.0, maxZoom);
    Shortened(round, sensor, sensor.width, zoom, maxZoom);
    Shortened(round, sensor, sensor.height, zoom, maxZoom);
  }

  // --- The region in the captured frame ------------------------------------------------

  function Scale(value: int, to: int, from: int): int
    requires from > 0
  {
    ToInt32(TruncDiv(value * to, from))
  }

  function ToCaptureCoordinates(region: Rect, sensor: Size, capture: Size): Rect {
    if sensor.width <= 0 || sensor.height <= 0 then Rect(0, 0, capture.width, capture.height) else
      var width := Clamp(Scale(region.width, capture.width, sensor.width), 2, capture.width);
      var height := Clamp(Scale(region.height, capture.height, sensor.height), 2, capture.height);
      Rect(Clamp(Scale(region.x, capture.width, sensor.width), 0, capture.width - width),
           Clamp(Scale(region.y, capture.height, sensor.height), 0, capture.height - height),
           width, height)
  }

  /** Any region at all, from any array, ends up inside the frame and at least 2x2. */
  lemma CaptureInside(region: Rect, sensor: Size, capture: Size)
    requires capture.width >= 2 && capture.height >= 2
    ensures
      var r := ToCaptureCoordinates(region, sensor, capture);
      Inside(r, capture) && r.width >= 2 && r.height >= 2
  {
  }

  lemma ScaledSide(x: int, n: int, to: int, from: int)
    requires 0 <= x && 0 <= n && x + n <= from && 0 < from && 2 <= to < 0x8000_0000
    ensures Scale(x, to, from) == x * to / from && Scale(n, to, from) == n * to / from
    ensures 0 <= x * to / from && 0 <= n * to / from && x * to / from + n * to / from <= to
  {
    ProductBound(x, n, to, from);
    FloorSum(x * to, n * to, from, to);
  }

  lemma FloorSum(p: int, q: int, f: int, t: int)
    requires 0 < f && 0 <= p && 0 <= q && p + q <= f * t
    ensures 0 <= p / f && 0 <= q / f && p / f + q / f <= t
  {
    var a, b := p / f, q / f;
    QuotientBound(p, f);
    QuotientBound(q, f);
    assert f * (a + b) == f * a + f * b;
    if a + b > t {
      Larger(f, a + b, t);
    }
  }

  lemma ProductBound(x: int, n: int, to: int, from: int)
    requires 0 <= x && 0 <= n && x + n <= from && 0 <= to
    ensures 0 <= x * to && 0 <= n * to && x * to + n * to <= from * to
  {
    assert x * to + n * to == (x + n) * to;
  }

  lemma QuotientBound(a: int, b: int)
    requires 0 <= a && 0 < b
    ensures 0 <= a / b && b * (a / b) <= a < b * (a / b) + b
  {
  }

  lemma Larger(f: int, a: int, b: int)
    requires f > 0 && a > b
    ensures f * a > f * b
  {
  }

  /** A region inside the array is scaled side by side, rounding down; only tiny sides are widened to 2. */
  lemma ScaledExactly(region: Rect, sensor: Size, capture: Size)
    requires sensor.width > 0 && sensor.height > 0 && Inside(region, sensor)
    requires 2 <= capture.width < 0x8000_0000 && 2 <= capture.height < 0x8000_0000
    requires region.width * capture.width / sensor.width >= 2
    requires region.height * capture.height / sensor.height >= 2
    ensures ToCaptureCoordinates(region, sensor, capture) ==
      Rect(region.x * capture.width / sensor.width, region.y * capture.height / sensor.height,
           region.width * capture.width / sensor.width, region.height * capture.height / sensor.height)
  {
    ScaledSide(region.x, region.width, capture.width, sensor.width);
    ScaledSide(region.y, region.height, capture.height, sensor.height);
  }

  // --- The crop ------------------------------------------------------------------------

  /** The region cut to the output's aspect, before rounding to even numbers. */
  function Cut(region: Rect, output: Size): Size {
    if output.width <= 0 || output.height <= 0 then Size(region.width, region.height) else
      var lhs, rhs := region.width * output.height, region.height * output.width;
      if lhs > rhs then Size(TruncDiv(rhs, output.height), region.height)
      else if lhs < rhs then Size(region.width, TruncDiv(lhs, output.width))
      else Size(region.width, region.height)
  }

  function CenterCropToAspect(region: Rect, output: Size): Rect {
    var cut := Cut(region, output);
    var width, height := Max(2, Even(cut.width)), Max(2, Even(cut.height));
    Rect(Even(region.x + TruncDiv(region.width - width, 2)),
         Even(region.y + TruncDiv(region.height - height, 2)), width, height)
  }

  /** Cutting shortens at most one side, to the exact value rounded down. */
  lemma CutSides(region: Rect, output: Size)
    requires region.width >= 2 && region.height >= 2 && output.width > 0 && output.height > 0
    ensures
      var cut := Cut(region, output);
      var lhs, rhs := region.width * output.height, region.height * output.width;
      0 <= cut.width <= region.width && 0 <= cut.height <= region.height &&
      (lhs > rhs ==> cut.height == region.height) &&
      (lhs > rhs ==> cut.width * output.height <= rhs < cut.width * output.height + output.height) &&
      (lhs < rhs ==> cut.width == region.width) &&
      (lhs < rhs ==> cut.height * output.width <= lhs < cut.height * output.width + output.width)
  {
    var lhs, rhs := region.width * output.height, region.height * output.width;
    ProductBound(region.width, 0, output.height, region.width);
    ProductBound(region.height, 0, output.width, region.height);
    if lhs > rhs {
      QuotientBound(rhs, output.height);
      var q := rhs / output.height;
      if q > region.width {
        Larger(output.height, q, region.width);
      }
    } else if lhs < rhs {
      QuotientBound(lhs, output.width);
      var q := lhs / output.width;
      if q > region.height {
        Larger(output.width, q, region.height);
      }
    }
  }

  predicate EvenRect(r: Rect) { r.x % 2 == 0 && r.y % 2 == 0 && r.width % 2 == 0 && r.height % 2 == 0 }

  /** The crop is even, at least 2x2, and inside any frame the region is inside of, even or cut to even. */
  lemma CropInside(region: Rect, output: Size, frame: Size)
    requires Inside(region, frame) && region.width >= 2 && region.height >= 2
    ensures
      var crop := CenterCropToAspect(region, output);
      EvenRect(crop) && crop.width >= 2 && crop.height >= 2 &&
      Inside(crop, Size(Even(frame.width), Even(frame.height)))
  {
    if output.width > 0 && output.height > 0 {
      CutSides(region, output);
    }
    var cut := Cut(region, output);
    SideInside(region.x, region.width, cut.width, frame.width);
    SideInside(region.y, region.height, cut.height, frame.height);
  }

  /** One direction of the crop: where it starts and how long it is. */
  lemma SideInside(start: int, length: int, cut: int, frame: int)
    requires 0 <= start && 2 <= length && start + length <= frame && 0 <= cut <= length
    ensures
      var n := Max(2, Even(cut));
      var at := Even(start + TruncDiv(length - n, 2));
      at % 2 == 0 && n % 2 == 0 && 2 <= n <= length && 0 <= at && at + n <= Even(frame)
  {
  }

  /** A product whose factor is off by less than two is off by less than two of the other factor. */
  lemma OffByTwo(w: int, cut: int, exact: int, unit: int)
    requires unit > 0 && cut >= 0 && w == Max(2, Even(cut)) && exact > 0
    requires cut * unit <= exact < cut * unit + unit
    ensures exact - 2 * unit < w * unit < exact + 2 * unit
  {
    if cut >= 2 {
      var r := cut % 2;
      assert w == cut - r && (r == 0 || r == 1);
      assert w * unit == cut * unit - r * unit;
    } else {
      assert w * unit == 2 * unit;
      assert cut == 0 || cut == 1;
    }
  }

  /**
   * The side that is shortened ends up within 2 pixels of what gives the output's aspect exactly;
   * the other side loses at most one pixel.
   */
  lemma AspectWithinTwo(region: Rect, output: Size)
    requires region.width >= 2 && region.height >= 2 && output.width > 0 && output.height > 0
    ensures
      var crop := CenterCropToAspect(region, output);
      var lhs, rhs := region.width * output.height, region.height * output.width;
      (lhs > rhs ==> rhs - 2 * output.height < crop.width * output.height < rhs + 2 * output.height) &&
      (lhs < rhs ==> lhs - 2 * output.width < crop.height * output.width < lhs + 2 * output.width) &&
      (lhs <= rhs ==> region.width - 1 <= crop.width <= region.width) &&
      (lhs >= rhs ==> region.height - 1 <= crop.height <= region.height)
  {
    var crop, cut := CenterCropToAspect(region, output), Cut(region, output);
    var lhs, rhs := region.width * output.height, region.height * output.width;
    CutSides(region, output);
    Positive(region.height, output.width);
    Positive(region.width, output.height);
    if lhs > rhs {
      OffByTwo(crop.width, cut.width, rhs, output.height);
    } else if lhs < rhs {
      OffByTwo(crop.height, cut.height, lhs, output.width);
    }
  }

  lemma Positive(a: int, b: int)
    requires a > 0 && b > 0
    ensures a * b > 0
  {
  }

  /** What is cut off comes from both sides alike, up to rounding. */
  lemma CropCentered(region: Rect, output: Size)
    requires region.width >= 2 && region.height >= 2
    ensures
      var crop := CenterCropToAspect(region, output);
      -3 <= (2 * crop.x + crop.width) - (2 * region.x + region.width) <= 0 &&
      -3 <= (2 * crop.y + crop.height) - (2 * region.y + region.height) <= 0
  {
    if output.width > 0 && output.height > 0 {
      CutSides(region, output);
    }
  }

  /**
   * The whole way: any settings, any array, any frame of at least 2x2 and any output give an even
   * crop inside the frame, and inside the even frame the software ISP emits for odd sizes.
   */
  lemma ComposedCrop(region: Rect, sensor: Size, capture: Size, output: Size)
    requires capture.width >= 2 && capture.height >= 2
    ensures
      var crop := CenterCropToAspect(ToCaptureCoordinates(region, sensor, capture), output);
      EvenRect(crop) && crop.width >= 2 && crop.height >= 2 &&
      Inside(crop, capture) && Inside(crop, Size(Even(capture.width), Even(capture.height)))
  {
    CaptureInside(region, sensor, capture);
    CropInside(ToCaptureCoordinates(region, sensor, capture), output, capture);
  }

  // --- The crop in the planes ----------------------------------------------------------

  /** An I420 image: a luma plane and two chroma planes of half size, rounded up, one after the other. */
  function ChromaSize(frame: Size): Size { Size((frame.width + 1) / 2, (frame.height + 1) / 2) }

  /** Where CropPlanes starts reading: the sample in column x of row y. */
  function PlaneOffset(x: int, y: int, stride: int): int { y * stride + x }

  /** Chroma planes have a sample for every two columns and every two rows, begun ones included. */
  lemma ChromaIsHalf(frame: Size)
    ensures 0 <= 2 * ChromaSize(frame).width - frame.width <= 1 && 0 <= 2 * ChromaSize(frame).height - frame.height <= 1
  {
  }

  /** Rows of a crop, read a stride apart, are the rows of the plane. */
  lemma CropReadsPlane(x: int, y: int, column: int, row: int, stride: int)
    ensures PlaneOffset(x, y, stride) + row * stride + column == (y + row) * stride + (x + column)
  {
    assert (y + row) * stride == y * stride + row * stride;
  }

  /** height rows of width samples, stride apart, from start on lie in the plane. */
  predicate InPlane(start: int, stride: int, width: int, height: int, plane: Size) {
    stride == plane.width && 0 <= start &&
    (height > 0 && width > 0 ==> start + (height - 1) * stride + width <= plane.width * plane.height)
  }

  lemma RectInPlane(r: Rect, plane: Size)
    requires Inside(r, plane)
    ensures InPlane(PlaneOffset(r.x, r.y, plane.width), plane.width, r.width, r.height, plane)
  {
    var stride := plane.width;
    ProductBound(r.y, r.height, stride, plane.height);
    if r.height > 0 {
      assert (r.height - 1) * stride == r.height * stride - stride;
    }
  }

  /** All that is read through the three pointers lies in its own plane. */
  lemma CropPlanesInside(crop: Rect, frame: Size)
    requires EvenRect(crop) && Inside(crop, frame)
    ensures
      var chroma := ChromaSize(frame);
      InPlane(PlaneOffset(crop.x, crop.y, frame.width), frame.width, crop.width, crop.height, frame) &&
      InPlane(PlaneOffset(crop.x / 2, crop.y / 2, chroma.width), chroma.width,
              (crop.width + 1) / 2, (crop.height + 1) / 2, chroma)
  {
    var chroma := ChromaSize(frame);
    RectInPlane(crop, frame);
    RectInPlane(Rect(crop.x / 2, crop.y / 2, (crop.width + 1) / 2, (crop.height + 1) / 2), chroma);
  }
}
