/**
 * Where the samples of a buffer are, as GetPlaneLayouts tells clients
 * (interfaces/graphics/allocator/fb/Buffer.cpp).
 */
module BufferSamples {
  import opened Common
  import opened BufferLayout

  datatype Channel = R | G | B | A | Raw | Y | Cb | Cr

  /** A channel of a sample: bits [offset, offset + size) counted from the start of the sample. */
  datatype Component = Component(channel: Channel, offset: nat, size: nat)

  datatype SamplePlane = SamplePlane(
    components: seq<Component>, offset: nat, increment: nat, stride: nat, width: nat, height: nat, size: nat,
    horizontal: nat, vertical: nat)

  /** The helper of the same purpose in the source: a plane of the layout with what it is made of. */
  function Describe(p: Plane, components: seq<Component>, increment: nat,
                    width: nat, height: nat, horizontal: nat, vertical: nat): SamplePlane {
    SamplePlane(components, p.offset, increment, p.stride, width, height, p.size, horizontal, vertical)
  }

  /** How many planes GetPlaneLayouts indexes for the format. */
  function PlaneCount(format: PixelFormat): nat {
    match format
    case Yv12 => 3
    case Ycbcr420_888 => 3
    case Ycrcb420Sp => 2
    case YcbcrP010 => 2
    case YcbcrP210 => 2
    case OtherFormat(_) => 0
    case _ => 1
  }

  function GetPlaneLayouts(l: Layout): seq<SamplePlane>
    requires |l.planes| >= PlaneCount(l.format)
  {
    var p, w, h := l.planes, l.width, l.height;
    match l.format
    case Rgba8888 =>
      [Describe(p[0], [Component(R, 0, 8), Component(G, 8, 8), Component(B, 16, 8), Component(A, 24, 8)], 32, w, h, 1, 1)]
    case Rgbx8888 =>
      [Describe(p[0], [Component(R, 0, 8), Component(G, 8, 8), Component(B, 16, 8)], 32, w, h, 1, 1)]
    case Bgra8888 =>
      [Describe(p[0], [Component(B, 0, 8), Component(G, 8, 8), Component(R, 16, 8), Component(A, 24, 8)], 32, w, h, 1, 1)]
    case Rgb888 =>
      [Describe(p[0], [Component(R, 0, 8), Component(G, 8, 8), Component(B, 16, 8)], 24, w, h, 1, 1)]
    case Rgb565 =>
      [Describe(p[0], [Component(R, 11, 5), Component(G, 5, 6), Component(B, 0, 5)], 16, w, h, 1, 1)]
    case RgbaFp16 =>
      [Describe(p[0], [Component(R, 0, 16), Component(G, 16, 16), Component(B, 32, 16), Component(A, 48, 16)], 64, w, h, 1, 1)]
    case Raw16 => [Describe(p[0], [Component(Raw, 0, 16)], 16, w, h, 1, 1)]
    case Blob => [Describe(p[0], [], 8, w, h, 1, 1)]
    case Yv12 =>
      [Describe(p[0], [Component(Y, 0, 8)], 8, w, h, 1, 1),
       Describe(p[1], [Component(Cr, 0, 8)], 8, w / 2, h / 2, 2, 2),
       Describe(p[2], [Component(Cb, 0, 8)], 8, w / 2, h / 2, 2, 2)]
    case Ycbcr420_888 =>
      [Describe(p[0], [Component(Y, 0, 8)], 8, w, h, 1, 1),
       Describe(p[1], [Component(Cb, 0, 8)], 8, w / 2, h / 2, 2, 2),
       Describe(p[2], [Component(Cr, 0, 8)], 8, w / 2, h / 2, 2, 2)]
    case Ycrcb420Sp =>
      [Describe(p[0], [Component(Y, 0, 8)], 8, w, h, 1, 1),
       Describe(p[1], [Component(Cr, 0, 8), Component(Cb, 8, 8)], 16, w / 2, h / 2, 2, 2)]
    case YcbcrP010 =>
      [Describe(p[0], [Component(Y, 6, 10)], 16, w, h, 1, 1),
       Describe(p[1], [Component(Cb, 6, 10), Component(Cr, 22, 10)], 32, w / 2, h / 2, 2, 2)]
    case YcbcrP210 =>
      [Describe(p[0], [Component(Y, 6, 10)], 16, w, h, 1, 1),
       Describe(p[1], [Component(Cb, 6, 10), Component(Cr, 22, 10)], 32, w / 2, h, 2, 1)]
    case OtherFormat(_) => []
  }

  // --- Samples -----------------------------------------------------------------------

  /** One component of one sample of one plane. */
  datatype Spot = Spot(plane: nat, x: nat, y: nat, component: nat)

  predicate IsSpot(planes: seq<SamplePlane>, s: Spot) {
    s.plane < |planes| && s.x < planes[s.plane].width && s.y < planes[s.plane].height &&
    s.component < |planes[s.plane].components|
  }

  /** The first bit of the row, from the start of the buffer. */
  function RowBit(p: SamplePlane, y: nat): nat {
    8 * (p.offset + Times(p.stride, y))
  }

  function FirstBit(planes: seq<SamplePlane>, s: Spot): nat
    requires IsSpot(planes, s)
  {
    var p := planes[s.plane];
    RowBit(p, s.y) + Times(p.increment, s.x) + p.components[s.component].offset
  }

  function EndBit(planes: seq<SamplePlane>, s: Spot): nat
    requires IsSpot(planes, s)
  {
    FirstBit(planes, s) + planes[s.plane].components[s.component].size
  }

  /** Components fit a sample side by side, the samples of a row fit its stride, and the rows the plane. */
  ghost predicate WellLaid(p: SamplePlane) {
    && SideBySide(p.components, p.increment)
    && Times(p.increment, p.width) <= 8 * p.stride
    && Times(p.stride, p.height) == p.size
  }

  /** Components that fit side by side into so many bits. */
  ghost predicate SideBySide(components: seq<Component>, bits: nat) {
    && (forall c :: c in components ==> c.size > 0 && c.offset + c.size <= bits)
    && (forall i, j :: 0 <= i < |components| && 0 <= j < |components| && i != j ==>
          components[i].offset + components[i].size <= components[j].offset ||
          components[j].offset + components[j].size <= components[i].offset)
  }

  lemma TimesMonotone(a: nat, b: nat, c: nat)
    requires b <= c
    ensures Times(a, b) <= Times(a, c)
  {
  }

  lemma TimesNext(a: nat, b: nat)
    ensures Times(a, b + 1) == Times(a, b) + a
  {
  }

  /** A component lies in its row, and the row in its plane. */
  lemma SpotInRow(planes: seq<SamplePlane>, s: Spot)
    requires IsSpot(planes, s) && WellLaid(planes[s.plane])
    ensures var p := planes[s.plane];
            && RowBit(p, s.y) <= FirstBit(planes, s) < EndBit(planes, s) <= RowBit(p, s.y + 1)
            && p.offset <= p.offset + Times(p.stride, s.y) && p.offset + Times(p.stride, s.y + 1) <= p.offset + p.size
  {
    var p := planes[s.plane];
    assert p.components[s.component] in p.components;
    TimesMonotone(p.increment, s.x + 1, p.width);
    TimesNext(p.increment, s.x);
    TimesNext(p.stride, s.y);
    TimesMonotone(p.stride, s.y + 1, p.height);
  }

  /** The planes are apart, in order. */
  ghost predicate Apart(planes: seq<SamplePlane>) {
    forall i, j :: 0 <= i < j < |planes| ==> planes[i].offset + planes[i].size <= planes[j].offset
  }

  /** Samples in one row. */
  lemma SameRowDisjoint(planes: seq<SamplePlane>, a: Spot, b: Spot)
    requires IsSpot(planes, a) && IsSpot(planes, b) && a != b
    requires a.plane == b.plane && a.y == b.y && a.x <= b.x && WellLaid(planes[a.plane])
    ensures EndBit(planes, a) <= FirstBit(planes, b) || EndBit(planes, b) <= FirstBit(planes, a)
  {
    var p := planes[a.plane];
    assert p.components[a.component] in p.components && p.components[b.component] in p.components;
    if a.x < b.x {
      TimesNext(p.increment, a.x);
      TimesMonotone(p.increment, a.x + 1, b.x);
    }
  }

  /** No two components of a buffer share a bit. */
  lemma SpotsDisjoint(planes: seq<SamplePlane>, a: Spot, b: Spot)
    requires IsSpot(planes, a) && IsSpot(planes, b) && a != b
    requires Apart(planes) && forall i :: 0 <= i < |planes| ==> WellLaid(planes[i])
    ensures EndBit(planes, a) <= FirstBit(planes, b) || EndBit(planes, b) <= FirstBit(planes, a)
  {
    SpotInRow(planes, a);
    SpotInRow(planes, b);
    if a.plane == b.plane {
      var p := planes[a.plane];
      if a.y < b.y {
        TimesMonotone(p.stride, a.y + 1, b.y);
      } else if b.y < a.y {
        TimesMonotone(p.stride, b.y + 1, a.y);
      } else if a.x <= b.x {
        SameRowDisjoint(planes, a, b);
      } else {
        SameRowDisjoint(planes, b, a);
      }
    }
  }

  /** The width in bytes of a row of samples is within the rounded stride. */
  lemma RowFits(width: nat, bytes: nat)
    ensures Times(8 * bytes, width) <= 8 * RoundUp(Times(width, bytes), 64)
  {
    RoundUpIsMultiple(Times(width, bytes), 64);
    assert Times(8 * bytes, width) == 8 * Times(width, bytes);
  }

  /** The planes of the layout have the strides and sizes its format asks for. */
  ghost predicate Proportioned(l: Layout) {
    && Divisible(l.format, l.width, l.height)
    && (var rows := PlaneRows(l.format, l.width, l.height);
        |l.planes| == |rows| &&
        forall i :: 0 <= i < |rows| ==> l.planes[i].stride == rows[i].0 && l.planes[i].size == Times(rows[i].0, rows[i].1))
  }

  lemma BuiltProportioned(d: Descriptor, rules: UsageRules)
    requires InRange(d) && BuildLayout(d, rules).Some?
    ensures Proportioned(BuildLayout(d, rules).value)
  {
    LayoutTiles(d, rules);
    BuildLayoutIsIdeal(d, rules);
    RowsPositive(d.format, d.width, d.height);
    StackTiles(PlaneRows(d.format, d.width, d.height), 0);
  }

  lemma Counts(l: Layout)
    requires Proportioned(l)
    ensures |l.planes| == |GetPlaneLayouts(l)| == PlaneCount(l.format)
  {
  }

  /** Widths and heights in samples times the subsampling factors are those of the image. */
  lemma SubsamplingCovers(l: Layout, i: nat)
    requires Proportioned(l) && i < |l.planes|
    ensures |l.planes| == |GetPlaneLayouts(l)| == PlaneCount(l.format)
    ensures var p := GetPlaneLayouts(l)[i];
            p.width * p.horizontal == l.width && p.height * p.vertical == l.height
  {
  }

  lemma PackedWellLaid(l: Layout)
    requires Proportioned(l) && PackedBytes(l.format) > 0
    ensures |l.planes| == |GetPlaneLayouts(l)| == 1 && WellLaid(GetPlaneLayouts(l)[0])
  {
    RowFits(l.width, PackedBytes(l.format));
    PackedApart(l);
  }

  lemma PackedApart(l: Layout)
    requires |l.planes| == PlaneCount(l.format) && PackedBytes(l.format) > 0
    ensures |GetPlaneLayouts(l)| == 1
    ensures
      var p := GetPlaneLayouts(l)[0];
      p == Describe(l.planes[0], p.components, 8 * PackedBytes(l.format), l.width, l.height, 1, 1) &&
      SideBySide(p.components, p.increment)
  {
    match l.format
    case Rgba8888 =>
    case Rgbx8888 =>
    case Bgra8888 =>
    case Rgb888 =>
    case Rgb565 =>
    case RgbaFp16 =>
    case Raw16 =>
    case Blob =>
    case _ =>
  }

  lemma PlanarWellLaid(l: Layout, i: nat)
    requires Proportioned(l) && (l.format.Yv12? || l.format.Ycbcr420_888?) && i < |l.planes|
    ensures |l.planes| == |GetPlaneLayouts(l)| == 3 && WellLaid(GetPlaneLayouts(l)[i])
  {
    RoundUpIsMultiple(l.width, 64);
    RoundUpIsMultiple(RoundUp(l.width, 64) / 2, 16);
  }

  lemma SemiPlanarWellLaid(l: Layout, i: nat)
    requires Proportioned(l) && (l.format.Ycrcb420Sp? || l.format.YcbcrP010? || l.format.YcbcrP210?) && i < |l.planes|
    ensures |l.planes| == |GetPlaneLayouts(l)| == 2 && WellLaid(GetPlaneLayouts(l)[i])
  {
    RoundUpIsMultiple(l.width, 64);
    RoundUpIsMultiple(l.width * 2, 64);
  }

  /** GetPlaneLayouts describes every plane of a proportioned layout consistently. */
  lemma PlaneWellLaid(l: Layout, i: nat)
    requires Proportioned(l) && i < |l.planes|
    ensures |l.planes| == |GetPlaneLayouts(l)| == PlaneCount(l.format)
    ensures WellLaid(GetPlaneLayouts(l)[i])
  {
    Counts(l);
    if PackedBytes(l.format) > 0 {
      PackedWellLaid(l);
    } else if l.format.Yv12? || l.format.Ycbcr420_888? {
      PlanarWellLaid(l, i);
    } else {
      SemiPlanarWellLaid(l, i);
    }
  }

  lemma LayoutWellLaid(d: Descriptor, rules: UsageRules)
    requires InRange(d) && BuildLayout(d, rules).Some?
    ensures |BuildLayout(d, rules).value.planes| == PlaneCount(d.format)
    ensures var l := BuildLayout(d, rules).value;
            var planes := GetPlaneLayouts(l);
            && Apart(planes) && |planes| == |l.planes|
            && forall i :: 0 <= i < |planes| ==>
                 WellLaid(planes[i]) && planes[i].offset == l.planes[i].offset && planes[i].size == l.planes[i].size
  {
    BuiltProportioned(d, rules);
    LayoutTiles(d, rules);
    LayoutApart(BuildLayout(d, rules).value);
  }

  lemma LayoutApart(l: Layout)
    requires Proportioned(l) && Tile(l.planes, 0, l.allocationSize)
    ensures |l.planes| == |GetPlaneLayouts(l)| == PlaneCount(l.format)
    ensures var planes := GetPlaneLayouts(l);
            && Apart(planes)
            && forall i :: 0 <= i < |planes| ==>
                 WellLaid(planes[i]) && planes[i].offset == l.planes[i].offset && planes[i].size == l.planes[i].size
  {
    PlaneWellLaid(l, 0);
    var planes := GetPlaneLayouts(l);
    forall i | 0 <= i < |planes|
      ensures WellLaid(planes[i]) && planes[i].offset == l.planes[i].offset && planes[i].size == l.planes[i].size
    {
      PlaneWellLaid(l, i);
    }
    forall i, j | 0 <= i < j < |planes| ensures planes[i].offset + planes[i].size <= planes[j].offset {
      TileOrdered(l.planes, 0, l.allocationSize, i, j);
    }
  }

  /**
   * In a buffer of any accepted descriptor every component of every sample
   * lies inside its own row, its plane and the allocation, and shares no bit
   * with any other.
   */
  lemma SamplesAreSeparate(d: Descriptor, rules: UsageRules, a: Spot, b: Spot)
    requires InRange(d) && BuildLayout(d, rules).Some?
    requires |BuildLayout(d, rules).value.planes| >= PlaneCount(d.format)
    requires IsSpot(GetPlaneLayouts(BuildLayout(d, rules).value), a)
    requires IsSpot(GetPlaneLayouts(BuildLayout(d, rules).value), b)
    ensures var l := BuildLayout(d, rules).value;
            var planes := GetPlaneLayouts(l);
            && RowBit(planes[a.plane], a.y) <= FirstBit(planes, a) < EndBit(planes, a) <= RowBit(planes[a.plane], a.y + 1)
            && 8 * l.planes[a.plane].offset <= FirstBit(planes, a)
            && EndBit(planes, a) <= 8 * (l.planes[a.plane].offset + l.planes[a.plane].size) <= 8 * l.allocationSize
            && (a != b ==> EndBit(planes, a) <= FirstBit(planes, b) || EndBit(planes, b) <= FirstBit(planes, a))
  {
    var l := BuildLayout(d, rules).value;
    var planes := GetPlaneLayouts(l);
    LayoutWellLaid(d, rules);
    LayoutTiles(d, rules);
    TileOrdered(l.planes, 0, l.allocationSize, a.plane, a.plane);
    SpotInRow(planes, a);
    if a != b { SpotsDisjoint(planes, a, b); }
  }
}
