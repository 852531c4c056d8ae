/**
 * Which channel is where in a buffer: the order its format and its FourCC name
 * (interfaces/graphics/allocator/fb/Buffer.cpp, drm_fourcc.h).
 */
module BufferChannels {
  import opened BufferLayout
  import opened BufferSamples
  import opened Common

  /** The channels of a format by its name, from the first bit of the buffer on; RGB_565 names them from the last. */
  function Named(format: PixelFormat): seq<Channel> {
    match format
    case Rgba8888 => [R, G, B, A]
    case Rgbx8888 => [R, G, B]
    case Bgra8888 => [B, G, R, A]
    case Rgb888 => [R, G, B]
    case Rgb565 => [B, G, R]
    case RgbaFp16 => [R, G, B, A]
    case Raw16 => [Raw]
    case Blob => []
    case Yv12 => [Y, Cr, Cb]
    case Ycbcr420_888 => [Y, Cb, Cr]
    case Ycrcb420Sp => [Y, Cr, Cb]
    case YcbcrP010 => [Y, Cb, Cr]
    case YcbcrP210 => [Y, Cb, Cr]
    case OtherFormat(_) => []
  }

  /** What a FourCC says: the channels, the bits of a first sample, the planes, and rows per row of chroma. */
  datatype Naming = Naming(order: seq<Channel>, bits: nat, planes: nat, rows: nat)

  /**
   * FourCCs of packed formats list the channels of the little-endian word from its high end: AB24 is
   * ABGR8888. V is Cr and U is Cb.
   */
  function ByFourcc(code: nat): Option<Naming> {
    if code == 0x34324241 then Some(Naming([R, G, B, A], 32, 1, 1))
    else if code == 0x34324258 then Some(Naming([R, G, B], 32, 1, 1))
    else if code == 0x34325241 then Some(Naming([B, G, R, A], 32, 1, 1))
    else if code == 0x34324742 then Some(Naming([R, G, B], 24, 1, 1))
    else if code == 0x36314752 then Some(Naming([B, G, R], 16, 1, 1))
    else if code == 0x48344241 then Some(Naming([R, G, B, A], 64, 1, 1))
    else if code == 0x20363152 then Some(Naming([Raw], 16, 1, 1))
    else if code == 0x20203852 then Some(Naming([], 8, 1, 1))
    else if code == 0x32315659 then Some(Naming([Y, Cr, Cb], 8, 3, 2))
    else if code == 0x32315559 then Some(Naming([Y, Cb, Cr], 8, 3, 2))
    else if code == 0x3132564e then Some(Naming([Y, Cr, Cb], 8, 2, 2))
    else if code == 0x30313050 then Some(Naming([Y, Cb, Cr], 16, 2, 2))
    else if code == 0x30313250 then Some(Naming([Y, Cb, Cr], 16, 2, 1))
    else None
  }

  /** Bits of a channel. */
  function Depth(format: PixelFormat, channel: Channel): nat {
    match format
    case Rgb565 => if channel == G then 6 else 5
    case RgbaFp16 => 16
    case Raw16 => 16
    case YcbcrP010 => 10
    case YcbcrP210 => 10
    case _ => 8
  }

  function ChannelAt(planes: seq<SamplePlane>, s: Spot): Channel
    requires IsSpot(planes, s)
  {
    planes[s.plane].components[s.component].channel
  }

  ghost predicate FirstSample(planes: seq<SamplePlane>, s: Spot) { IsSpot(planes, s) && s.x == 0 && s.y == 0 }

  /** The letters are the codes of drm_fourcc.h. */
  lemma FourccValues()
    ensures FourccCode('A', 'B', '2', '4') == 0x34324241
    ensures FourccCode('X', 'B', '2', '4') == 0x34324258
    ensures FourccCode('A', 'R', '2', '4') == 0x34325241
    ensures FourccCode('B', 'G', '2', '4') == 0x34324742
    ensures FourccCode('R', 'G', '1', '6') == 0x36314752
    ensures FourccCode('A', 'B', '4', 'H') == 0x48344241
    ensures FourccCode('R', '1', '6', ' ') == 0x20363152
    ensures FourccCode('R', '8', ' ', ' ') == 0x20203852
    ensures FourccCode('Y', 'V', '1', '2') == 0x32315659
    ensures FourccCode('Y', 'U', '1', '2') == 0x32315559
    ensures FourccCode('N', 'V', '2', '1') == 0x3132564e
    ensures FourccCode('P', '0', '1', '0') == 0x30313050
    ensures FourccCode('P', '2', '1', '0') == 0x30313250
  {
  }

  /** The FourCC of a layout names what its planes are. */
  lemma FourccNames(l: Layout)
    requires Proportioned(l) && l.fourcc == Fourcc(l.format)
    ensures |l.planes| >= PlaneCount(l.format)
    ensures
      var planes := GetPlaneLayouts(l);
      |planes| == |l.planes| > 0 && ByFourcc(l.fourcc) ==
        Some(Naming(Named(l.format), planes[0].increment, |planes|, planes[|planes| - 1].vertical))
  {
    FourccValues();
    Counts(l);
  }

  /** Where channel k of a format is. */
  function Where(format: PixelFormat, k: nat): Spot
    requires k < |Named(format)|
  {
    match format
    case Rgb565 => Spot(0, 0, 0, 2 - k)
    case Yv12 => Spot(k, 0, 0, 0)
    case Ycbcr420_888 => Spot(k, 0, 0, 0)
    case Ycrcb420Sp => if k == 0 then Spot(0, 0, 0, 0) else Spot(1, 0, 0, k - 1)
    case YcbcrP010 => if k == 0 then Spot(0, 0, 0, 0) else Spot(1, 0, 0, k - 1)
    case YcbcrP210 => if k == 0 then Spot(0, 0, 0, 0) else Spot(1, 0, 0, k - 1)
    case _ => Spot(0, 0, 0, k)
  }

  lemma WhereIs(l: Layout, k: nat)
    requires Proportioned(l) && l.width > 0 && l.height > 0 && k < |Named(l.format)|
    ensures |l.planes| >= PlaneCount(l.format)
    ensures
      var planes, s := GetPlaneLayouts(l), Where(l.format, k);
      FirstSample(planes, s) && ChannelAt(planes, s) == Named(l.format)[k] &&
      EndBit(planes, s) == FirstBit(planes, s) + Depth(l.format, Named(l.format)[k])
  {
    Counts(l);
  }

  lemma DistinctNames(format: PixelFormat)
    ensures Distinct(Named(format))
  {
  }

  /** A component of a first sample is one of those channels. */
  lemma IsNamed(l: Layout, s: Spot) returns (k: int)
    requires Proportioned(l) && |l.planes| >= PlaneCount(l.format)
    requires FirstSample(GetPlaneLayouts(l), s)
    ensures 0 <= k < |Named(l.format)| && Where(l.format, k) == s
  {
    k := match l.format
      case Rgb565 => 2 - s.component
      case Yv12 => s.plane
      case Ycbcr420_888 => s.plane
      case Ycrcb420Sp => s.plane + s.component
      case YcbcrP010 => s.plane + s.component
      case YcbcrP210 => s.plane + s.component
      case _ => s.component;
  }

  /** Within a plane, the channel named first has the lower bits. */
  lemma SamePlaneOrdered(l: Layout, i: nat, j: nat)
    requires Proportioned(l) && i < j < |Named(l.format)| && |l.planes| >= PlaneCount(l.format)
    requires Where(l.format, i).plane == Where(l.format, j).plane < |GetPlaneLayouts(l)|
    ensures
      var components := GetPlaneLayouts(l)[Where(l.format, i).plane].components;
      var a, b := Where(l.format, i).component, Where(l.format, j).component;
      a < |components| && b < |components| && components[a].offset + components[a].size <= components[b].offset
  {
  }

  lemma WhereOrdered(l: Layout, i: nat, j: nat)
    requires Proportioned(l) && l.width > 0 && l.height > 0 && Tile(l.planes, 0, l.allocationSize)
    requires i < j < |Named(l.format)|
    ensures |l.planes| >= PlaneCount(l.format)
    ensures
      var planes, a, b := GetPlaneLayouts(l), Where(l.format, i), Where(l.format, j);
      IsSpot(planes, a) && IsSpot(planes, b) && EndBit(planes, a) <= FirstBit(planes, b)
  {
    LayoutApart(l);
    WhereIs(l, i);
    WhereIs(l, j);
    var planes, a, b := GetPlaneLayouts(l), Where(l.format, i), Where(l.format, j);
    if a.plane == b.plane {
      SamePlaneOrdered(l, i, j);
    } else {
      SpotInRow(planes, a);
      SpotInRow(planes, b);
      PlanesInOrder(l.format, i, j);
    }
  }

  lemma PlanesInOrder(format: PixelFormat, i: nat, j: nat)
    requires i < j < |Named(format)|
    ensures Where(format, i).plane <= Where(format, j).plane
  {
  }

  /**
   * In a buffer of any accepted descriptor, a component of the first sample is one of the channels the
   * FourCC names, and of no two the same; one named earlier ends before one named later begins.
   */
  lemma ChannelsInOrder(d: Descriptor, rules: UsageRules, a: Spot, b: Spot)
    requires InRange(d) && BuildLayout(d, rules).Some?
    requires |BuildLayout(d, rules).value.planes| >= PlaneCount(d.format)
    requires FirstSample(GetPlaneLayouts(BuildLayout(d, rules).value), a)
    requires FirstSample(GetPlaneLayouts(BuildLayout(d, rules).value), b)
    ensures
      var l := BuildLayout(d, rules).value;
      var planes := GetPlaneLayouts(l);
      ByFourcc(l.fourcc).Some? && ByFourcc(l.fourcc).value.planes == |planes| &&
      var order := ByFourcc(l.fourcc).value.order;
      ChannelAt(planes, a) in order && (ChannelAt(planes, a) == ChannelAt(planes, b) ==> a == b) &&
      forall i, j :: 0 <= i < j < |order| && order[i] == ChannelAt(planes, a) && order[j] == ChannelAt(planes, b) ==>
        EndBit(planes, a) <= FirstBit(planes, b)
  {
    var l := BuildLayout(d, rules).value;
    BuiltAndTiled(d, rules);
    FourccNames(l);
    DistinctNames(l.format);
    var i := IsNamed(l, a);
    var j := IsNamed(l, b);
    WhereIs(l, i);
    WhereIs(l, j);
    if i < j {
      WhereOrdered(l, i, j);
    }
  }

  lemma BuiltAndTiled(d: Descriptor, rules: UsageRules)
    requires InRange(d) && BuildLayout(d, rules).Some?
    ensures
      var l := BuildLayout(d, rules).value;
      Proportioned(l) && l.fourcc == Fourcc(l.format) && l.format == d.format && l.width > 0 && l.height > 0 &&
      Tile(l.planes, 0, l.allocationSize)
  {
    BuiltProportioned(d, rules);
    LayoutTiles(d, rules);
    BuildLayoutIsIdeal(d, rules);
  }

  /** Every channel it names is there, with its bits. */
  lemma ChannelThere(d: Descriptor, rules: UsageRules, k: nat)
    requires InRange(d) && BuildLayout(d, rules).Some?
    requires k < |Named(d.format)|
    ensures |BuildLayout(d, rules).value.planes| >= PlaneCount(d.format)
    ensures
      var l := BuildLayout(d, rules).value;
      var planes := GetPlaneLayouts(l);
      ByFourcc(l.fourcc).Some? && ByFourcc(l.fourcc).value.order == Named(d.format) &&
      exists s :: FirstSample(planes, s) && ChannelAt(planes, s) == Named(d.format)[k] &&
        EndBit(planes, s) - FirstBit(planes, s) == Depth(d.format, Named(d.format)[k])
  {
    var l := BuildLayout(d, rules).value;
    BuiltAndTiled(d, rules);
    FourccNames(l);
    WhereIs(l, k);
    assert FirstSample(GetPlaneLayouts(l), Where(l.format, k));
  }

  function DepthBefore(format: PixelFormat, k: nat): nat
    requires k <= |Named(format)|
  {
    if k == 0 then 0 else DepthBefore(format, k - 1) + Depth(format, Named(format)[k - 1])
  }

  /** Packed channels follow each other from the first bit; ten-bit ones take the high end of 16 bits. */
  lemma BitsPlaced(l: Layout, k: nat)
    requires Proportioned(l) && |l.planes| >= PlaneCount(l.format) && k < |Named(l.format)|
    requires
      var s := Where(l.format, k);
      s.plane < |GetPlaneLayouts(l)| && s.component < |GetPlaneLayouts(l)[s.plane].components|
    ensures
      var s := Where(l.format, k);
      var c := GetPlaneLayouts(l)[s.plane].components[s.component];
      (PackedBytes(l.format) > 0 ==> c.offset == DepthBefore(l.format, k)) &&
      (l.format.YcbcrP010? || l.format.YcbcrP210? ==> (c.offset + c.size) % 16 == 0)
  {
    if PackedBytes(l.format) > 0 {
      DepthSum(l.format, k);
    }
  }

  lemma DepthSum(format: PixelFormat, k: nat)
    requires PackedBytes(format) > 0 && k < |Named(format)|
    ensures
      var sum := DepthBefore(format, k);
      if format.Rgb565? then sum == [0, 5, 11][k]
      else if format.RgbaFp16? then sum == 16 * k
      else if format.Raw16? then sum == 0
      else sum == 8 * k
  {
    if k > 0 {
      DepthSum(format, k - 1);
    }
  }
}
