/**
 * The buffer layouts of the framebuffer gralloc: what BuildLayout computes for
 * each pixel format with overflow-checked 64-bit arithmetic
 * (interfaces/graphics/allocator/fb/Buffer.cpp).
 */
module BufferLayout {
  import opened Common

  const U64: nat := 0x1_0000_0000_0000_0000
  const U32: nat := 0x1_0000_0000
  type uint64 = n: nat | n < U64

  const INT32_MAX: nat := 0x7fff_ffff
  const MAX_ALLOCATION: nat := 0x8000_0000
  const MAX_RESERVED: nat := 0x100_0000

  datatype PixelFormat =
    | Rgba8888 | Rgbx8888 | Bgra8888 | Rgb888 | Rgb565 | RgbaFp16 | Raw16 | Blob
    | Yv12 | Ycbcr420_888 | Ycrcb420Sp | YcbcrP010 | YcbcrP210 | OtherFormat(code: int)

  /** The bits of the usage word the interface defines, and the levels its two CPU fields may have. */
  datatype UsageRules = UsageRules(
    known: bv64, protected_: bv64,
    readMask: bv64, readLevels: set<bv64>, writeMask: bv64, writeLevels: set<bv64>)

  datatype OptionEntry = DataspaceOption(value: int) | UnknownOption

  datatype Descriptor = Descriptor(
    width: int, height: int, layerCount: int, format: PixelFormat, usage: uint64, reservedSize: int,
    name: string, options: seq<OptionEntry>)

  datatype Plane = Plane(offset: nat, stride: nat, size: nat)

  datatype Layout = Layout(
    width: nat, height: nat, layerCount: nat, format: PixelFormat, usage: uint64, pixelStride: nat, fourcc: nat,
    allocationSize: nat, reservedSize: nat, dataspace: int, name: string, planes: seq<Plane>)

  /** fourcc_code of drm_fourcc.h. */
  function FourccCode(a: char, b: char, c: char, d: char): nat {
    a as nat % 256 + b as nat % 256 * 0x100 + c as nat % 256 * 0x1_0000 + d as nat % 256 * 0x100_0000
  }

  function Fourcc(format: PixelFormat): nat {
    match format
    case Rgba8888 => FourccCode('A', 'B', '2', '4')
    case Rgbx8888 => FourccCode('X', 'B', '2', '4')
    case Bgra8888 => FourccCode('A', 'R', '2', '4')
    case Rgb888 => FourccCode('B', 'G', '2', '4')
    case Rgb565 => FourccCode('R', 'G', '1', '6')
    case RgbaFp16 => FourccCode('A', 'B', '4', 'H')
    case Raw16 => FourccCode('R', '1', '6', ' ')
    case Blob => FourccCode('R', '8', ' ', ' ')
    case Yv12 => FourccCode('Y', 'V', '1', '2')
    case Ycbcr420_888 => FourccCode('Y', 'U', '1', '2')
    case Ycrcb420Sp => FourccCode('N', 'V', '2', '1')
    case YcbcrP010 => FourccCode('P', '0', '1', '0')
    case YcbcrP210 => FourccCode('P', '2', '1', '0')
    case OtherFormat(_) => 0
  }

  // --- Checked 64-bit arithmetic -------------------------------------------------

  function Add(a: nat, b: nat): Option<nat> {
    if a + b < U64 then Some(a + b) else None
  }

  function Multiply(a: nat, b: nat): Option<nat> {
    if Times(a, b) < U64 then Some(Times(a, b)) else None
  }

  /** The next multiple of one of the two alignments used. */
  function Align(value: nat, alignment: nat): Option<nat>
    requires alignment in {16, 64}
  {
    match Add(value, alignment - 1)
    case None => None
    case Some(sum) => Some(if alignment == 16 then sum - sum % 16 else sum - sum % 64)
  }

  function RoundUp(value: nat, alignment: nat): nat
    requires alignment in {16, 64}
  {
    if alignment == 16 then (value + 15) / 16 * 16 else (value + 63) / 64 * 64
  }

  lemma RoundUpIsMultiple(value: nat, alignment: nat)
    requires alignment == 16 || alignment == 64
    ensures RoundUp(value, alignment) % alignment == 0
    ensures value <= RoundUp(value, alignment) < value + alignment
  {
  }

  lemma RoundUpIsLeast(value: nat, alignment: nat, m: nat)
    requires alignment == 16 || alignment == 64
    requires m >= value && m % alignment == 0
    ensures m >= RoundUp(value, alignment)
  {
    RoundUpIsMultiple(value, alignment);
    var r := RoundUp(value, alignment);
    if alignment == 16 {
      assert r == 16 * (r / 16) && m == 16 * (m / 16);
    } else {
      assert r == 64 * (r / 64) && m == 64 * (m / 64);
    }
  }

  /** Masking, as the source rounds. */
  lemma MaskIsRounding64(sum: bv64)
    ensures sum & !63 == sum - sum % 64
    ensures sum & !15 == sum - sum % 16
  {
  }

  // --- BuildLayout -----------------------------------------------------------------

  predicate NoneOf(usage: bv64, bits: bv64) { usage & bits == 0 }

  predicate LevelIn(usage: bv64, mask: bv64, levels: set<bv64>) { usage & mask in levels }

  /** The tests of the usage word. */
  predicate UsageTests(usage: bv64, rules: UsageRules) {
    NoneOf(usage, !rules.known) && NoneOf(usage, rules.protected_) &&
    LevelIn(usage, rules.readMask, rules.readLevels) && LevelIn(usage, rules.writeMask, rules.writeLevels)
  }

  predicate UsageAccepted(word: uint64, rules: UsageRules) { UsageTests(word as bv64, rules) }

  /** The option loop: at most one dataspace, and nothing else. */
  function DataspaceOf(options: seq<OptionEntry>, seen: Option<int>): Option<Option<int>> {
    if options == [] then Some(seen)
    else if options[0].UnknownOption? || seen.Some? then None
    else DataspaceOf(options[1..], Some(options[0].value))
  }

  /** What the switch over the format fills in. */
  datatype Shape = Shape(pixelStride: nat, allocationSize: nat, planes: seq<Plane>)

  /** Whole pixels in a stride. */
  function Pixels(stride: nat, bytes: nat): nat
    requires bytes in {1, 2, 3, 4, 8}
  {
    if bytes == 1 then stride
    else if bytes == 2 then stride / 2
    else if bytes == 3 then stride / 3
    else if bytes == 4 then stride / 4
    else stride / 8
  }

  /** The `packed` helper: one plane of `bytes` per pixel. */
  function Packed(width: nat, height: nat, bytes: nat): Option<Shape>
    requires bytes in {1, 2, 3, 4, 8}
  {
    match Multiply(width, bytes)
    case None => None
    case Some(row) =>
      match Align(row, 64)
      case None => None
      case Some(stride) => PackedPlane(stride, Multiply(stride, height), bytes)
  }

  function PackedPlane(stride: nat, total: Option<nat>, bytes: nat): Option<Shape>
    requires bytes in {1, 2, 3, 4, 8}
  {
    if total.None? || total.value > MAX_ALLOCATION || stride >= U32 then None
    else Some(Shape(Pixels(stride, bytes) % U32, total.value, [Plane(0, stride % U32, total.value)]))
  }

  /** YV12 and YCBCR_420_888: luma and two chroma planes of a quarter of the samples. */
  function Planar420(width: nat, height: nat): Option<Shape> {
    if width % 2 != 0 || height % 2 != 0 then None
    else
      match Align(width, 64)
      case None => None
      case Some(stride) =>
        match Align(stride / 2, 16)
        case None => None
        case Some(chroma) => ThreePlanes(stride, chroma, Multiply(stride, height), Multiply(chroma, height / 2))
  }

  function ThreePlanes(stride: nat, chroma: nat, luma: Option<nat>, quarter: Option<nat>): Option<Shape> {
    if luma.None? || quarter.None? then None
    else
      var y, c := luma.value, quarter.value;
      match Multiply(c, 2)
      case None => None
      case Some(twice) =>
        match Add(y, twice)
        case None => None
        case Some(total) =>
          if total > MAX_ALLOCATION then None
          else Some(Shape(stride % U32, total,
                          [Plane(0, stride % U32, y), Plane(y, chroma % U32, c), Plane(y + c, chroma % U32, c)]))
  }

  /** NV21, P010 and P210: luma, and rows of interleaved chroma of the same stride. */
  function SemiPlanar(stride: Option<nat>, height: nat, chromaRows: nat, bytes: nat): Option<Shape>
    requires bytes in {1, 2}
  {
    match stride
    case None => None
    case Some(s) => TwoPlanes(s, Multiply(s, height), Multiply(s, chromaRows), bytes)
  }

  /** Stride of samples of two bytes. */
  function WideStride(width: nat): Option<nat> {
    match Multiply(width, 2)
    case None => None
    case Some(row) => Align(row, 64)
  }

  function TwoPlanes(stride: nat, luma: Option<nat>, chroma: Option<nat>, bytes: nat): Option<Shape>
    requires bytes in {1, 2}
  {
    if luma.None? || chroma.None? then None
    else
      var y, c := luma.value, chroma.value;
      match Add(y, c)
      case None => None
      case Some(total) =>
        if total > MAX_ALLOCATION then None
        else Some(Shape(Pixels(stride, bytes) % U32, total, [Plane(0, stride % U32, y), Plane(y, stride % U32, c)]))
  }

  function ShapeOf(format: PixelFormat, width: nat, height: nat): Option<Shape> {
    match format
    case Rgba8888 => Packed(width, height, 4)
    case Rgbx8888 => Packed(width, height, 4)
    case Bgra8888 => Packed(width, height, 4)
    case Rgb888 => Packed(width, height, 3)
    case Rgb565 => Packed(width, height, 2)
    case RgbaFp16 => Packed(width, height, 8)
    case Raw16 => if width % 2 == 0 && height % 2 == 0 then Packed(width, height, 2) else None
    case Blob => if height == 1 then Packed(width, height, 1) else None
    case Yv12 => Planar420(width, height)
    case Ycbcr420_888 => Planar420(width, height)
    case Ycrcb420Sp =>
      if width % 2 != 0 || height % 2 != 0 then None else SemiPlanar(Align(width, 64), height, height / 2, 1)
    case YcbcrP010 =>
      if width % 2 != 0 || height % 2 != 0 then None else SemiPlanar(WideStride(width), height, height / 2, 2)
    case YcbcrP210 =>
      if width % 2 != 0 then None else SemiPlanar(WideStride(width), height, height, 2)
    case OtherFormat(_) => None
  }

  predicate Transportable(shape: Shape) {
    shape.pixelStride <= INT32_MAX && forall p :: p in shape.planes ==> p.stride <= INT32_MAX
  }

  predicate DescriptorAccepted(d: Descriptor, rules: UsageRules) {
    && d.width > 0 && d.height > 0 && d.layerCount == 1 && 0 <= d.reservedSize <= MAX_RESERVED
    && UsageAccepted(d.usage, rules)
    && DataspaceOf(d.options, None).Some?
  }

  function BuildLayout(d: Descriptor, rules: UsageRules): Option<Layout> {
    if !DescriptorAccepted(d, rules) then None
    else
      match ShapeOf(d.format, d.width, d.height)
      case None => None
      case Some(shape) =>
        if !Transportable(shape) then None
        else
          var dataspace := DataspaceOf(d.options, None).value;
          Some(Layout(d.width, d.height, 1, d.format, d.usage, shape.pixelStride, Fourcc(d.format),
                      shape.allocationSize, d.reservedSize, if dataspace.None? then 0 else dataspace.value, d.name,
                      shape.planes))
  }

  // --- The same layouts in unbounded arithmetic ------------------------------------

  /** Bytes of one pixel of the formats stored in a single plane. */
  function PackedBytes(format: PixelFormat): nat {
    match format
    case Rgba8888 => 4
    case Rgbx8888 => 4
    case Bgra8888 => 4
    case Rgb888 => 3
    case Rgb565 => 2
    case RgbaFp16 => 8
    case Raw16 => 2
    case Blob => 1
    case _ => 0
  }

  /** Dimensions the format can be laid out with at all. */
  predicate Divisible(format: PixelFormat, width: nat, height: nat) {
    match format
    case OtherFormat(_) => false
    case Blob => height == 1
    case YcbcrP210 => width % 2 == 0
    case Raw16 => width % 2 == 0 && height % 2 == 0
    case _ => PackedBytes(format) > 0 || (width % 2 == 0 && height % 2 == 0)
  }

  /** Stride and rows of every plane, first to last. */
  function PlaneRows(format: PixelFormat, width: nat, height: nat): seq<(nat, nat)> {
    match format
    case Yv12 => var s := RoundUp(width, 64); [(s, height), (RoundUp(s / 2, 16), height / 2), (RoundUp(s / 2, 16), height / 2)]
    case Ycbcr420_888 => var s := RoundUp(width, 64); [(s, height), (RoundUp(s / 2, 16), height / 2), (RoundUp(s / 2, 16), height / 2)]
    case Ycrcb420Sp => var s := RoundUp(width, 64); [(s, height), (s, height / 2)]
    case YcbcrP010 => var s := RoundUp(width * 2, 64); [(s, height), (s, height / 2)]
    case YcbcrP210 => var s := RoundUp(width * 2, 64); [(s, height), (s, height)]
    case _ => [(RoundUp(Times(width, PackedBytes(format)), 64), height)]
  }

  function PlaneSize(rows: (nat, nat)): nat { Times(rows.0, rows.1) }

  /** Planes of the given strides and rows, one behind the other from `offset`. */
  function Stack(rows: seq<(nat, nat)>, offset: nat): seq<Plane> {
    if rows == [] then []
    else
      [Plane(offset, rows[0].0, PlaneSize(rows[0]))] + Stack(rows[1..], offset + PlaneSize(rows[0]))
  }

  function TotalSize(rows: seq<(nat, nat)>): nat {
    if rows == [] then 0 else PlaneSize(rows[0]) + TotalSize(rows[1..])
  }

  function PixelStride(format: PixelFormat, stride: nat): nat {
    match format
    case YcbcrP010 => stride / 2
    case YcbcrP210 => stride / 2
    case _ => if PackedBytes(format) > 0 then Pixels(stride, PackedBytes(format)) else stride
  }

  /** Whether the layout fits: 2 GiB at most, strides that pass through an int32. */
  predicate Fits(rows: seq<(nat, nat)>) {
    TotalSize(rows) <= MAX_ALLOCATION && forall i :: 0 <= i < |rows| ==> rows[i].0 <= INT32_MAX
  }

  predicate InRange(d: Descriptor) {
    d.width <= INT32_MAX && d.height <= INT32_MAX
  }

  function IdealShape(format: PixelFormat, width: nat, height: nat): Shape
    requires Divisible(format, width, height)
  {
    var rows := PlaneRows(format, width, height);
    Shape(PixelStride(format, rows[0].0), TotalSize(rows), Stack(rows, 0))
  }

  /** A product as the checked multiplication reports it. */
  function Checked(n: nat): Option<nat> {
    if n < U64 then Some(n) else None
  }

  lemma PackedIsIdeal(width: nat, height: nat, bytes: nat)
    requires bytes in {1, 2, 3, 4, 8} && 0 < width <= INT32_MAX
    ensures Packed(width, height, bytes) ==
            PackedPlane(RoundUp(Times(width, bytes), 64), Checked(Times(RoundUp(Times(width, bytes), 64), height)), bytes)
  {
    assert Times(width, bytes) <= 8 * INT32_MAX;
  }

  lemma PackedPlaneFits(stride: nat, total: nat, bytes: nat)
    requires bytes in {1, 2, 3, 4, 8}
    ensures PackedPlane(stride, Checked(total), bytes) ==
            if total <= MAX_ALLOCATION && stride < U32
            then Some(Shape(Pixels(stride, bytes), total, [Plane(0, stride, total)])) else None
  {
  }

  lemma Planar420IsIdeal(width: nat, height: nat)
    requires 0 < width <= INT32_MAX && width % 2 == 0 && height % 2 == 0
    ensures var s := RoundUp(width, 64);
            var c := RoundUp(s / 2, 16);
            Planar420(width, height) == ThreePlanes(s, c, Checked(Times(s, height)), Checked(Times(c, height / 2))) &&
            s < U32 && c < U32
  {
    StridesAreIdeal(width);
    ChromaStrideIsIdeal(RoundUp(width, 64));
  }

  lemma ChromaStrideIsIdeal(s: nat)
    requires s < U32
    ensures Align(s / 2, 16) == Some(RoundUp(s / 2, 16)) && RoundUp(s / 2, 16) < U32
  {
  }

  lemma ThreePlanesFit(stride: nat, chroma: nat, y: nat, c: nat)
    requires stride < U32 && chroma < U32
    ensures ThreePlanes(stride, chroma, Checked(y), Checked(c)) ==
            if y + c + c <= MAX_ALLOCATION
            then Some(Shape(stride, y + c + c, [Plane(0, stride, y), Plane(y, chroma, c), Plane(y + c, chroma, c)])) else None
  {
  }

  lemma TwoPlanesFit(stride: nat, y: nat, c: nat, bytes: nat)
    requires bytes in {1, 2} && stride <= y
    ensures TwoPlanes(stride, Checked(y), Checked(c), bytes) ==
            if y + c <= MAX_ALLOCATION
            then Some(Shape(Pixels(stride, bytes), y + c, [Plane(0, stride, y), Plane(y, stride, c)])) else None
  {
    PixelsAtMost(stride, bytes);
  }

  lemma StridesAreIdeal(width: nat)
    requires 0 < width <= INT32_MAX
    ensures Align(width, 64) == Some(RoundUp(width, 64)) && width <= RoundUp(width, 64) < U32
    ensures WideStride(width) == Some(RoundUp(width * 2, 64)) && width * 2 <= RoundUp(width * 2, 64) <= U32
  {
  }

  /**
   * The checked arithmetic decides exactly like unbounded arithmetic: no
   * intermediate wraps unnoticed, and none is refused that the size limits
   * would have let through.
   */
  lemma ShapeIsIdeal(format: PixelFormat, width: nat, height: nat)
    requires 0 < width <= INT32_MAX && 0 < height <= INT32_MAX
    ensures var shape := ShapeOf(format, width, height);
            if shape.Some? && Transportable(shape.value)
            then Divisible(format, width, height) && Fits(PlaneRows(format, width, height)) &&
                 shape.value == IdealShape(format, width, height)
            else !Divisible(format, width, height) || !Fits(PlaneRows(format, width, height))
  {
    if Divisible(format, width, height) {
      if PackedBytes(format) > 0 {
        PackedShapeIsIdeal(format, width, height);
      } else if format.Yv12? || format.Ycbcr420_888? {
        PlanarShapeIsIdeal(format, width, height);
      } else {
        SemiPlanarShapeIsIdeal(format, width, height);
      }
    }
  }

  lemma PackedShapeIsIdeal(format: PixelFormat, width: nat, height: nat)
    requires 0 < width <= INT32_MAX && 0 < height <= INT32_MAX && PackedBytes(format) > 0 && Divisible(format, width, height)
    ensures var shape := ShapeOf(format, width, height);
            if shape.Some? && Transportable(shape.value)
            then Fits(PlaneRows(format, width, height)) && shape.value == IdealShape(format, width, height)
            else !Fits(PlaneRows(format, width, height))
  {
    var bytes := PackedBytes(format);
    var stride := RoundUp(Times(width, bytes), 64);
    PackedIsIdeal(width, height, bytes);
    PackedPlaneFits(stride, Times(stride, height), bytes);
    var rows := PlaneRows(format, width, height);
    assert rows == [(stride, height)];
    assert ShapeOf(format, width, height) == Packed(width, height, bytes);
    OnePlane(stride, height);
    PixelsAtMost(stride, bytes);
  }

  lemma OnePlane(stride: nat, height: nat)
    ensures Stack([(stride, height)], 0) == [Plane(0, stride, Times(stride, height))]
    ensures TotalSize([(stride, height)]) == Times(stride, height)
  {
  }

  lemma PixelsAtMost(stride: nat, bytes: nat)
    requires bytes in {1, 2, 3, 4, 8}
    ensures Pixels(stride, bytes) <= stride
  {
  }

  lemma PlanarShapeIsIdeal(format: PixelFormat, width: nat, height: nat)
    requires 0 < width <= INT32_MAX && 0 < height <= INT32_MAX
    requires (format.Yv12? || format.Ycbcr420_888?) && Divisible(format, width, height)
    ensures var shape := ShapeOf(format, width, height);
            if shape.Some? && Transportable(shape.value)
            then Fits(PlaneRows(format, width, height)) && shape.value == IdealShape(format, width, height)
            else !Fits(PlaneRows(format, width, height))
  {
    var s := RoundUp(width, 64);
    var c := RoundUp(s / 2, 16);
    Planar420IsIdeal(width, height);
    ThreePlanesFit(s, c, Times(s, height), Times(c, height / 2));
    ThreeStacked(s, height, c, height / 2);
    assert PlaneRows(format, width, height) == [(s, height), (c, height / 2), (c, height / 2)];
  }

  lemma ThreeStacked(s: nat, h: nat, c: nat, q: nat)
    ensures Stack([(s, h), (c, q), (c, q)], 0) ==
            [Plane(0, s, Times(s, h)), Plane(Times(s, h), c, Times(c, q)),
             Plane(Times(s, h) + Times(c, q), c, Times(c, q))]
    ensures TotalSize([(s, h), (c, q), (c, q)]) == Times(s, h) + Times(c, q) + Times(c, q)
  {
    var rows := [(s, h), (c, q), (c, q)];
    assert rows[1..] == [(c, q), (c, q)] && rows[1..][1..] == [(c, q)];
    assert Stack([(c, q)], Times(s, h) + Times(c, q)) == [Plane(Times(s, h) + Times(c, q), c, Times(c, q))];
    assert TotalSize([(c, q)]) == Times(c, q);
  }

  lemma SemiPlanarShapeIsIdeal(format: PixelFormat, width: nat, height: nat)
    requires 0 < width <= INT32_MAX && 0 < height <= INT32_MAX
    requires (format.Ycrcb420Sp? || format.YcbcrP010? || format.YcbcrP210?) && Divisible(format, width, height)
    ensures var shape := ShapeOf(format, width, height);
            if shape.Some? && Transportable(shape.value)
            then Fits(PlaneRows(format, width, height)) && shape.value == IdealShape(format, width, height)
            else !Fits(PlaneRows(format, width, height))
  {
    StridesAreIdeal(width);
    var s := if format.Ycrcb420Sp? then RoundUp(width, 64) else RoundUp(width * 2, 64);
    var rows := if format.YcbcrP210? then height else height / 2;
    var bytes := if format.Ycrcb420Sp? then 1 else 2;
    Grows(s, height);
    TwoStacked(s, height, rows);
    SemiPlanarParts(format, width, height, s, rows, bytes);
    var y, c := Times(s, height), Times(s, rows);
    TwoPlanesFit(s, y, c, bytes);
    PixelsAtMost(s, bytes);
  }

  lemma SemiPlanarParts(format: PixelFormat, width: nat, height: nat, s: nat, rows: nat, bytes: nat)
    requires 0 < width <= INT32_MAX && 0 < height <= INT32_MAX
    requires (format.Ycrcb420Sp? || format.YcbcrP010? || format.YcbcrP210?) && Divisible(format, width, height)
    requires s == if format.Ycrcb420Sp? then RoundUp(width, 64) else RoundUp(width * 2, 64)
    requires rows == if format.YcbcrP210? then height else height / 2
    requires bytes == if format.Ycrcb420Sp? then 1 else 2
    ensures PlaneRows(format, width, height) == [(s, height), (s, rows)]
    ensures ShapeOf(format, width, height) == TwoPlanes(s, Checked(Times(s, height)), Checked(Times(s, rows)), bytes)
    ensures PixelStride(format, s) == Pixels(s, bytes)
  {
    StridesAreIdeal(width);
  }

  lemma TwoStacked(s: nat, h: nat, q: nat)
    ensures Stack([(s, h), (s, q)], 0) == [Plane(0, s, Times(s, h)), Plane(Times(s, h), s, Times(s, q))]
    ensures TotalSize([(s, h), (s, q)]) == Times(s, h) + Times(s, q)
  {
    assert [(s, h), (s, q)][1..] == [(s, q)];
    assert Stack([(s, q)], Times(s, h)) == [Plane(Times(s, h), s, Times(s, q))];
    assert TotalSize([(s, q)]) == Times(s, q);
  }

  /** Multiplying by a positive number does not make smaller. */
  lemma Grows(a: nat, b: nat)
    requires b > 0
    ensures Times(a, b) >= a
  {
  }

  /** Accepted are exactly the descriptors whose unbounded layout fits, and they get that layout. */
  lemma BuildLayoutIsIdeal(d: Descriptor, rules: UsageRules)
    requires InRange(d)
    ensures BuildLayout(d, rules).Some? <==>
            DescriptorAccepted(d, rules) && Divisible(d.format, d.width, d.height) &&
            Fits(PlaneRows(d.format, d.width, d.height))
    ensures BuildLayout(d, rules).Some? ==>
            var l := BuildLayout(d, rules).value;
            Shape(l.pixelStride, l.allocationSize, l.planes) == IdealShape(d.format, d.width, d.height)
  {
    if d.width > 0 && d.height > 0 {
      ShapeIsIdeal(d.format, d.width, d.height);
    }
  }

  /** A layout depends on the name and the options only in the two fields that repeat them. */
  lemma NameAndOptionsAside(d: Descriptor, rules: UsageRules)
    requires BuildLayout(d, rules).Some?
    ensures BuildLayout(d.(name := "", options := []), rules) ==
            Some(BuildLayout(d, rules).value.(name := "", dataspace := 0))
  {
    assert DataspaceOf([], None) == Some(None);
  }

  // --- Planes ------------------------------------------------------------------------

  /** Non-empty planes, one behind the other from `from` to `to`. */
  ghost predicate Tile(planes: seq<Plane>, from: nat, to: nat) {
    if planes == [] then from == to
    else planes[0].offset == from && planes[0].size > 0 && Tile(planes[1..], from + planes[0].size, to)
  }

  /** The byte belongs to the plane. */
  predicate Holds(p: Plane, byte: int) {
    p.offset <= byte < p.offset + p.size
  }

  /** Tiling planes lie in the range and in order. */
  lemma {:induction false} TileOrdered(planes: seq<Plane>, from: nat, to: nat, i: nat, j: nat)
    requires Tile(planes, from, to) && i <= j < |planes|
    ensures from <= planes[i].offset && planes[j].offset + planes[j].size <= to
    ensures i < j ==> planes[i].offset + planes[i].size <= planes[j].offset
  {
    if i > 0 {
      TileOrdered(planes[1..], from + planes[0].size, to, i - 1, j - 1);
    } else if j > 0 {
      TileOrdered(planes[1..], from + planes[0].size, to, 0, j - 1);
      TileOrdered(planes[1..], from + planes[0].size, to, j - 1, j - 1);
    } else if |planes| > 1 {
      TileOrdered(planes[1..], from + planes[0].size, to, 0, 0);
    }
  }

  /** Every byte of the range belongs to exactly one of the planes. */
  lemma {:induction false} TileCovers(planes: seq<Plane>, from: nat, to: nat, byte: nat)
    requires Tile(planes, from, to)
    ensures from <= byte < to <==> exists i :: 0 <= i < |planes| && Holds(planes[i], byte)
    ensures forall i, j :: 0 <= i < j < |planes| ==> !(Holds(planes[i], byte) && Holds(planes[j], byte))
  {
    forall i, j | 0 <= i <= j < |planes|
      ensures from <= planes[i].offset && planes[j].offset + planes[j].size <= to
      ensures i < j ==> planes[i].offset + planes[i].size <= planes[j].offset
    {
      TileOrdered(planes, from, to, i, j);
    }
    if from <= byte < to {
      if Holds(planes[0], byte) {
      } else {
        TileCovers(planes[1..], from + planes[0].size, to, byte);
        var k :| 0 <= k < |planes[1..]| && Holds(planes[1..][k], byte);
        assert Holds(planes[k + 1], byte);
      }
    }
  }

  lemma {:induction false} StackTiles(rows: seq<(nat, nat)>, offset: nat)
    requires forall i :: 0 <= i < |rows| ==> rows[i].0 > 0 && rows[i].1 > 0
    ensures Tile(Stack(rows, offset), offset, offset + TotalSize(rows))
    ensures |Stack(rows, offset)| == |rows|
    ensures forall i :: 0 <= i < |rows| ==>
              Stack(rows, offset)[i].stride == rows[i].0 && Stack(rows, offset)[i].size == PlaneSize(rows[i])
  {
    if rows != [] {
      var size := PlaneSize(rows[0]);
      Grows(rows[0].0, rows[0].1);
      StackTiles(rows[1..], offset + size);
      assert Stack(rows, offset)[1..] == Stack(rows[1..], offset + size);
    }
  }

  lemma RowsPositive(format: PixelFormat, width: nat, height: nat)
    requires width > 0 && height > 0 && Divisible(format, width, height)
    ensures var rows := PlaneRows(format, width, height);
            rows != [] && forall i :: 0 <= i < |rows| ==> rows[i].0 > 0 && rows[i].1 > 0
  {
    RoundUpIsMultiple(width, 64);
    RoundUpIsMultiple(width * 2, 64);
    RoundUpIsMultiple(RoundUp(width, 64) / 2, 16);
    if PackedBytes(format) > 0 {
      Grows(width, PackedBytes(format));
      RoundUpIsMultiple(Times(width, PackedBytes(format)), 64);
    }
  }

  /** The planes of every layout BuildLayout accepts tile its allocation. */
  lemma LayoutTiles(d: Descriptor, rules: UsageRules)
    requires InRange(d) && BuildLayout(d, rules).Some?
    ensures var l := BuildLayout(d, rules).value;
            && Tile(l.planes, 0, l.allocationSize)
            && 0 < l.allocationSize <= MAX_ALLOCATION && 0 < l.pixelStride <= INT32_MAX
            && |l.planes| == |PlaneRows(d.format, d.width, d.height)|
            && forall i :: 0 <= i < |l.planes| ==>
                 0 < l.planes[i].stride <= INT32_MAX && l.planes[i].size == PlaneSize(PlaneRows(d.format, d.width, d.height)[i])
  {
    BuildLayoutIsIdeal(d, rules);
    RowsPositive(d.format, d.width, d.height);
    StackTiles(PlaneRows(d.format, d.width, d.height), 0);
    PixelStridePositive(d.format, d.width, d.height);
    var l := BuildLayout(d, rules).value;
    assert l.planes[0].size > 0;
    TileOrdered(l.planes, 0, l.allocationSize, 0, 0);
  }

  lemma PixelStridePositive(format: PixelFormat, width: nat, height: nat)
    requires width > 0 && Divisible(format, width, height)
    ensures PixelStride(format, PlaneRows(format, width, height)[0].0) > 0
  {
    RoundUpIsMultiple(width, 64);
    RoundUpIsMultiple(width * 2, 64);
    if PackedBytes(format) > 0 {
      Grows(width, PackedBytes(format));
      RoundUpIsMultiple(Times(width, PackedBytes(format)), 64);
    }
  }
}
