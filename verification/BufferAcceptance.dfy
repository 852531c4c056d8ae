/**
 * Which descriptors get a layout, told without the functions that check them, and that the layout wastes
 * nothing (interfaces/graphics/allocator/fb/Buffer.cpp).
 */
module BufferAcceptance {
  import opened BufferLayout
  import opened BufferSamples
  import opened Common

  // --- Which descriptors ---------------------------------------------------------------

  /** No bits but known ones. */
  lemma NoOthers(usage: bv64, known: bv64)
    requires NoneOf(usage, !known)
    ensures usage & known == usage
  {
  }

  lemma OnlyThese(usage: bv64, known: bv64)
    requires usage & known == usage
    ensures NoneOf(usage, !known)
  {
  }

  lemma LevelIff(usage: bv64, mask: bv64, levels: set<bv64>)
    ensures LevelIn(usage, mask, levels) <==> exists level :: level in levels && usage & mask == level
  {
  }

  /** No bit that is not known, none that is protected, and both CPU fields at a level there is. */
  predicate UsageAllowed(usage: bv64, rules: UsageRules) {
    NoneOf(usage, !rules.known) && NoneOf(usage, rules.protected_) &&
    LevelIn(usage, rules.readMask, rules.readLevels) && LevelIn(usage, rules.writeMask, rules.writeLevels)
  }

  /** No option but the dataspace, and that once at most. */
  lemma OptionsIff(options: seq<OptionEntry>)
    ensures
      var r := DataspaceOf(options, None);
      (r.Some? <==> |options| <= 1 && forall o :: o in options ==> o.DataspaceOption?) &&
      (r.Some? ==> r.value == if options == [] then None else Some(options[0].value))
  {
    if options != [] && options[0].DataspaceOption? {
      OptionsAfterOne(options[1..], options[0].value);
    }
  }

  lemma OptionsAfterOne(options: seq<OptionEntry>, value: int)
    ensures DataspaceOf(options, Some(value)) == if options == [] then Some(Some(value)) else None
  {
  }

  /** Formats made of cells of two pixels or two rows need whole ones; a blob is one row. */
  ghost predicate WholeCells(format: PixelFormat, width: nat, height: nat) {
    !format.OtherFormat? && (format.Blob? ==> height == 1) &&
    (format in {Raw16, Yv12, Ycbcr420_888, Ycrcb420Sp, YcbcrP010, YcbcrP210} ==> width % 2 == 0) &&
    (format in {Raw16, Yv12, Ycbcr420_888, Ycrcb420Sp, YcbcrP010} ==> height % 2 == 0)
  }

  lemma CellsIff(format: PixelFormat, width: nat, height: nat)
    ensures Divisible(format, width, height) <==> WholeCells(format, width, height)
  {
  }

  /** What the caller can see before the call. */
  ghost predicate Sound(d: Descriptor) {
    d.width > 0 && d.height > 0 && d.layerCount == 1 && 0 <= d.reservedSize <= 0x100_0000 &&
    |d.options| <= 1 && (forall o :: o in d.options ==> o.DataspaceOption?) &&
    WholeCells(d.format, d.width, d.height)
  }

  /** The layout says what was asked for. */
  ghost predicate Repeats(l: Layout, d: Descriptor) {
    l.width == d.width && l.height == d.height && l.layerCount == 1 && l.format == d.format && l.usage == d.usage &&
    l.reservedSize == d.reservedSize && l.name == d.name &&
    l.dataspace == if d.options != [] && d.options[0].DataspaceOption? then d.options[0].value else 0
  }

  lemma SoundIff(d: Descriptor, rules: UsageRules)
    ensures Sound(d) && UsageAccepted(d.usage, rules) <==>
      DescriptorAccepted(d, rules) && Divisible(d.format, d.width, d.height)
  {
    OptionsIff(d.options);
    if d.width > 0 && d.height > 0 {
      CellsIff(d.format, d.width, d.height);
    }
  }

  lemma UsageIff(word: uint64, rules: UsageRules)
    ensures UsageAccepted(word, rules) <==> UsageAllowed(word as bv64, rules)
  {
  }

  lemma BuiltRepeats(d: Descriptor, rules: UsageRules)
    requires BuildLayout(d, rules).Some?
    ensures Repeats(BuildLayout(d, rules).value, d)
  {
    OptionsIff(d.options);
  }

  /** A descriptor gets a layout if and only if it is sound, its usage is allowed and its planes fit; then that repeats it. */
  lemma AcceptedIff(d: Descriptor, rules: UsageRules)
    requires InRange(d)
    ensures BuildLayout(d, rules).Some? <==>
      Sound(d) && UsageAccepted(d.usage, rules) && Fits(PlaneRows(d.format, d.width, d.height))
    ensures BuildLayout(d, rules).Some? ==> Repeats(BuildLayout(d, rules).value, d)
  {
    BuildLayoutIsIdeal(d, rules);
    SoundIff(d, rules);
    if BuildLayout(d, rules).Some? {
      BuiltRepeats(d, rules);
    }
  }

  // --- What the layout wastes ----------------------------------------------------------

  /** The least multiple of 64 bytes that holds so many bits. */
  ghost predicate LeastStride(stride: nat, bits: nat) {
    stride % 64 == 0 && bits <= 8 * stride && forall s: nat :: s % 64 == 0 && bits <= 8 * s ==> stride <= s
  }

  lemma RoundedIsLeast(bytes: nat)
    ensures LeastStride(RoundUp(bytes, 64), 8 * bytes)
  {
    RoundUpIsMultiple(bytes, 64);
    forall s: nat | s % 64 == 0 && 8 * bytes <= 8 * s ensures RoundUp(bytes, 64) <= s {
      RoundUpIsLeast(bytes, 64, s);
    }
  }

  /** The first plane has the least stride, the others that of the first or half of it; no row is to spare. */
  ghost predicate Tight(l: Layout, planes: seq<SamplePlane>) {
    |planes| == |l.planes| > 0 && LeastStride(l.planes[0].stride, Times(planes[0].increment, planes[0].width)) &&
    (forall i :: 0 < i < |planes| ==>
       l.planes[i].stride * (if |planes| == 3 then 2 else 1) == l.planes[0].stride) &&
    (forall i :: 0 <= i < |planes| ==>
       planes[i].stride == l.planes[i].stride && l.planes[i].size == Times(l.planes[i].stride, planes[i].height))
  }

  /** The pixel stride counts the whole pixels of a row of the first plane. */
  ghost predicate WholePixels(l: Layout, planes: seq<SamplePlane>) {
    planes != [] && l.planes != [] && l.pixelStride >= l.width &&
    Times(planes[0].increment, l.pixelStride) <= 8 * l.planes[0].stride < Times(planes[0].increment, l.pixelStride + 1)
  }

  lemma PixelsAreWhole(stride: nat, bytes: nat, width: nat)
    requires bytes in {1, 2, 3, 4, 8} && Times(bytes, width) <= stride
    ensures
      var pixels := Pixels(stride, bytes);
      Times(8 * bytes, pixels) <= 8 * stride < Times(8 * bytes, pixels + 1) && width <= pixels
  {
  }

  lemma PackedTight(l: Layout)
    requires Proportioned(l) && PackedBytes(l.format) > 0
    requires l.pixelStride == PixelStride(l.format, l.planes[0].stride)
    ensures |l.planes| == PlaneCount(l.format) && Tight(l, GetPlaneLayouts(l)) && WholePixels(l, GetPlaneLayouts(l))
  {
    var bytes := PackedBytes(l.format);
    Counts(l);
    PackedApart(l);
    RoundedIsLeast(Times(l.width, bytes));
    RowFits(l.width, bytes);
    RoundUpIsMultiple(Times(l.width, bytes), 64);
    PixelsAreWhole(l.planes[0].stride, bytes, l.width);
  }

  lemma PlanarTight(l: Layout)
    requires Proportioned(l) && (l.format.Yv12? || l.format.Ycbcr420_888?)
    requires l.pixelStride == PixelStride(l.format, l.planes[0].stride)
    ensures |l.planes| == PlaneCount(l.format) && Tight(l, GetPlaneLayouts(l)) && WholePixels(l, GetPlaneLayouts(l))
  {
    Counts(l);
    RoundedIsLeast(l.width);
    RoundUpIsMultiple(l.width, 64);
    HalfIsMultiple(RoundUp(l.width, 64));
    PixelsAreWhole(l.planes[0].stride, 1, l.width);
  }

  lemma HalfIsMultiple(stride: nat)
    requires stride % 64 == 0
    ensures RoundUp(stride / 2, 16) * 2 == stride
  {
  }

  lemma SemiPlanarTight(l: Layout)
    requires Proportioned(l) && (l.format.Ycrcb420Sp? || l.format.YcbcrP010? || l.format.YcbcrP210?)
    requires l.pixelStride == PixelStride(l.format, l.planes[0].stride)
    ensures |l.planes| == PlaneCount(l.format) && Tight(l, GetPlaneLayouts(l)) && WholePixels(l, GetPlaneLayouts(l))
  {
    Counts(l);
    RoundedIsLeast(l.width);
    RoundedIsLeast(l.width * 2);
    RoundUpIsMultiple(l.width, 64);
    RoundUpIsMultiple(l.width * 2, 64);
  }

  /** Strides are the least there can be, planes have no row to spare, and the pixel stride is that of a row. */
  lemma LayoutIsTight(d: Descriptor, rules: UsageRules)
    requires InRange(d) && BuildLayout(d, rules).Some?
    ensures
      var l := BuildLayout(d, rules).value;
      |l.planes| == PlaneCount(l.format) && Tight(l, GetPlaneLayouts(l)) && WholePixels(l, GetPlaneLayouts(l))
  {
    var l := BuildLayout(d, rules).value;
    BuiltProportioned(d, rules);
    BuildLayoutIsIdeal(d, rules);
    if PackedBytes(l.format) > 0 {
      PackedTight(l);
    } else if l.format.Yv12? || l.format.Ycbcr420_888? {
      PlanarTight(l);
    } else {
      SemiPlanarTight(l);
    }
  }
}
