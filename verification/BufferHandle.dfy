/**
 * The native handle of a framebuffer gralloc buffer: the integers AllocateHandle
 * writes and ValidateHandle accepts (interfaces/graphics/allocator/fb/Buffer.cpp).
 */
module BufferHandle {
  import opened Common
  import opened BufferLayout

  type int32 = x: int | -0x8000_0000 <= x < 0x8000_0000

  const HANDLE_MAGIC: int32 := 0x4642_4735
  const ABI_VERSION: int32 := 1
  const MAX_PLANES: nat := 3
  const HANDLE_FDS: nat := 2
  const HANDLE_INTS: nat := 17 + 5 * MAX_PLANES
  // sizeof(native_handle_t), and of the metadata header in front of the reserved bytes.
  const HANDLE_VERSION: nat := 12
  const METADATA_HEADER: nat := 1288
  const OFF_T_MAX: nat := 0x7fff_ffff_ffff_ffff

  // --- Integers ----------------------------------------------------------------------

  function ToUint32(i: int32): (u: nat)
    ensures u < U32
  {
    if i >= 0 then i else i + U32
  }

  function Low(value: uint64): int32 { ToInt32(value) }

  function High(value: uint64): int32 { ToInt32(value / U32) }

  /** JoinU64; the halves do not overlap, so the source's bitwise or is a sum. */
  function Join(low: int32, high: int32): uint64 {
    ToUint32(low) + ToUint32(high) * U32
  }

  lemma SplitJoins(value: uint64)
    ensures Join(Low(value), High(value)) == value
  {
  }

  lemma JoinSplits(low: int32, high: int32)
    ensures Low(Join(low, high)) == low && High(Join(low, high)) == high
  {
  }

  lemma CastsBack(u: nat, i: int32)
    ensures u < U32 ==> ToUint32(ToInt32(u)) == u
    ensures ToInt32(ToUint32(i)) == i
  {
  }

  function FormatCode(format: PixelFormat): int {
    match format
    case Rgba8888 => 1
    case Rgbx8888 => 2
    case Rgb888 => 3
    case Rgb565 => 4
    case Bgra8888 => 5
    case Ycrcb420Sp => 0x11
    case RgbaFp16 => 0x16
    case Raw16 => 0x20
    case Blob => 0x21
    case Ycbcr420_888 => 0x23
    case YcbcrP010 => 0x36
    case YcbcrP210 => 0x3c
    case Yv12 => 0x3231_5659
    case OtherFormat(code) => code
  }

  function FormatOf(code: int): (format: PixelFormat)
    ensures FormatCode(format) == code
  {
    if code == 1 then Rgba8888
    else if code == 2 then Rgbx8888
    else if code == 3 then Rgb888
    else if code == 4 then Rgb565
    else if code == 5 then Bgra8888
    else if code == 0x11 then Ycrcb420Sp
    else if code == 0x16 then RgbaFp16
    else if code == 0x20 then Raw16
    else if code == 0x21 then Blob
    else if code == 0x23 then Ycbcr420_888
    else if code == 0x36 then YcbcrP010
    else if code == 0x3c then YcbcrP210
    else if code == 0x3231_5659 then Yv12
    else OtherFormat(code)
  }

  /** ExpectedHandleFormat. */
  predicate ExpectedFormat(format: PixelFormat, planeCount: int, fourcc: nat) {
    match format
    case OtherFormat(_) => false
    case Yv12 => planeCount == 3 && fourcc == Fourcc(format)
    case Ycbcr420_888 => planeCount == 3 && fourcc == Fourcc(format)
    case Ycrcb420Sp => planeCount == 2 && fourcc == Fourcc(format)
    case YcbcrP010 => planeCount == 2 && fourcc == Fourcc(format)
    case YcbcrP210 => planeCount == 2 && fourcc == Fourcc(format)
    case _ => planeCount == 1 && fourcc == Fourcc(format)
  }

  // --- Encoding ----------------------------------------------------------------------

  /** A layout whose numbers have the widths of the source's fields. */
  ghost predicate Typed(l: Layout) {
    && l.width < U32 && l.height < U32 && l.layerCount < U32 && l.pixelStride < U32 && l.fourcc < U32
    && l.allocationSize < U64 && l.reservedSize < U64
    && -0x8000_0000 <= FormatCode(l.format) < 0x8000_0000
    && |l.planes| <= MAX_PLANES
    && forall p :: p in l.planes ==> p.offset < U64 && p.stride < U32 && p.size < U64
  }

  function Head(l: Layout, id: uint64): seq<int32>
    requires Typed(l)
  {
    [HANDLE_MAGIC, ABI_VERSION, ToInt32(l.width), ToInt32(l.height), ToInt32(l.layerCount), FormatCode(l.format),
     Low(l.usage), High(l.usage), ToInt32(l.pixelStride), ToInt32(l.fourcc),
     Low(l.allocationSize), High(l.allocationSize), Low(id), High(id), Low(l.reservedSize), High(l.reservedSize),
     |l.planes|]
  }

  function PlaneInts(p: Plane): seq<int32>
    requires p.offset < U64 && p.stride < U32 && p.size < U64
  {
    [Low(p.offset), High(p.offset), ToInt32(p.stride), Low(p.size), High(p.size)]
  }

  /** The integers of the first `n` plane slots; slots past the last plane are zero. */
  function Slots(planes: seq<Plane>, n: nat): (r: seq<int32>)
    requires forall p :: p in planes ==> p.offset < U64 && p.stride < U32 && p.size < U64
    ensures |r| == 5 * n
  {
    if n == 0 then []
    else Slots(planes, n - 1) + if n <= |planes| then PlaneInts(planes[n - 1]) else [0, 0, 0, 0, 0]
  }

  function Encode(l: Layout, id: uint64): (r: seq<int32>)
    requires Typed(l)
    ensures |r| == HANDLE_INTS
  {
    Head(l, id) + Slots(l.planes, MAX_PLANES)
  }

  datatype Handle = Handle(version: nat, fds: seq<int>, ints: seq<int32>)

  /** What fstat and F_GET_SEALS say about the two backing files. */
  datatype Backing = Backing(readable: bool, pixelSize: int, metadataSize: int, sealed: bool)

  method Store(data: array<int32>, base: nat, ints: seq<int32>)
    requires base + |ints| <= data.Length
    modifies data
    ensures data[..base] == old(data[..base]) && data[base..base + |ints|] == ints
  {
    for k := 0 to |ints|
      invariant data[..base] == old(data[..base]) && data[base..base + k] == ints[..k]
    {
      data[base + k] := ints[k];
    }
  }

  /** What the loop writes for slot i. */
  function SlotInts(planes: seq<Plane>, i: nat): (r: seq<int32>)
    requires forall p :: p in planes ==> p.offset < U64 && p.stride < U32 && p.size < U64
    ensures |r| == 5 && Slots(planes, i + 1) == Slots(planes, i) + r
  {
    if i < |planes| then PlaneInts(planes[i]) else [0, 0, 0, 0, 0]
  }

  lemma SlotBehind(head: seq<int32>, before: seq<int32>, slot: seq<int32>)
    ensures head + before + slot == head + (before + slot)
  {
  }

  /** AllocateHandle's integer part, writing the slots one after the other. */
  method WriteInts(l: Layout, id: uint64) returns (data: array<int32>)
    requires Typed(l)
    ensures fresh(data) && data[..] == Encode(l, id)
  {
    data := new int32[HANDLE_INTS];
    Store(data, 0, Head(l, id));
    for i := 0 to MAX_PLANES
      invariant data[..17 + 5 * i] == Head(l, id) + Slots(l.planes, i)
    {
      var ints := SlotInts(l.planes, i);
      StoreSlot(data, 17 + 5 * i, ints);
      SlotBehind(Head(l, id), Slots(l.planes, i), ints);
    }
    assert data[..] == data[..HANDLE_INTS];
  }

  method StoreSlot(data: array<int32>, base: nat, ints: seq<int32>)
    requires |ints| == 5 && base + 5 <= data.Length
    modifies data
    ensures data[..base + 5] == old(data[..base]) + ints
  {
    Store(data, base, ints);
    assert data[..base + 5] == data[..base] + data[base..base + 5];
  }

  /** CreateMemfd's limits on a file size. */
  predicate Creatable(size: nat) {
    0 < size <= OFF_T_MAX
  }

  /** AllocateHandle, given file descriptors for files of exactly the sizes asked for. */
  function AllocateHandle(l: Layout, id: uint64, pixelFd: int, metadataFd: int): Option<(Handle, Backing)>
    requires Typed(l)
  {
    match Add(METADATA_HEADER, l.reservedSize)
    case None => None
    case Some(metadata) =>
      if !Creatable(l.allocationSize) || !Creatable(metadata) then None
      else Some((Handle(HANDLE_VERSION, [pixelFd, metadataFd], Encode(l, id)), Backing(true, l.allocationSize, metadata, true)))
  }

  /** A handle is made if and only if both files can have their sizes; the second holds a header before the reserved bytes. */
  lemma AllocatedIff(l: Layout, id: uint64, pixelFd: int, metadataFd: int)
    requires Typed(l)
    ensures
      var made := AllocateHandle(l, id, pixelFd, metadataFd);
      (made.Some? <==>
         0 < l.allocationSize < 0x8000_0000_0000_0000 && METADATA_HEADER + l.reservedSize < 0x8000_0000_0000_0000) &&
      (made.Some? ==>
         made.value.0.fds == [pixelFd, metadataFd] && made.value.0.ints == Encode(l, id) &&
         made.value.1.pixelSize == l.allocationSize && made.value.1.metadataSize == METADATA_HEADER + l.reservedSize)
  {
  }

  // --- Validation --------------------------------------------------------------------

  datatype View = View(layout: Layout, id: uint64, pixelFd: int, metadataFd: int)

  predicate ShapeValid(h: Handle) {
    h.version == HANDLE_VERSION && |h.fds| == HANDLE_FDS && |h.ints| == HANDLE_INTS
  }

  predicate FieldsValid(h: Handle)
    requires ShapeValid(h)
  {
    var data := h.ints;
    && data[0] == HANDLE_MAGIC && data[1] == ABI_VERSION && data[2] > 0 && data[3] > 0 && data[4] == 1
    && data[8] > 0 && data[9] != 0
    && 0 < Join(data[10], data[11]) <= MAX_ALLOCATION && Join(data[14], data[15]) <= MAX_RESERVED
    && 0 < data[16] <= MAX_PLANES
    && h.fds[0] >= 0 && h.fds[1] >= 0
    && ExpectedFormat(FormatOf(data[5]), data[16], ToUint32(data[9]))
    && (FormatOf(data[5]).Blob? ==> data[3] == 1)
  }

  predicate BackingValid(h: Handle, files: Backing)
    requires ShapeValid(h)
  {
    match Add(METADATA_HEADER, Join(h.ints[14], h.ints[15]))
    case None => false
    case Some(required) =>
      files.readable && files.pixelSize >= Join(h.ints[10], h.ints[11]) && files.metadataSize >= required && files.sealed
  }

  function SlotPlane(ints: seq<int32>, i: nat): Plane
    requires |ints| == HANDLE_INTS && i < MAX_PLANES
  {
    var base := 17 + i * 5;
    Plane(Join(ints[base], ints[base + 1]), ToUint32(ints[base + 2]), Join(ints[base + 3], ints[base + 4]))
  }

  predicate PlaneValid(p: Plane, allocation: nat)
    requires p.offset < U64 && p.size < U64
  {
    p.stride != 0 && p.size != 0 && Add(p.offset, p.size).Some? && p.offset + p.size <= allocation
  }

  /** The first `n` planes, unless one of them is out of bounds. */
  function PlanesOf(ints: seq<int32>, allocation: nat, n: nat): Option<seq<Plane>>
    requires |ints| == HANDLE_INTS && n <= MAX_PLANES
  {
    if n == 0 then Some([])
    else
      var before := PlanesOf(ints, allocation, n - 1);
      if before.None? || !PlaneValid(SlotPlane(ints, n - 1), allocation) then None
      else Some(before.value + [SlotPlane(ints, n - 1)])
  }

  /** The layout the integers carry; the name and the initial dataspace are not among them. */
  function Carried(ints: seq<int32>, planes: seq<Plane>): Layout
    requires |ints| == HANDLE_INTS
  {
    Layout(ToUint32(ints[2]), ToUint32(ints[3]), ToUint32(ints[4]), FormatOf(ints[5]), Join(ints[6], ints[7]),
           ToUint32(ints[8]), ToUint32(ints[9]), Join(ints[10], ints[11]), Join(ints[14], ints[15]), 0, "", planes)
  }

  /** The descriptor ValidateHandle lays out again. */
  function DescriptorOf(l: Layout): Descriptor {
    Descriptor(ToInt32(l.width), ToInt32(l.height), ToInt32(l.layerCount), l.format, l.usage, l.reservedSize, "", [])
  }

  predicate Confirms(expected: Layout, l: Layout) {
    && expected.pixelStride == l.pixelStride && expected.fourcc == l.fourcc
    && expected.allocationSize == l.allocationSize && |expected.planes| == |l.planes|
    && forall i :: 0 <= i < |l.planes| ==> expected.planes[i] == l.planes[i]
  }

  function Validate(handle: Option<Handle>, files: Backing, rules: UsageRules): Option<View> {
    if handle.None? || !ShapeValid(handle.value) then None
    else
      var h := handle.value;
      if !FieldsValid(h) || !BackingValid(h, files) then None
      else
        match PlanesOf(h.ints, Join(h.ints[10], h.ints[11]), h.ints[16])
        case None => None
        case Some(planes) =>
          var l := Carried(h.ints, planes);
          match BuildLayout(DescriptorOf(l), rules)
          case None => None
          case Some(expected) =>
            if Confirms(expected, l) then Some(View(l, Join(h.ints[12], h.ints[13]), h.fds[0], h.fds[1])) else None
  }

  /** ValidateHandle. */
  method ValidateHandle(handle: Option<Handle>, files: Backing, rules: UsageRules) returns (view: Option<View>)
    ensures view == Validate(handle, files, rules)
  {
    if handle.None? || !ShapeValid(handle.value) { return None; }
    var h := handle.value;
    if !FieldsValid(h) || !BackingValid(h, files) { return None; }
    var planes := GatherPlanes(h.ints, Join(h.ints[10], h.ints[11]), h.ints[16]);
    if planes.None? { return None; }
    var l := Carried(h.ints, planes.value);
    var expected := BuildLayout(DescriptorOf(l), rules);
    if expected.None? { return None; }
    var same := Compare(expected.value, l);
    return if same then Some(View(l, Join(h.ints[12], h.ints[13]), h.fds[0], h.fds[1])) else None;
  }

  /** The first plane loop of ValidateHandle: bounds. */
  method GatherPlanes(ints: seq<int32>, allocation: nat, count: nat) returns (r: Option<seq<Plane>>)
    requires |ints| == HANDLE_INTS && count <= MAX_PLANES
    ensures r == PlanesOf(ints, allocation, count)
  {
    var planes: seq<Plane> := [];
    for i := 0 to count
      invariant PlanesOf(ints, allocation, i) == Some(planes)
    {
      var plane := SlotPlane(ints, i);
      if !PlaneValid(plane, allocation) {
        RejectedEarly(ints, allocation, i + 1, count);
        return None;
      }
      planes := planes + [plane];
    }
    return Some(planes);
  }

  /** The second: against the layout the descriptor gives. */
  method Compare(expected: Layout, l: Layout) returns (same: bool)
    ensures same <==> Confirms(expected, l)
  {
    if expected.pixelStride != l.pixelStride || expected.fourcc != l.fourcc ||
       expected.allocationSize != l.allocationSize || |expected.planes| != |l.planes| {
      return false;
    }
    for i := 0 to |l.planes|
      invariant forall k :: 0 <= k < i ==> expected.planes[k] == l.planes[k]
    {
      if expected.planes[i] != l.planes[i] { return false; }
    }
    return true;
  }

  lemma {:induction false} RejectedEarly(ints: seq<int32>, allocation: nat, i: nat, n: nat)
    requires |ints| == HANDLE_INTS && i <= n <= MAX_PLANES
    requires PlanesOf(ints, allocation, i).None?
    ensures PlanesOf(ints, allocation, n).None?
  {
    if i < n { RejectedEarly(ints, allocation, i, n - 1); }
  }

  // --- Round trips -------------------------------------------------------------------

  /** Everything a handle carries of a layout. */
  function Transported(l: Layout): Layout {
    l.(name := "", dataspace := 0)
  }

  lemma {:induction false} SlotsAt(planes: seq<Plane>, n: nat, i: nat)
    requires forall p :: p in planes ==> p.offset < U64 && p.stride < U32 && p.size < U64
    requires i < n && i < |planes|
    ensures Slots(planes, n)[5 * i..5 * i + 5] == PlaneInts(planes[i])
  {
    if i < n - 1 { SlotsAt(planes, n - 1, i); }
  }

  lemma EncodedSlot(l: Layout, id: uint64, i: nat, r: nat)
    requires Typed(l) && i < |l.planes| && r < 5
    ensures l.planes[i] in l.planes && Encode(l, id)[17 + 5 * i + r] == PlaneInts(l.planes[i])[r]
  {
    SlotsAt(l.planes, MAX_PLANES, i);
    assert Slots(l.planes, MAX_PLANES)[5 * i..5 * i + 5][r] == Slots(l.planes, MAX_PLANES)[5 * i + r];
  }

  /** Reading a slot back gives the plane that was written. */
  lemma SlotReadsBack(l: Layout, id: uint64, i: nat)
    requires Typed(l) && i < |l.planes|
    ensures SlotPlane(Encode(l, id), i) == l.planes[i]
  {
    EncodedSlot(l, id, i, 0);
    EncodedSlot(l, id, i, 1);
    EncodedSlot(l, id, i, 2);
    EncodedSlot(l, id, i, 3);
    EncodedSlot(l, id, i, 4);
    SplitJoins(l.planes[i].offset);
    SplitJoins(l.planes[i].size);
    CastsBack(l.planes[i].stride, 0);
  }

  lemma {:induction false} PlanesReadBack(l: Layout, id: uint64, n: nat)
    requires Typed(l) && n <= |l.planes|
    requires forall i :: 0 <= i < n ==>
               l.planes[i].stride > 0 && l.planes[i].size > 0 && l.planes[i].offset + l.planes[i].size <= l.allocationSize
    ensures PlanesOf(Encode(l, id), l.allocationSize, n) == Some(l.planes[..n])
  {
    if n > 0 {
      PlanesReadBack(l, id, n - 1);
      SlotReadsBack(l, id, n - 1);
      assert l.planes[..n] == l.planes[..n - 1] + [l.planes[n - 1]];
    }
  }

  /** A built layout has the widths of the source's fields. */
  lemma BuiltTyped(d: Descriptor, rules: UsageRules)
    requires InRange(d) && BuildLayout(d, rules).Some?
    ensures Typed(BuildLayout(d, rules).value) && 1 <= |BuildLayout(d, rules).value.planes|
    ensures var l := BuildLayout(d, rules).value;
            forall i :: 0 <= i < |l.planes| ==>
              l.planes[i].stride > 0 && l.planes[i].size > 0 && l.planes[i].offset + l.planes[i].size <= l.allocationSize
  {
    LayoutTiles(d, rules);
    BuildLayoutIsIdeal(d, rules);
    var l := BuildLayout(d, rules).value;
    forall i | 0 <= i < |l.planes|
      ensures l.planes[i].stride > 0 && l.planes[i].size > 0 && l.planes[i].offset + l.planes[i].size <= l.allocationSize
    {
      TileOrdered(l.planes, 0, l.allocationSize, i, i);
      TileSizes(l.planes, 0, l.allocationSize, i);
    }
  }

  lemma {:induction false} TileSizes(planes: seq<Plane>, from: nat, to: nat, i: nat)
    requires Tile(planes, from, to) && i < |planes|
    ensures planes[i].size > 0
  {
    if i > 0 { TileSizes(planes[1..], from + planes[0].size, to, i - 1); }
  }

  /** The integers of a layout read back as that layout. */
  lemma HeadReadsBack(l: Layout, id: uint64)
    requires Typed(l) && l.format == FormatOf(FormatCode(l.format))
    ensures var ints := Encode(l, id);
            && Carried(ints, l.planes) == Transported(l)
            && Join(ints[12], ints[13]) == id
            && ints[0] == HANDLE_MAGIC && ints[1] == ABI_VERSION && ints[16] == |l.planes|
  {
    var ints := Encode(l, id);
    assert ints[..17] == Head(l, id);
    assert forall i :: 0 <= i < 17 ==> ints[i] == Head(l, id)[i];
    SplitJoins(l.usage);
    SplitJoins(l.allocationSize);
    SplitJoins(id);
    SplitJoins(l.reservedSize);
    CastsBack(l.width, 0);
    CastsBack(l.height, 0);
    CastsBack(l.layerCount, 0);
    CastsBack(l.pixelStride, 0);
    CastsBack(l.fourcc, 0);
  }

  /** Laying out again what a built layout says of itself gives the same layout. */
  lemma RebuiltSame(d: Descriptor, rules: UsageRules)
    requires InRange(d) && BuildLayout(d, rules).Some?
    ensures var l := Transported(BuildLayout(d, rules).value);
            BuildLayout(DescriptorOf(l), rules) == Some(l)
  {
    NameAndOptionsAside(d, rules);
    SameDescriptor(d, BuildLayout(d, rules).value, rules);
  }

  lemma SameDescriptor(d: Descriptor, l: Layout, rules: UsageRules)
    requires InRange(d) && d.width > 0 && d.height > 0
    requires l.width == d.width && l.height == d.height && l.layerCount == d.layerCount == 1
    requires l.format == d.format && l.usage == d.usage && l.reservedSize == d.reservedSize
    ensures DescriptorOf(Transported(l)) == d.(name := "", options := [])
  {
  }

  /** The first integers, one by one. */
  lemma HeadInts(l: Layout, id: uint64)
    requires Typed(l)
    ensures var ints := Encode(l, id);
            && ints[0] == HANDLE_MAGIC && ints[1] == ABI_VERSION
            && ints[2] == ToInt32(l.width) && ints[3] == ToInt32(l.height) && ints[4] == ToInt32(l.layerCount)
            && ints[5] == FormatCode(l.format) && ints[8] == ToInt32(l.pixelStride) && ints[9] == ToInt32(l.fourcc)
            && Join(ints[10], ints[11]) == l.allocationSize && Join(ints[14], ints[15]) == l.reservedSize
            && ints[16] == |l.planes|
  {
    assert Encode(l, id)[..17] == Head(l, id);
    assert forall i :: 0 <= i < 17 ==> Encode(l, id)[i] == Head(l, id)[i];
    SplitJoins(l.allocationSize);
    SplitJoins(l.reservedSize);
  }

  /** What the first checks of ValidateHandle look at. */
  ghost predicate Sound(l: Layout) {
    && Typed(l) && 0 < l.width <= INT32_MAX && 0 < l.height <= INT32_MAX && l.layerCount == 1
    && 0 < l.pixelStride <= INT32_MAX && l.fourcc == Fourcc(l.format)
    && 0 < l.allocationSize <= MAX_ALLOCATION && l.reservedSize <= MAX_RESERVED
    && ExpectedFormat(l.format, |l.planes|, l.fourcc) && (l.format.Blob? ==> l.height == 1)
  }

  lemma BuiltSound(d: Descriptor, rules: UsageRules)
    requires InRange(d) && BuildLayout(d, rules).Some?
    ensures Sound(BuildLayout(d, rules).value)
  {
    BuiltTyped(d, rules);
    LayoutTiles(d, rules);
    BuildLayoutIsIdeal(d, rules);
  }

  lemma SoundFieldsValid(l: Layout, id: uint64, pixelFd: int, metadataFd: int)
    requires Sound(l) && pixelFd >= 0 && metadataFd >= 0
    ensures FieldsValid(Handle(HANDLE_VERSION, [pixelFd, metadataFd], Encode(l, id)))
  {
    HeadInts(l, id);
    FormatReadsBack(l.format);
    CastsBack(l.fourcc, 0);
    SmallCasts(l.width);
    SmallCasts(l.height);
    SmallCasts(l.pixelStride);
    FourccPositive(l.format);
  }

  lemma SmallCasts(n: nat)
    requires n <= INT32_MAX
    ensures ToInt32(n) == n
  {
  }

  lemma FormatReadsBack(format: PixelFormat)
    requires !format.OtherFormat?
    ensures FormatOf(FormatCode(format)) == format
  {
  }

  lemma FourccPositive(format: PixelFormat)
    requires !format.OtherFormat?
    ensures 0 < Fourcc(format) < U32
  {
  }

  /** Every handle made for a built layout validates, and gives back everything it carries. */
  lemma AllocatedHandleValidates(d: Descriptor, rules: UsageRules, id: uint64, pixelFd: int, metadataFd: int)
    requires InRange(d) && BuildLayout(d, rules).Some? && pixelFd >= 0 && metadataFd >= 0
    ensures Typed(BuildLayout(d, rules).value)
    ensures var l := BuildLayout(d, rules).value;
            var made := AllocateHandle(l, id, pixelFd, metadataFd);
            made.Some? &&
            Validate(Some(made.value.0), made.value.1, rules) == Some(View(Transported(l), id, pixelFd, metadataFd))
  {
    var l := BuildLayout(d, rules).value;
    BuiltSound(d, rules);
    BuiltTyped(d, rules);
    RebuiltSame(d, rules);
    SoundHandleValidates(l, rules, id, pixelFd, metadataFd);
  }

  lemma SoundHandleValidates(l: Layout, rules: UsageRules, id: uint64, pixelFd: int, metadataFd: int)
    requires Sound(l) && pixelFd >= 0 && metadataFd >= 0
    requires BuildLayout(DescriptorOf(Transported(l)), rules) == Some(Transported(l))
    requires forall i :: 0 <= i < |l.planes| ==>
               l.planes[i].stride > 0 && l.planes[i].size > 0 && l.planes[i].offset + l.planes[i].size <= l.allocationSize
    ensures var made := AllocateHandle(l, id, pixelFd, metadataFd);
            made.Some? &&
            Validate(Some(made.value.0), made.value.1, rules) == Some(View(Transported(l), id, pixelFd, metadataFd))
  {
    SoundFieldsValid(l, id, pixelFd, metadataFd);
    HeadInts(l, id);
    FormatReadsBack(l.format);
    HeadReadsBack(l, id);
    PlanesReadBack(l, id, |l.planes|);
    assert l.planes[..|l.planes|] == l.planes;
  }

  lemma {:induction false} PlanesOfSlots(ints: seq<int32>, allocation: nat, n: nat)
    requires |ints| == HANDLE_INTS && n <= MAX_PLANES && PlanesOf(ints, allocation, n).Some?
    ensures var planes := PlanesOf(ints, allocation, n).value;
            |planes| == n && forall i :: 0 <= i < n ==> planes[i] == SlotPlane(ints, i)
  {
    if n > 0 { PlanesOfSlots(ints, allocation, n - 1); }
  }

  /** What an accepted handle carries is exactly what BuildLayout gives for it, in files that hold it. */
  lemma AcceptedIsBuilt(h: Handle, files: Backing, rules: UsageRules)
    requires Validate(Some(h), files, rules).Some?
    ensures var l := Validate(Some(h), files, rules).value.layout;
            && BuildLayout(DescriptorOf(l), rules) == Some(l) && InRange(DescriptorOf(l))
            && Tile(l.planes, 0, l.allocationSize)
            && files.pixelSize >= l.allocationSize && files.metadataSize >= METADATA_HEADER + l.reservedSize
  {
    var view := Validate(Some(h), files, rules).value;
    var l := view.layout;
    var d := DescriptorOf(l);
    var expected := BuildLayout(d, rules).value;
    CastsBack(0, h.ints[2]);
    CastsBack(0, h.ints[3]);
    CastsBack(0, h.ints[4]);
    assert expected.planes == l.planes;
    LayoutTiles(d, rules);
  }

  /** How the view of an accepted handle is put together. */
  lemma AcceptedParts(h: Handle, files: Backing, rules: UsageRules)
    requires Validate(Some(h), files, rules).Some?
    ensures |h.ints| == HANDLE_INTS
    ensures var view := Validate(Some(h), files, rules).value;
            CarriedBy(h.ints, view.layout, view.id)
  {
    PlanesOfSlots(h.ints, Join(h.ints[10], h.ints[11]), h.ints[16]);
  }

  ghost predicate CarriedBy(ints: seq<int32>, l: Layout, id: uint64)
    requires |ints| == HANDLE_INTS
  {
    && l == Carried(ints, l.planes) && id == Join(ints[12], ints[13])
    && ints[0] == HANDLE_MAGIC && ints[1] == ABI_VERSION && ints[16] == |l.planes| <= MAX_PLANES
    && forall i :: 0 <= i < |l.planes| ==> l.planes[i] == SlotPlane(ints, i)
  }

  /** An accepted handle's integers are the encoding of what it carries, up to the unused plane slots. */
  lemma AcceptedIsCanonical(h: Handle, files: Backing, rules: UsageRules, k: nat)
    requires Validate(Some(h), files, rules).Some?
    requires k < 17 + 5 * |Validate(Some(h), files, rules).value.layout.planes| <= HANDLE_INTS
    ensures var view := Validate(Some(h), files, rules).value;
            Typed(view.layout) && |h.ints| == HANDLE_INTS && h.ints[k] == Encode(view.layout, view.id)[k]
  {
    var view := Validate(Some(h), files, rules).value;
    AcceptedParts(h, files, rules);
    AcceptedIsBuilt(h, files, rules);
    BuiltTyped(DescriptorOf(view.layout), rules);
    if k < 17 {
      HeadCanonical(h.ints, view.layout, view.id, k);
    } else {
      var i, r := (k - 17) / 5, (k - 17) % 5;
      SlotCanonical(h.ints, view.layout, view.id, i, r);
      assert k == 17 + 5 * i + r;
    }
  }

  lemma SlotCanonical(ints: seq<int32>, l: Layout, id: uint64, i: nat, r: nat)
    requires |ints| == HANDLE_INTS && Typed(l) && i < |l.planes| && r < 5
    requires l.planes[i] == SlotPlane(ints, i)
    ensures ints[17 + 5 * i + r] == Encode(l, id)[17 + 5 * i + r]
  {
    var base := 17 + i * 5;
    EncodedSlot(l, id, i, r);
    JoinSplits(ints[base], ints[base + 1]);
    CastsBack(0, ints[base + 2]);
    JoinSplits(ints[base + 3], ints[base + 4]);
  }

  lemma HeadCanonical(ints: seq<int32>, l: Layout, id: uint64, k: nat)
    requires |ints| == HANDLE_INTS && Typed(l) && k < 17
    requires l == Carried(ints, l.planes) && id == Join(ints[12], ints[13])
    requires ints[0] == HANDLE_MAGIC && ints[1] == ABI_VERSION && ints[16] == |l.planes|
    ensures ints[k] == Encode(l, id)[k]
  {
    JoinSplits(ints[6], ints[7]);
    JoinSplits(ints[10], ints[11]);
    JoinSplits(ints[12], ints[13]);
    JoinSplits(ints[14], ints[15]);
    CastsBack(0, ints[2]);
    CastsBack(0, ints[3]);
    CastsBack(0, ints[4]);
    CastsBack(0, ints[8]);
    CastsBack(0, ints[9]);
    assert Encode(l, id)[k] == Head(l, id)[k];
  }

  /** There are descriptors that are accepted, and handles: an RGBA image of 64x16 pixels and its own handle. */
  lemma SomethingIsAccepted(rules: UsageRules)
    requires UsageAccepted(0, rules)
    ensures
      var d := Descriptor(64, 16, 1, Rgba8888, 0, 0, "", []);
      InRange(d) && BuildLayout(d, rules).Some? && BuildLayout(d, rules).value.allocationSize == 4096 &&
      Typed(BuildLayout(d, rules).value) &&
      var made := AllocateHandle(BuildLayout(d, rules).value, 0, 0, 0);
      made.Some? && Validate(Some(made.value.0), made.value.1, rules).Some?
  {
    var d := Descriptor(64, 16, 1, Rgba8888, 0, 0, "", []);
    assert DescriptorAccepted(d, rules);
    var rows := PlaneRows(Rgba8888, 64, 16);
    assert Times(64, 4) == 256 && RoundUp(256, 64) == 256 && rows == [(256, 16)];
    assert PlaneSize(rows[0]) == 4096;
    assert rows[1..] == [];
    assert TotalSize(rows) == 4096 && Fits(rows);
    BuildLayoutIsIdeal(d, rules);
    AllocatedHandleValidates(d, rules, 0, 0, 0);
  }
}
