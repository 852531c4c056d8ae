/**
 * Bilinear demosaicing with reflected edges
 * (interfaces/camera/mainline/isp/SoftIsp.cpp).
 */
module Demosaic {
  import opened Common
  import opened Bayer

  /** Samples row by row, with the order of their colours. */
  datatype Mosaic = Mosaic(samples: seq<byte>, width: nat, height: nat, order: Order)

  ghost predicate Valid(m: Mosaic) {
    m.width >= 2 && m.height >= 2 && |m.samples| == Times(m.height, m.width)
  }

  function Index(m: Mosaic, x: nat, y: nat): nat { Times(y, m.width) + x }

  lemma IndexInside(width: nat, height: nat, x: nat, y: nat)
    requires x < width && y < height
    ensures Times(y, width) + x < Times(height, width)
    ensures Times(y + 1, width) == Times(y, width) + width <= Times(height, width)
  {
    assert Times(height, width) == Times(y + 1, width) + Times(height - (y + 1), width);
  }

  function At(m: Mosaic, x: nat, y: nat): byte
    requires Valid(m) && x < m.width && y < m.height
  {
    IndexInside(m.width, m.height, x, y);
    m.samples[Index(m, x, y)]
  }

  /** Every sample of the mosaic is the one of its column and row. */
  lemma SamplesByRow(m: Mosaic, i: nat)
    requires Valid(m) && i < |m.samples|
    ensures i / m.width < m.height && At(m, i % m.width, i / m.width) == m.samples[i]
  {
    RowOf(i, m.width, m.height);
  }

  lemma RowOf(i: nat, width: nat, height: nat)
    requires width > 0 && i < Times(height, width)
    ensures i / width < height && Times(i / width, width) + i % width == i
  {
    if i / width >= height {
      LaterRows(height, i / width, width);
    }
  }

  lemma LaterRows(a: nat, b: nat, width: nat)
    requires a <= b
    ensures Times(a, width) <= Times(b, width)
  {
  }

  /** The neighbour index, mirrored at the edges of [0, n). */
  function Reflect(i: int, n: nat): int {
    if i < 0 then -i else if i >= n then 2 * n - 2 - i else i
  }

  /** Mirroring keeps an index one step out inside, next to where it came from, and of the same parity. */
  lemma ReflectKeepsParity(i: int, n: nat)
    requires n >= 2 && -1 <= i <= n
    ensures 0 <= Reflect(i, n) < n && Reflect(i, n) % 2 == i % 2
    ensures i == -1 ==> Reflect(i, n) == 1
    ensures i == n ==> Reflect(i, n) == n - 2
  {
  }

  datatype Channel = RedChannel | GreenChannel | BlueChannel

  function ChannelOf(c: BayerColor): Channel {
    match c
    case Red => RedChannel
    case Blue => BlueChannel
    case _ => GreenChannel
  }

  datatype Pixel = Pixel(b: int, g: int, r: int)

  function Average2(a: int, b: int): int { (a + b + 1) / 2 }

  function Average4(a: int, b: int, c: int, d: int): int { (a + b + c + d + 2) / 4 }

  /** The sample dx to the right and dy below, mirrored at the edges. */
  function Mirrored(m: Mosaic, x: nat, y: nat, dx: int, dy: int): byte
    requires Valid(m) && x < m.width && y < m.height && -1 <= dx <= 1 && -1 <= dy <= 1
  {
    ReflectKeepsParity(x + dx, m.width);
    ReflectKeepsParity(y + dy, m.height);
    At(m, Reflect(x + dx, m.width), Reflect(y + dy, m.height))
  }

  /** A position and the eight around it, row by row. */
  datatype Window = Window(nw: byte, n: byte, ne: byte, w: byte, here: byte, e: byte, sw: byte, s: byte, se: byte)

  function WindowAt(m: Mosaic, x: nat, y: nat): Window
    requires Valid(m) && x < m.width && y < m.height
  {
    Window(Mirrored(m, x, y, -1, -1), Mirrored(m, x, y, 0, -1), Mirrored(m, x, y, 1, -1),
           Mirrored(m, x, y, -1, 0), Mirrored(m, x, y, 0, 0), Mirrored(m, x, y, 1, 0),
           Mirrored(m, x, y, -1, 1), Mirrored(m, x, y, 0, 1), Mirrored(m, x, y, 1, 1))
  }

  function Blend(color: BayerColor, w: Window): Pixel {
    match color
    case Red => Pixel(Average4(w.nw, w.ne, w.sw, w.se), Average4(w.w, w.e, w.n, w.s), w.here)
    case Blue => Pixel(w.here, Average4(w.w, w.e, w.n, w.s), Average4(w.nw, w.ne, w.sw, w.se))
    case GreenRed => Pixel(Average2(w.n, w.s), w.here, Average2(w.w, w.e))
    case GreenBlue => Pixel(Average2(w.w, w.e), w.here, Average2(w.n, w.s))
  }

  /** The colour DemosaicBilinear gives one pixel. */
  function Interpolate(m: Mosaic, x: nat, y: nat): Pixel
    requires Valid(m) && x < m.width && y < m.height
  {
    Blend(ColorAt(m.order, x, y), WindowAt(m, x, y))
  }

  function Value(p: Pixel, c: Channel): int {
    match c
    case RedChannel => p.r
    case GreenChannel => p.g
    case BlueChannel => p.b
  }

  // --- A reference: convolution of the mirrored samples --------------------------------

  /** The bilinear kernels, in quarters: red and blue take corners in, green does not. */
  function Weighted(c: Channel, dx: int, dy: int, sample: nat): nat {
    if dx == 0 && dy == 0 then 4 * sample
    else if dx == 0 || dy == 0 then (if c == GreenChannel then sample else 2 * sample)
    else if c == GreenChannel then 0 else sample
  }

  /** What the sample dx to the right and dy below, mirrored, adds to a channel. */
  function Tap(m: Mosaic, x: nat, y: nat, c: Channel, dx: int, dy: int): nat
    requires Valid(m) && x < m.width && y < m.height && -1 <= dx <= 1 && -1 <= dy <= 1
  {
    ReflectKeepsParity(x + dx, m.width);
    ReflectKeepsParity(y + dy, m.height);
    var color := ColorAt(m.order, Reflect(x + dx, m.width), Reflect(y + dy, m.height));
    if ChannelOf(color) == c then Weighted(c, dx, dy, Mirrored(m, x, y, dx, dy)) else 0
  }

  function Convolved(m: Mosaic, x: nat, y: nat, c: Channel): nat
    requires Valid(m) && x < m.width && y < m.height
  {
    Tap(m, x, y, c, -1, -1) + Tap(m, x, y, c, 0, -1) + Tap(m, x, y, c, 1, -1) +
    Tap(m, x, y, c, -1, 0) + Tap(m, x, y, c, 0, 0) + Tap(m, x, y, c, 1, 0) +
    Tap(m, x, y, c, -1, 1) + Tap(m, x, y, c, 0, 1) + Tap(m, x, y, c, 1, 1)
  }

  /** The colour of the 2x2 block a position falls on decides the colours around it. */
  lemma ColorsAround(order: Order, x: nat, y: nat, u: nat, v: nat)
    ensures
      var here, there := ColorAt(order, x, y), ColorAt(order, u, v);
      var across, along := u % 2 != x % 2, v % 2 != y % 2;
      there ==
        if !across && !along then here
        else if across && along then Diagonal(here)
        else if across then Beside(here) else Below(here)
  {
  }

  function Diagonal(c: BayerColor): BayerColor {
    match c case Red => Blue case Blue => Red case GreenRed => GreenBlue case GreenBlue => GreenRed
  }

  function Beside(c: BayerColor): BayerColor {
    match c case Red => GreenRed case GreenRed => Red case Blue => GreenBlue case GreenBlue => Blue
  }

  function Below(c: BayerColor): BayerColor { Diagonal(Beside(c)) }

  /** The colour the tap falls on, from the colour at the centre. */
  function Around(here: BayerColor, dx: int, dy: int): BayerColor {
    if dx == 0 && dy == 0 then here
    else if dx != 0 && dy != 0 then Diagonal(here)
    else if dx != 0 then Beside(here) else Below(here)
  }

  /** Mirroring keeps parity, so every tap falls on the colour it would without edges. */
  lemma TapColor(m: Mosaic, x: nat, y: nat, dx: int, dy: int)
    requires Valid(m) && x < m.width && y < m.height && -1 <= dx <= 1 && -1 <= dy <= 1
    ensures
      var u, v := Reflect(x + dx, m.width), Reflect(y + dy, m.height);
      0 <= u < m.width && 0 <= v < m.height &&
      ColorAt(m.order, u, v) == Around(ColorAt(m.order, x, y), dx, dy)
  {
    ReflectKeepsParity(x + dx, m.width);
    ReflectKeepsParity(y + dy, m.height);
    ColorsAround(m.order, x, y, Reflect(x + dx, m.width), Reflect(y + dy, m.height));
  }

  function Masked(here: BayerColor, c: Channel, dx: int, dy: int, sample: nat): nat {
    if ChannelOf(Around(here, dx, dy)) == c then Weighted(c, dx, dy, sample) else 0
  }

  lemma TapMasked(m: Mosaic, x: nat, y: nat, c: Channel, dx: int, dy: int)
    requires Valid(m) && x < m.width && y < m.height && -1 <= dx <= 1 && -1 <= dy <= 1
    ensures Tap(m, x, y, c, dx, dy) == Masked(ColorAt(m.order, x, y), c, dx, dy, Mirrored(m, x, y, dx, dy))
  {
    TapColor(m, x, y, dx, dy);
  }

  lemma BlendIsConvolution(color: BayerColor, w: Window, c: Channel)
    ensures 4 * Value(Blend(color, w), c) <= 2 +
      Masked(color, c, -1, -1, w.nw) + Masked(color, c, 0, -1, w.n) + Masked(color, c, 1, -1, w.ne) +
      Masked(color, c, -1, 0, w.w) + Masked(color, c, 0, 0, w.here) + Masked(color, c, 1, 0, w.e) +
      Masked(color, c, -1, 1, w.sw) + Masked(color, c, 0, 1, w.s) + Masked(color, c, 1, 1, w.se) <
      4 * Value(Blend(color, w), c) + 4
  {
  }

  /**
   * Every output channel is the standard bilinear convolution of the mirrored samples of that
   * colour, rounded to nearest: the four cases of the loop are one formula.
   */
  lemma InterpolateIsConvolution(m: Mosaic, x: nat, y: nat, c: Channel)
    requires Valid(m) && x < m.width && y < m.height
    ensures Value(Interpolate(m, x, y), c) == (Convolved(m, x, y, c) + 2) / 4
  {
    TapMasked(m, x, y, c, -1, -1);
    TapMasked(m, x, y, c, 0, -1);
    TapMasked(m, x, y, c, 1, -1);
    TapMasked(m, x, y, c, -1, 0);
    TapMasked(m, x, y, c, 0, 0);
    TapMasked(m, x, y, c, 1, 0);
    TapMasked(m, x, y, c, -1, 1);
    TapMasked(m, x, y, c, 0, 1);
    TapMasked(m, x, y, c, 1, 1);
    BlendIsConvolution(ColorAt(m.order, x, y), WindowAt(m, x, y), c);
  }

  // --- Bounds --------------------------------------------------------------------------

  /** A sample of the channel at the position or right next to it, also diagonally. */
  predicate Nearby(m: Mosaic, x: nat, y: nat, c: Channel, u: int, v: int) {
    0 <= u < m.width && 0 <= v < m.height && -1 <= u - x <= 1 && -1 <= v - y <= 1 &&
    ChannelOf(ColorAt(m.order, u, v)) == c
  }

  ghost predicate NearbyWithin(m: Mosaic, x: nat, y: nat, c: Channel, lo: int, hi: int)
    requires Valid(m)
  {
    forall u, v :: Nearby(m, x, y, c, u, v) ==> lo <= At(m, u, v) <= hi
  }

  lemma TapBounded(m: Mosaic, x: nat, y: nat, c: Channel, dx: int, dy: int, lo: int, hi: int)
    requires Valid(m) && x < m.width && y < m.height && -1 <= dx <= 1 && -1 <= dy <= 1
    requires NearbyWithin(m, x, y, c, lo, hi)
    ensures ChannelOf(Around(ColorAt(m.order, x, y), dx, dy)) == c ==>
              lo <= Mirrored(m, x, y, dx, dy) <= hi
  {
    TapColor(m, x, y, dx, dy);
    ReflectKeepsParity(x + dx, m.width);
    ReflectKeepsParity(y + dy, m.height);
    var u, v := Reflect(x + dx, m.width), Reflect(y + dy, m.height);
    assert Nearby(m, x, y, c, u, v) <==> ChannelOf(ColorAt(m.order, u, v)) == c;
  }

  /**
   * Whatever bounds the neighbouring samples of a colour keep bounds the output channel too, at
   * edges and corners as well. With lo above hi nothing could be near, so there always is a sample.
   */
  lemma ChannelBounded(m: Mosaic, x: nat, y: nat, c: Channel, lo: int, hi: int)
    requires Valid(m) && x < m.width && y < m.height && NearbyWithin(m, x, y, c, lo, hi)
    ensures lo <= Value(Interpolate(m, x, y), c) <= hi
  {
    TapBounded(m, x, y, c, 0, 0, lo, hi);
    TapBounded(m, x, y, c, -1, 0, lo, hi);
    TapBounded(m, x, y, c, 1, 0, lo, hi);
    TapBounded(m, x, y, c, 0, -1, lo, hi);
    TapBounded(m, x, y, c, 0, 1, lo, hi);
    TapBounded(m, x, y, c, -1, -1, lo, hi);
    TapBounded(m, x, y, c, 1, -1, lo, hi);
    TapBounded(m, x, y, c, -1, 1, lo, hi);
    TapBounded(m, x, y, c, 1, 1, lo, hi);
  }

  /** A sampled position keeps its sample in its own channel. */
  lemma NativeKept(m: Mosaic, x: nat, y: nat)
    requires Valid(m) && x < m.width && y < m.height
    ensures Value(Interpolate(m, x, y), ChannelOf(ColorAt(m.order, x, y))) == At(m, x, y)
  {
  }

  /** Every sample shows the same colour. */
  ghost predicate Flat(m: Mosaic, p: Pixel)
    requires Valid(m)
  {
    forall u, v :: 0 <= u < m.width && 0 <= v < m.height ==>
      At(m, u, v) == Value(p, ChannelOf(ColorAt(m.order, u, v)))
  }

  /** A flat colour comes back exactly, at every pixel. */
  lemma FlatReproduced(m: Mosaic, p: Pixel, x: nat, y: nat)
    requires Valid(m) && Flat(m, p) && x < m.width && y < m.height
    ensures Interpolate(m, x, y) == p
  {
    ChannelBounded(m, x, y, RedChannel, p.r, p.r);
    ChannelBounded(m, x, y, GreenChannel, p.g, p.g);
    ChannelBounded(m, x, y, BlueChannel, p.b, p.b);
  }

  // --- The loop ------------------------------------------------------------------------

  /** The four bytes of a pixel: blue first, opaque. */
  function Bytes(p: Pixel): seq<int> { [p.b, p.g, p.r, 255] }

  type Picture = (nat, nat) -> Pixel

  ghost predicate Shows(m: Mosaic, f: Picture)
    requires Valid(m)
  {
    forall x: nat, y: nat {:trigger Interpolate(m, x, y)} ::
      x < m.width && y < m.height ==> f(x, y) == Interpolate(m, x, y)
  }

  /** The colours of a whole frame; outside of it the picture is black. */
  function Demosaiced(m: Mosaic): (f: Picture)
    requires Valid(m)
    ensures Shows(m, f)
  {
    (x: nat, y: nat) => if x < m.width && y < m.height then Interpolate(m, x, y) else Pixel(0, 0, 0)
  }

  /** The bytes of the first y rows and of the first x pixels of row y. */
  function Painted(f: Picture, width: nat, y: nat, x: nat): (r: seq<int>)
    requires x <= width
    ensures |r| == 4 * (Times(y, width) + x)
    decreases y, x
  {
    if x > 0 then Painted(f, width, y, x - 1) + Bytes(f(x - 1, y))
    else if y > 0 then Painted(f, width, y - 1, width)
    else []
  }

  lemma PrefixAppend<T>(a: seq<T>, b: seq<T>, c: seq<T>)
    requires a <= b
    ensures a <= b + c
  {
  }

  /** What is painted stays. */
  lemma {:induction false} PaintedGrows(f: Picture, width: nat, v: nat, u: nat, y: nat, x: nat)
    requires x <= width && u <= width && (v < y || (v == y && u <= x))
    ensures Painted(f, width, v, u) <= Painted(f, width, y, x)
    decreases y, x
  {
    if v == y && u == x {
    } else if x > 0 {
      PaintedGrows(f, width, v, u, y, x - 1);
      PrefixAppend(Painted(f, width, v, u), Painted(f, width, y, x - 1), Bytes(f(x - 1, y)));
    } else {
      PaintedGrows(f, width, v, u, y - 1, width);
    }
  }

  lemma PrefixEnd<T>(a: seq<T>, b: seq<T>, s: seq<T>)
    requires a + b <= s
    ensures s[|a|..|a| + |b|] == b
  {
    assert (a + b)[|a|..] == b;
  }

  /** In a finished image, pixel (x, y) sits at byte 4 * (y * width + x). */
  lemma PaintedAt(f: Picture, width: nat, height: nat, x: nat, y: nat)
    requires x < width && y < height
    ensures
      var at, image := 4 * (y * width + x), Painted(f, width, height, 0);
      0 <= at && at + 4 <= |image| && image[at..at + 4] == Bytes(f(x, y))
  {
    PaintedGrows(f, width, y, x + 1, height, 0);
    PrefixEnd(Painted(f, width, y, x), Bytes(f(x, y)), Painted(f, width, height, 0));
  }

  method WritePixel(argb: array<byte>, at: nat, b: byte, g: byte, r: byte)
    requires at + 4 <= argb.Length
    modifies argb
    ensures argb[..at + 4] == old(argb[..at]) + Bytes(Pixel(b, g, r))
  {
    argb[at] := b;
    argb[at + 1] := g;
    argb[at + 2] := r;
    argb[at + 3] := 255;
  }

  /** The body of the inner loop. */
  method DemosaicPixel(m: Mosaic, x: nat, y: nat) returns (b: byte, g: byte, r: byte)
    requires Valid(m) && x < m.width && y < m.height
    ensures Pixel(b, g, r) == Interpolate(m, x, y)
  {
    ReflectKeepsParity(x - 1, m.width);
    ReflectKeepsParity(x + 1, m.width);
    ReflectKeepsParity(y - 1, m.height);
    ReflectKeepsParity(y + 1, m.height);
    var left, right := Reflect(x - 1, m.width), Reflect(x + 1, m.width);
    var up, down := Reflect(y - 1, m.height), Reflect(y + 1, m.height);
    var center := At(m, x, y);
    var horizontal := (At(m, left, y) + At(m, right, y) + 1) / 2;
    var vertical := (At(m, x, up) + At(m, x, down) + 1) / 2;
    match ColorAt(m.order, x, y) {
    case Red =>
      r := center;
      g := (At(m, left, y) + At(m, right, y) + At(m, x, up) + At(m, x, down) + 2) / 4;
      b := (At(m, left, up) + At(m, right, up) + At(m, left, down) + At(m, right, down) + 2) / 4;
    case Blue =>
      b := center;
      g := (At(m, left, y) + At(m, right, y) + At(m, x, up) + At(m, x, down) + 2) / 4;
      r := (At(m, left, up) + At(m, right, up) + At(m, left, down) + At(m, right, down) + 2) / 4;
    case GreenRed =>
      g, r, b := center, horizontal, vertical;
    case GreenBlue =>
      g, b, r := center, horizontal, vertical;
    }
  }

  /** One turn of the inner loop. */
  method DemosaicAndWrite(m: Mosaic, ghost f: Picture, x: nat, y: nat, argb: array<byte>, at: nat)
    requires Valid(m) && Shows(m, f) && x < m.width && y < m.height && at + 4 <= argb.Length
    modifies argb
    ensures argb[..at + 4] == old(argb[..at]) + Bytes(f(x, y))
  {
    var b, g, r := DemosaicPixel(m, x, y);
    WritePixel(argb, at, b, g, r);
  }

  /** The inner loop: row y. */
  method DemosaicRow(m: Mosaic, ghost f: Picture, y: nat, argb: array<byte>, out: nat)
    requires Valid(m) && Shows(m, f) && y < m.height && out + 4 * m.width <= argb.Length
    requires argb[..out] == Painted(f, m.width, y, 0)
    modifies argb
    ensures argb[..out + 4 * m.width] == Painted(f, m.width, y, m.width)
  {
    for x := 0 to m.width
      invariant argb[..out + 4 * x] == Painted(f, m.width, y, x)
    {
      DemosaicAndWrite(m, f, x, y, argb, out + 4 * x);
    }
  }

  method DemosaicBilinear(m: Mosaic, ghost f: Picture, argb: array<byte>)
    requires Valid(m) && Shows(m, f) && argb.Length == 4 * Times(m.height, m.width)
    modifies argb
    ensures argb[..] == Painted(f, m.width, m.height, 0)
  {
    var out := 0;
    for y := 0 to m.height
      invariant out == 4 * Times(y, m.width) <= argb.Length
      invariant argb[..out] == Painted(f, m.width, y, 0)
    {
      IndexInside(m.width, m.height, 0, y);
      DemosaicRow(m, f, y, argb, out);
      out := out + 4 * m.width;
    }
    assert argb[..] == argb[..out];
  }

  /** The whole function, and what it leaves at each pixel. */
  method Demosaic(m: Mosaic, argb: array<byte>)
    requires Valid(m) && argb.Length == 4 * Times(m.height, m.width)
    modifies argb
    ensures argb[..] == Painted(Demosaiced(m), m.width, m.height, 0)
  {
    ghost var f := Demosaiced(m);
    DemosaicBilinear(m, f, argb);
  }

  /** Pixel (x, y) of the finished image has its interpolated colour, at byte 4 * (y * width + x). */
  lemma RenderedPixel(m: Mosaic, x: nat, y: nat)
    requires Valid(m) && x < m.width && y < m.height
    ensures
      var at, image := 4 * (y * m.width + x), Painted(Demosaiced(m), m.width, m.height, 0);
      0 <= at && at + 4 <= |image| && image[at..at + 4] == Bytes(Interpolate(m, x, y))
  {
    PaintedAt(Demosaiced(m), m.width, m.height, x, y);
  }
}
