/**
 * Raw Bayer formats and how their rows are unpacked
 * (interfaces/camera/mainline/isp/BayerFormat.cpp).
 */
module Bayer {

  type byte = x: int | 0 <= x < 256

  type level10 = n: nat | n < 1024

  type level12 = n: nat | n < 4096

  datatype BayerColor = Red | GreenRed | GreenBlue | Blue

  datatype Order = Bggr | Gbrg | Grbg | Rggb

  datatype Packing = Packed8 | Packed16 | Mipi10 | Mipi12

  datatype BayerFormat = BayerFormat(pattern: seq<BayerColor>, bits: nat, packing: Packing)

  /** Colours of the top left 2x2 block, row by row; green on a red row is GreenRed. */
  function Pattern(order: Order): seq<BayerColor> {
    match order
    case Bggr => [Blue, GreenBlue, GreenRed, Red]
    case Gbrg => [GreenBlue, Blue, Red, GreenRed]
    case Grbg => [GreenRed, Red, Blue, GreenBlue]
    case Rggb => [Red, GreenRed, GreenBlue, Blue]
  }

  function ColorAt(order: Order, x: nat, y: nat): BayerColor {
    Pattern(order)[y % 2 * 2 + x % 2]
  }

  /** A combination GetBayerFormat hands out. */
  predicate Supported(bits: nat, packing: Packing) {
    match packing
    case Packed8 => bits == 8
    case Packed16 => bits == 10 || bits == 12
    case Mipi10 => bits == 10
    case Mipi12 => bits == 12
  }

  function Levels(bits: nat): nat
    requires bits in {8, 10, 12}
  {
    if bits == 8 then 256 else if bits == 10 then 1024 else 4096
  }

  function RowBytes(packing: Packing, width: nat): nat {
    match packing
    case Packed8 => width
    case Packed16 => width * 2
    case Mipi10 => (width * 5 + 3) / 4
    case Mipi12 => (width * 3 + 1) / 2
  }

  /** One past the last byte UnpackBayerRow reads for a row. */
  function BytesRead(packing: Packing, width: nat): nat {
    if width == 0 then 0
    else
      match packing
      case Packed8 => width
      case Packed16 => 2 * width
      case Mipi10 => (width - 1) / 4 * 5 + 5
      case Mipi12 => (width - 1) / 2 * 3 + 3
  }

  /** Unpacking stays inside the row exactly for whole groups of samples. */
  lemma StaysInRow(packing: Packing, width: nat)
    ensures BytesRead(packing, width) <= RowBytes(packing, width) <==>
            (packing.Mipi10? ==> width % 4 == 0) && (packing.Mipi12? ==> width % 2 == 0)
    ensures BytesRead(packing, width) >= RowBytes(packing, width)
  {
    StaysInRow10(width / 4, width % 4);
    StaysInRow12(width / 2, width % 2);
    assert width == 4 * (width / 4) + width % 4 && width == 2 * (width / 2) + width % 2;
  }

  lemma StaysInRow10(groups: nat, rest: nat)
    requires rest < 4
    ensures var width := 4 * groups + rest;
            RowBytes(Mipi10, width) == 5 * groups + (if rest == 0 then 0 else rest + 1) &&
            BytesRead(Mipi10, width) == 5 * groups + (if rest == 0 then 0 else 5)
  {
  }

  lemma StaysInRow12(groups: nat, rest: nat)
    requires rest < 2
    ensures var width := 2 * groups + rest;
            RowBytes(Mipi12, width) == 3 * groups + (if rest == 0 then 0 else 2) &&
            BytesRead(Mipi12, width) == 3 * groups + (if rest == 0 then 0 else 3)
  {
  }

  // --- A frame -------------------------------------------------------------------------

  function Stride(packing: Packing, bytesPerLine: nat, width: nat): nat {
    var row := RowBytes(packing, width);
    if bytesPerLine > row then bytesPerLine else row
  }

  /** The bytes a frame has to have to be processed. */
  function FrameBytes(packing: Packing, bytesPerLine: nat, width: nat, height: nat): int {
    Stride(packing, bytesPerLine, width) * (height - 1) + RowBytes(packing, width)
  }

  /** Unpacking row y reads behind that many bytes. */
  predicate ReadsBehind(packing: Packing, bytesPerLine: nat, width: nat, y: nat, bytesUsed: nat) {
    Stride(packing, bytesPerLine, width) * y + BytesRead(packing, width) > bytesUsed
  }

  /**
   * Of a frame that is processed, in whole 2x2 blocks, some row is read behind its bytes if and only if
   * ten-bit groups are cut in half by the width and it has less than two bytes more than asked of it.
   */
  lemma FrameReadsBehindIff(packing: Packing, bytesPerLine: nat, width: nat, height: nat, bytesUsed: nat)
    requires width % 2 == 0 && width >= 2 && height % 2 == 0 && height >= 2
    requires bytesUsed >= FrameBytes(packing, bytesPerLine, width, height)
    ensures (exists y: nat :: y < height && ReadsBehind(packing, bytesPerLine, width, y, bytesUsed)) <==>
      packing.Mipi10? && width % 4 == 2 && bytesUsed < FrameBytes(packing, bytesPerLine, width, height) + 2
  {
    var stride := Stride(packing, bytesPerLine, width);
    ReadsBeyondRow(packing, width);
    if ReadsBehind(packing, bytesPerLine, width, height - 1, bytesUsed) {
    } else {
      forall y: nat | y < height ensures !ReadsBehind(packing, bytesPerLine, width, y, bytesUsed) {
        LaterRow(stride, y, height - 1);
      }
    }
  }

  /** How far a row of an even width is read behind its end. */
  lemma ReadsBeyondRow(packing: Packing, width: nat)
    requires width % 2 == 0 && width > 0
    ensures BytesRead(packing, width) - RowBytes(packing, width) == if packing.Mipi10? && width % 4 == 2 then 2 else 0
  {
    StaysInRow10(width / 4, width % 4);
    StaysInRow12(width / 2, 0);
    assert width == 4 * (width / 4) + width % 4 && width == 2 * (width / 2);
  }

  lemma LaterRow(stride: nat, y: nat, last: nat)
    requires y <= last
    ensures stride * y <= stride * last
  {
  }

  // --- Samples -------------------------------------------------------------------------

  /** The field of `size` values that starts `i` fields from the low end of the byte. */
  function Field(b: byte, i: nat, size: nat): nat
    requires (size == 4 && i < 4) || (size == 16 && i < 2)
  {
    if size == 16 then (if i == 0 then b % 16 else b / 16)
    else if i == 0 then b % 4
    else if i == 1 then b / 4 % 4
    else if i == 2 then b / 16 % 4
    else b / 64
  }

  /** Sample `i` of group `g`: its high bits, and its low bits from the byte the group shares. */
  function Grouped10(src: seq<byte>, g: nat, i: nat): nat
    requires i < 4 && 5 * g + 5 <= |src|
  {
    src[5 * g + i] * 4 + Field(src[5 * g + 4], i, 4)
  }

  function Grouped12(src: seq<byte>, g: nat, i: nat): nat
    requires i < 2 && 3 * g + 3 <= |src|
  {
    src[3 * g + i] * 16 + Field(src[3 * g + 2], i, 16)
  }

  /** Sample `x` of a row. */
  function Sample(bits: nat, packing: Packing, src: seq<byte>, x: nat): nat
    requires Supported(bits, packing) && BytesRead(packing, x + 1) <= |src|
  {
    match packing
    case Packed8 => src[x]
    case Packed16 => (src[2 * x] + src[2 * x + 1] * 256) % Levels(bits)
    case Mipi10 => Grouped10(src, x / 4, x % 4)
    case Mipi12 => Grouped12(src, x / 2, x % 2)
  }

  /** Samples index the lookup tables, which have a value for each level. */
  lemma SampleInTable(bits: nat, packing: Packing, src: seq<byte>, x: nat)
    requires Supported(bits, packing) && BytesRead(packing, x + 1) <= |src|
    ensures Sample(bits, packing, src, x) < Levels(bits)
  {
  }

  lemma ReadsMore(packing: Packing, x: nat, width: nat)
    requires x < width
    ensures BytesRead(packing, x + 1) <= BytesRead(packing, width)
  {
    if packing.Mipi10? {
      assert x / 4 <= (width - 1) / 4;
    } else if packing.Mipi12? {
      assert x / 2 <= (width - 1) / 2;
    }
  }

  /** The first `n` samples of the row. */
  function Samples(bits: nat, packing: Packing, src: seq<byte>, n: nat): (r: seq<nat>)
    requires Supported(bits, packing) && BytesRead(packing, n) <= |src|
    ensures |r| == n && forall v :: v in r ==> v < Levels(bits)
  {
    if n == 0 then []
    else
      ReadsMore(packing, n - 1, n);
      ReadsFewer(packing, n);
      SampleInTable(bits, packing, src, n - 1);
      Samples(bits, packing, src, n - 1) + [Sample(bits, packing, src, n - 1)]
  }

  lemma ReadsFewer(packing: Packing, n: nat)
    requires n > 0
    ensures BytesRead(packing, n - 1) <= BytesRead(packing, n)
  {
    if n > 1 { ReadsMore(packing, n - 2, n); }
  }

  method UnpackBayerRow(bits: nat, packing: Packing, src: seq<byte>, width: nat, dst: array<nat>)
    requires Supported(bits, packing) && BytesRead(packing, width) <= |src| && width <= dst.Length
    modifies dst
    ensures dst[..width] == Samples(bits, packing, src, width)
    ensures dst[width..] == old(dst[width..])
  {
    for x := 0 to width
      invariant BytesRead(packing, x) <= |src| && dst[..x] == Samples(bits, packing, src, x)
      invariant dst[width..] == old(dst[width..])
    {
      ReadsMore(packing, x, width);
      dst[x] := Sample(bits, packing, src, x);
    }
  }

  // --- The packing unpacking undoes ---------------------------------------------------

  function Group10(s: seq<level10>): seq<byte>
    requires |s| == 4
  {
    [s[0] / 4, s[1] / 4, s[2] / 4, s[3] / 4, s[0] % 4 + s[1] % 4 * 4 + s[2] % 4 * 16 + s[3] % 4 * 64]
  }

  function Group12(s: seq<level12>): seq<byte>
    requires |s| == 2
  {
    [s[0] / 16, s[1] / 16, s[0] % 16 + s[1] % 16 * 16]
  }

  /** MIPI CSI-2 RAW10: high bytes of four samples, then their low bits, the first sample lowest. */
  function PackMipi10(s: seq<level10>): seq<byte>
    requires |s| % 4 == 0
  {
    if s == [] then [] else Group10(s[..4]) + PackMipi10(s[4..])
  }

  function PackMipi12(s: seq<level12>): seq<byte>
    requires |s| % 2 == 0
  {
    if s == [] then [] else Group12(s[..2]) + PackMipi12(s[2..])
  }

  /** Unpacking a packed row gives its samples. */
  lemma Unpacks10(s: seq<level10>, x: nat)
    requires |s| % 4 == 0 && x < |s|
    ensures |PackMipi10(s)| == RowBytes(Mipi10, |s|) && BytesRead(Mipi10, x + 1) <= |PackMipi10(s)|
    ensures Sample(10, Mipi10, PackMipi10(s), x) == s[x]
  {
    PackedLength10(s);
    ReadsMore(Mipi10, x, |s|);
    UnpacksGroup10(s, x / 4, x % 4);
  }

  /** Four fields of a byte are read back separately. */
  lemma FieldsOf(a: nat, b: nat, c: nat, d: nat)
    requires a < 4 && b < 4 && c < 4 && d < 4
    ensures var low := a + b * 4 + c * 16 + d * 64;
            Field(low, 0, 4) == a && Field(low, 1, 4) == b && Field(low, 2, 4) == c && Field(low, 3, 4) == d
  {
    var low := a + b * 4 + c * 16 + d * 64;
    assert low / 4 == b + 4 * c + 16 * d;
    assert low / 16 == c + 4 * d;
    assert low / 64 == d;
  }

  lemma UnpacksGroup10(s: seq<level10>, g: nat, i: nat)
    requires |s| % 4 == 0 && 4 * g < |s| && i < 4
    ensures |PackMipi10(s)| >= 5 * g + 5 && Grouped10(PackMipi10(s), g, i) == s[4 * g + i]
  {
    GroupAt10(s, g);
    var row, four := PackMipi10(s), s[4 * g..4 * g + 4];
    assert row[5 * g..5 * g + 5][i] == row[5 * g + i] && row[5 * g..5 * g + 5][4] == row[5 * g + 4];
    assert four[i] == s[4 * g + i];
    FieldsOf(four[0] % 4, four[1] % 4, four[2] % 4, four[3] % 4);
  }

  lemma {:induction false} GroupAt10(s: seq<level10>, g: nat)
    requires |s| % 4 == 0 && 4 * g < |s|
    ensures |PackMipi10(s)| >= 5 * g + 5
    ensures PackMipi10(s)[5 * g..5 * g + 5] == Group10(s[4 * g..4 * g + 4])
  {
    var row := PackMipi10(s);
    assert row == Group10(s[..4]) + PackMipi10(s[4..]);
    if g > 0 {
      GroupAt10(s[4..], g - 1);
      assert row[5 * g..5 * g + 5] == PackMipi10(s[4..])[5 * (g - 1)..5 * (g - 1) + 5];
      assert s[4 * g..4 * g + 4] == s[4..][4 * (g - 1)..4 * (g - 1) + 4];
    }
  }

  lemma {:induction false} PackedLength10(s: seq<level10>)
    requires |s| % 4 == 0
    ensures |PackMipi10(s)| == |s| / 4 * 5 == RowBytes(Mipi10, |s|)
  {
    if s != [] { PackedLength10(s[4..]); }
  }

  lemma Unpacks12(s: seq<level12>, x: nat)
    requires |s| % 2 == 0 && x < |s|
    ensures |PackMipi12(s)| == RowBytes(Mipi12, |s|) && BytesRead(Mipi12, x + 1) <= |PackMipi12(s)|
    ensures Sample(12, Mipi12, PackMipi12(s), x) == s[x]
  {
    PackedLength12(s);
    ReadsMore(Mipi12, x, |s|);
    UnpacksGroup12(s, x / 2, x % 2);
  }

  lemma UnpacksGroup12(s: seq<level12>, g: nat, i: nat)
    requires |s| % 2 == 0 && 2 * g < |s| && i < 2
    ensures |PackMipi12(s)| >= 3 * g + 3 && Grouped12(PackMipi12(s), g, i) == s[2 * g + i]
  {
    GroupAt12(s, g);
    var row, two := PackMipi12(s), s[2 * g..2 * g + 2];
    assert row[3 * g..3 * g + 3][i] == row[3 * g + i] && row[3 * g..3 * g + 3][2] == row[3 * g + 2];
    assert two[i] == s[2 * g + i];
  }

  lemma {:induction false} GroupAt12(s: seq<level12>, g: nat)
    requires |s| % 2 == 0 && 2 * g < |s|
    ensures |PackMipi12(s)| >= 3 * g + 3
    ensures PackMipi12(s)[3 * g..3 * g + 3] == Group12(s[2 * g..2 * g + 2])
  {
    var row := PackMipi12(s);
    assert row == Group12(s[..2]) + PackMipi12(s[2..]);
    if g > 0 {
      GroupAt12(s[2..], g - 1);
      assert row[3 * g..3 * g + 3] == PackMipi12(s[2..])[3 * (g - 1)..3 * (g - 1) + 3];
      assert s[2 * g..2 * g + 2] == s[2..][2 * (g - 1)..2 * (g - 1) + 2];
    }
  }

  lemma {:induction false} PackedLength12(s: seq<level12>)
    requires |s| % 2 == 0
    ensures |PackMipi12(s)| == |s| / 2 * 3 == RowBytes(Mipi12, |s|)
  {
    if s != [] { PackedLength12(s[2..]); }
  }
}
