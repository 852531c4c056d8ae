/**
 * The raw formats there are, told from their names, and the packings a byte at a time
 * (interfaces/camera/mainline/isp/BayerFormat.cpp).
 */
module BayerFormats {
  import opened Bayer
  import opened Common

  /** The formats of videodev2.h by their names, without the prefix they share; first those with whole bytes. */
  function WholeBytes(name: string): Option<BayerFormat> {
    if name == "SBGGR8" then Some(BayerFormat(Pattern(Bggr), 8, Packed8))
    else if name == "SGBRG8" then Some(BayerFormat(Pattern(Gbrg), 8, Packed8))
    else if name == "SGRBG8" then Some(BayerFormat(Pattern(Grbg), 8, Packed8))
    else if name == "SRGGB8" then Some(BayerFormat(Pattern(Rggb), 8, Packed8))
    else if name == "SBGGR10" then Some(BayerFormat(Pattern(Bggr), 10, Packed16))
    else if name == "SGBRG10" then Some(BayerFormat(Pattern(Gbrg), 10, Packed16))
    else if name == "SGRBG10" then Some(BayerFormat(Pattern(Grbg), 10, Packed16))
    else if name == "SRGGB10" then Some(BayerFormat(Pattern(Rggb), 10, Packed16))
    else if name == "SBGGR12" then Some(BayerFormat(Pattern(Bggr), 12, Packed16))
    else if name == "SGBRG12" then Some(BayerFormat(Pattern(Gbrg), 12, Packed16))
    else if name == "SGRBG12" then Some(BayerFormat(Pattern(Grbg), 12, Packed16))
    else if name == "SRGGB12" then Some(BayerFormat(Pattern(Rggb), 12, Packed16))
    else None
  }

  /** Those whose samples share bytes. */
  function SharedBytes(name: string): Option<BayerFormat> {
    if name == "SBGGR10P" then Some(BayerFormat(Pattern(Bggr), 10, Mipi10))
    else if name == "SGBRG10P" then Some(BayerFormat(Pattern(Gbrg), 10, Mipi10))
    else if name == "SGRBG10P" then Some(BayerFormat(Pattern(Grbg), 10, Mipi10))
    else if name == "SRGGB10P" then Some(BayerFormat(Pattern(Rggb), 10, Mipi10))
    else if name == "SBGGR12P" then Some(BayerFormat(Pattern(Bggr), 12, Mipi12))
    else if name == "SGBRG12P" then Some(BayerFormat(Pattern(Gbrg), 12, Mipi12))
    else if name == "SGRBG12P" then Some(BayerFormat(Pattern(Grbg), 12, Mipi12))
    else if name == "SRGGB12P" then Some(BayerFormat(Pattern(Rggb), 12, Mipi12))
    else None
  }

  function GetBayerFormat(name: string): Option<BayerFormat> {
    if WholeBytes(name).Some? then WholeBytes(name) else SharedBytes(name)
  }

  // --- Names ---------------------------------------------------------------------------

  function Letter(c: BayerColor): char { if c.Red? then 'R' else if c.Blue? then 'B' else 'G' }

  /** S, the colours of the 2x2 block row by row, the bits of a sample, and P if samples share bytes. */
  function NameOf(f: BayerFormat): string
    requires |f.pattern| == 4
  {
    ['S', Letter(f.pattern[0]), Letter(f.pattern[1]), Letter(f.pattern[2]), Letter(f.pattern[3])] +
    (if f.bits == 8 then "8" else if f.bits == 10 then "10" else "12") +
    if f.packing.Mipi10? || f.packing.Mipi12? then "P" else ""
  }

  /** Samples of 8 bits have a byte each, others two or share one in groups. */
  predicate Packs(bits: nat, packing: Packing) {
    (bits == 8 && packing.Packed8?) || (bits == 10 && (packing.Packed16? || packing.Mipi10?)) ||
    (bits == 12 && (packing.Packed16? || packing.Mipi12?))
  }

  lemma PacksIff(bits: nat, packing: Packing)
    ensures Supported(bits, packing) <==> Packs(bits, packing)
  {
  }

  lemma WholeBytesNamed(name: string)
    requires WholeBytes(name).Some?
    ensures
      var f := WholeBytes(name).value;
      |f.pattern| == 4 && name == NameOf(f) && Packs(f.bits, f.packing)
  {
  }

  lemma SharedBytesNamed(name: string)
    requires SharedBytes(name).Some?
    ensures
      var f := SharedBytes(name).value;
      |f.pattern| == 4 && name == NameOf(f) && Packs(f.bits, f.packing)
  {
  }

  /** A format is what its name says. */
  lemma NameTells(name: string)
    requires GetBayerFormat(name).Some?
    ensures
      var f := GetBayerFormat(name).value;
      |f.pattern| == 4 && name == NameOf(f) && Packs(f.bits, f.packing)
  {
    if WholeBytes(name).Some? {
      WholeBytesNamed(name);
    } else {
      SharedBytesNamed(name);
    }
  }

  /** Every order comes with every number of bits in every packing for that. */
  lemma EveryFormatNamed(order: Order, bits: nat, packing: Packing)
    requires Packs(bits, packing)
    ensures
      var f := BayerFormat(Pattern(order), bits, packing);
      |f.pattern| == 4 && GetBayerFormat(NameOf(f)) == Some(f)
  {
    var f := BayerFormat(Pattern(order), bits, packing);
    match order
    case Bggr =>
      assert bits == 8 ==> NameOf(f) == "SBGGR8";
      assert bits == 10 && packing.Packed16? ==> NameOf(f) == "SBGGR10";
      assert bits == 10 && packing.Mipi10? ==> NameOf(f) == "SBGGR10P";
      assert bits == 12 && packing.Packed16? ==> NameOf(f) == "SBGGR12";
      assert bits == 12 && packing.Mipi12? ==> NameOf(f) == "SBGGR12P";
    case Gbrg =>
      assert bits == 8 ==> NameOf(f) == "SGBRG8";
      assert bits == 10 && packing.Packed16? ==> NameOf(f) == "SGBRG10";
      assert bits == 10 && packing.Mipi10? ==> NameOf(f) == "SGBRG10P";
      assert bits == 12 && packing.Packed16? ==> NameOf(f) == "SGBRG12";
      assert bits == 12 && packing.Mipi12? ==> NameOf(f) == "SGBRG12P";
    case Grbg =>
      assert bits == 8 ==> NameOf(f) == "SGRBG8";
      assert bits == 10 && packing.Packed16? ==> NameOf(f) == "SGRBG10";
      assert bits == 10 && packing.Mipi10? ==> NameOf(f) == "SGRBG10P";
      assert bits == 12 && packing.Packed16? ==> NameOf(f) == "SGRBG12";
      assert bits == 12 && packing.Mipi12? ==> NameOf(f) == "SGRBG12P";
    case Rggb =>
      assert bits == 8 ==> NameOf(f) == "SRGGB8";
      assert bits == 10 && packing.Packed16? ==> NameOf(f) == "SRGGB10";
      assert bits == 10 && packing.Mipi10? ==> NameOf(f) == "SRGGB10P";
      assert bits == 12 && packing.Packed16? ==> NameOf(f) == "SRGGB12";
      assert bits == 12 && packing.Mipi12? ==> NameOf(f) == "SRGGB12P";
  }

  /** Two of the four are green, and a green is named after the other colour of its row. */
  lemma GreensNamed(order: Order, x: nat, y: nat)
    ensures
      var here, beside, below := ColorAt(order, x, y), ColorAt(order, x + 1, y), ColorAt(order, x, y + 1);
      (here == GreenRed <==> beside == Red) && (here == GreenBlue <==> beside == Blue) &&
      (here == GreenRed <==> below == Blue) && (here == GreenBlue <==> below == Red)
  {
    assert (x + 1) % 2 == 1 - x % 2 && (y + 1) % 2 == 1 - y % 2;
  }

  // --- Bytes ---------------------------------------------------------------------------

  function Power(n: nat): nat { if n == 0 then 1 else 2 * Power(n - 1) }

  lemma LevelsArePowers(bits: nat)
    requires bits in {8, 10, 12}
    ensures Levels(bits) == Power(bits)
  {
    assert Power(4) == 16 && Power(8) == 16 * Power(4) && Power(10) == 4 * Power(8) && Power(12) == 16 * Power(8);
  }

  type level16 = n: nat | n < 0x1_0000

  /** Two bytes a sample, the low one first. */
  function Pack16(s: seq<level16>): seq<byte> {
    if s == [] then [] else [s[0] % 256, s[0] / 256] + Pack16(s[1..])
  }

  lemma {:induction false} PairAt(s: seq<level16>, x: nat)
    requires x < |s|
    ensures |Pack16(s)| == 2 * |s| && Pack16(s)[2 * x] == s[x] % 256 && Pack16(s)[2 * x + 1] == s[x] / 256
    decreases |s|
  {
    Pack16Length(s);
    if x > 0 {
      PairAt(s[1..], x - 1);
    }
  }

  lemma {:induction false} Pack16Length(s: seq<level16>)
    ensures |Pack16(s)| == 2 * |s|
  {
    if s != [] {
      Pack16Length(s[1..]);
    }
  }

  lemma TwoBytes(bits: nat, src: seq<byte>, x: nat, v: level16)
    requires bits in {10, 12} && 2 * x + 2 <= |src| && src[2 * x] == v % 256 && src[2 * x + 1] == v / 256
    ensures Sample(bits, Packed16, src, x) == v % Levels(bits)
  {
    var low: int, high: int := src[2 * x], src[2 * x + 1];
    assert low + high * 256 == v;
  }

  /** Unpacking such a row gives its samples, without any bits beyond those of the format. */
  lemma Unpacks16(bits: nat, s: seq<level16>, x: nat)
    requires bits in {10, 12} && x < |s|
    ensures |Pack16(s)| == RowBytes(Packed16, |s|) && BytesRead(Packed16, x + 1) <= |Pack16(s)|
    ensures Sample(bits, Packed16, Pack16(s), x) == s[x] % Power(bits)
  {
    PairAt(s, x);
    TwoBytes(bits, Pack16(s), x, s[x]);
    LevelsArePowers(bits);
  }

  /** A byte a sample. */
  lemma Unpacks8(s: seq<byte>, x: nat)
    requires x < |s|
    ensures |s| == RowBytes(Packed8, |s|) && BytesRead(Packed8, x + 1) <= |s|
    ensures Sample(8, Packed8, s, x) == s[x]
  {
  }

  /** Rows are as far apart as the driver says, but never closer than their bytes. */
  lemma StrideIsLarger(packing: Packing, bytesPerLine: nat, width: nat)
    ensures Stride(packing, bytesPerLine, width) == Max(bytesPerLine, RowBytes(packing, width))
  {
  }
}
