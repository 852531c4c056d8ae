/**
 * Which sizes a camera offers and which capture mode serves a set of outputs
 * (interfaces/camera/mainline/device/StreamPlanner.cpp).
 */
module Planner {
  import opened Common

  datatype Fraction = Fraction(numerator: nat, denominator: nat)

  datatype FrameSize = FrameSize(width: nat, height: nat, intervals: seq<Fraction>)

  datatype FormatDescription = FormatDescription(fourcc: nat, emulated: bool, sizes: seq<FrameSize>)

  datatype Mode = Mode(fourcc: nat, size: Size, emulated: bool, intervals: seq<Fraction>)

  /** The tables of pixel formats: processed, raw through the software ISP, compressed. */
  datatype Formats = Formats(processed: nat -> bool, isp: nat -> bool, compressed: nat -> bool)

  const PREFERRED_DURATION := 1_000_000_000 / 30

  const STANDARD_SIZES := [Size(1920, 1080), Size(1280, 720), Size(640, 480), Size(320, 240), Size(176, 144)]

  function Area(s: Size): int { Times(s.width, s.height) }

  /** An image of `other` can be cut out. */
  predicate Contains(s: Size, other: Size) { s.width >= other.width && s.height >= other.height }

  function ToNanoseconds(f: Fraction): int {
    if f.denominator == 0 then 0 else Times(f.numerator, 1_000_000_000) / f.denominator
  }

  function MinDuration(m: Mode): int { if m.intervals == [] then 0 else ToNanoseconds(m.intervals[0]) }

  /** Whole nanoseconds of the fraction of a second, rounded down; none for a fraction of nothing. */
  lemma NanosecondsAreWhole(f: Fraction)
    ensures
      var d := ToNanoseconds(f);
      if f.denominator == 0 then d == 0
      else d >= 0 && Times(d, f.denominator) <= Times(f.numerator, 1_000_000_000) < Times(d + 1, f.denominator)
  {
    if f.denominator > 0 {
      QuotientBounds(Times(f.numerator, 1_000_000_000), f.denominator);
    }
  }

  lemma QuotientBounds(a: int, b: int)
    requires a >= 0 && b > 0
    ensures a / b >= 0 && Times(a / b, b) <= a < Times(a / b + 1, b)
  {
  }

  /** a is no longer than b. */
  predicate NoLonger(a: Fraction, b: Fraction) { Times(a.numerator, b.denominator) <= Times(b.numerator, a.denominator) }

  lemma NoLongerDuration(a: Fraction, b: Fraction)
    requires a.denominator > 0 && b.denominator > 0 && NoLonger(a, b)
    ensures ToNanoseconds(a) <= ToNanoseconds(b)
  {
    var d, e := ToNanoseconds(a), ToNanoseconds(b);
    NanosecondsAreWhole(a);
    NanosecondsAreWhole(b);
    if d > e {
      Crossed(a.numerator, a.denominator, b.numerator, b.denominator, d, e + 1);
    }
  }

  /** If p/q <= r/s, a multiple no more than p/q is less than one more than r/s. */
  lemma Crossed(p: nat, q: nat, r: nat, s: nat, d: int, e: int)
    requires q > 0 && s > 0 && p * s <= r * q
    requires 0 <= d && d * q <= p * 1_000_000_000 && r * 1_000_000_000 < e * s
    ensures d < e
  {
    var g := 1_000_000_000;
    Scaled(d * q, p * g, s);
    Scaled(p * s, r * q, g);
    ScaledLess(r * g, e * s, q);
    assert d * q * s == d * (s * q) && e * s * q == e * (s * q);
    assert p * g * s == p * s * g && r * q * g == r * g * q;
    Cancelled(d, e, s * q);
  }

  lemma Cancelled(a: int, b: int, f: int)
    requires f >= 0 && a * f < b * f
    ensures a < b
  {
    if a >= b {
      Scaled(b, a, f);
    }
  }

  lemma Scaled(a: int, b: int, f: int)
    requires a <= b && f >= 0
    ensures a * f <= b * f
  {
  }

  lemma ScaledLess(a: int, b: int, f: int)
    requires a < b && f > 0
    ensures a * f < b * f
  {
  }

  /** Of intervals that come shortest first, the duration of a mode is the shortest. */
  lemma MinDurationIsLeast(m: Mode, i: nat)
    requires i < |m.intervals| && forall k :: 0 <= k < |m.intervals| ==> m.intervals[k].denominator > 0
    requires forall j, k :: 0 <= j < k < |m.intervals| ==> NoLonger(m.intervals[j], m.intervals[k])
    ensures MinDuration(m) <= ToNanoseconds(m.intervals[i]) && exists k :: 0 <= k < |m.intervals| && MinDuration(m) == ToNanoseconds(m.intervals[k])
  {
    assert MinDuration(m) == ToNanoseconds(m.intervals[0]);
    if i > 0 {
      NoLongerDuration(m.intervals[0], m.intervals[i]);
    }
  }

  // --- Choosing a mode -----------------------------------------------------------------

  function Bit(b: bool): int { if b then 1 else 0 }

  /** Lower is better: duration up to the preferred one, area, ISP, compression, emulation, format. */
  function Score(m: Mode, formats: Formats): seq<int> {
    [Max(MinDuration(m), PREFERRED_DURATION), Area(m.size), Bit(formats.isp(m.fourcc)),
     Bit(formats.compressed(m.fourcc)), Bit(m.emulated), m.fourcc]
  }

  /** The order of tuples of equal length. */
  predicate Less(a: seq<int>, b: seq<int>) {
    a != [] && b != [] && (a[0] < b[0] || (a[0] == b[0] && Less(a[1..], b[1..])))
  }

  lemma {:induction false} LessOrder(a: seq<int>, b: seq<int>, c: seq<int>)
    requires |a| == |b| == |c|
    ensures !Less(a, a)
    ensures Less(a, b) && Less(b, c) ==> Less(a, c)
    ensures Less(a, b) ==> !Less(b, a)
    ensures !Less(a, b) && !Less(b, a) ==> a == b
  {
    if a != [] {
      LessOrder(a[1..], b[1..], c[1..]);
      assert a == [a[0]] + a[1..] && b == [b[0]] + b[1..];
    }
  }

  /**
   * What the score prefers, one after the other: up to 30 frames per second the faster mode, then the
   * smaller, then one without the ISP, then an uncompressed one, then one the driver does not emulate.
   */
  lemma PreferenceOrder(a: Mode, b: Mode, formats: Formats)
    ensures
      var first := Less(Score(a, formats), Score(b, formats));
      var asFast :=
        MinDuration(a) == MinDuration(b) ||
        (MinDuration(a) <= PREFERRED_DURATION && MinDuration(b) <= PREFERRED_DURATION);
      var asLarge := asFast && Area(a.size) == Area(b.size);
      var asRaw := asLarge && formats.isp(a.fourcc) == formats.isp(b.fourcc);
      var asPacked := asRaw && formats.compressed(a.fourcc) == formats.compressed(b.fourcc);
      (MinDuration(a) < MinDuration(b) && MinDuration(b) > PREFERRED_DURATION ==> first) &&
      (asFast && Area(a.size) < Area(b.size) ==> first) &&
      (asLarge && !formats.isp(a.fourcc) && formats.isp(b.fourcc) ==> first) &&
      (asRaw && !formats.compressed(a.fourcc) && formats.compressed(b.fourcc) ==> first) &&
      (asPacked && !a.emulated && b.emulated ==> first)
  {
    var x, y := Score(a, formats), Score(b, formats);
    if x[0] < y[0] { FirstDifference(x, y, 0); }
    if x[0] == y[0] && x[1] < y[1] { FirstDifference(x, y, 1); }
    if x[0] == y[0] && x[1] == y[1] && x[2] < y[2] { FirstDifference(x, y, 2); }
    if x[0] == y[0] && x[1] == y[1] && x[2] == y[2] && x[3] < y[3] { FirstDifference(x, y, 3); }
    if x[0] == y[0] && x[1] == y[1] && x[2] == y[2] && x[3] == y[3] && x[4] < y[4] { FirstDifference(x, y, 4); }
  }

  lemma {:induction false} FirstDifference(a: seq<int>, b: seq<int>, k: nat)
    requires k < |a| == |b| && a[k] < b[k] && forall i :: 0 <= i < k ==> a[i] == b[i]
    ensures Less(a, b)
  {
    if k > 0 {
      FirstDifference(a[1..], b[1..], k - 1);
    }
  }

  function Needed(outputs: seq<Size>): (r: Size)
    ensures r.width >= 0 && r.height >= 0
    ensures forall i :: 0 <= i < |outputs| ==> Contains(r, outputs[i])
  {
    if outputs == [] then Size(0, 0) else
      var before, last := Needed(outputs[..|outputs| - 1]), outputs[|outputs| - 1];
      assert forall i :: 0 <= i < |outputs| - 1 ==> outputs[..|outputs| - 1][i] == outputs[i];
      Size(Max(before.width, last.width), Max(before.height, last.height))
  }

  function Better(m: Mode, best: Option<Mode>, formats: Formats): bool {
    best.None? || Less(Score(m, formats), Score(best.value, formats))
  }

  function Best(modes: seq<Mode>, needed: Size, formats: Formats): Option<Mode> {
    if modes == [] then None else
      var best, m := Best(modes[..|modes| - 1], needed, formats), modes[|modes| - 1];
      if Contains(m.size, needed) && Better(m, best, formats) then Some(m) else best
  }

  function Plan(modes: seq<Mode>, outputs: seq<Size>, formats: Formats): Option<Mode> {
    Best(modes, Needed(outputs), formats)
  }

  /** The mode can serve every output: each can be cut out of its frames. */
  ghost predicate Serves(m: Mode, outputs: seq<Size>) {
    m.size.width >= 0 && m.size.height >= 0 &&
    forall i :: 0 <= i < |outputs| ==> Contains(m.size, outputs[i])
  }

  lemma {:induction false} ServesIffNeeded(m: Mode, outputs: seq<Size>)
    ensures Contains(m.size, Needed(outputs)) <==> Serves(m, outputs)
  {
    if outputs != [] {
      var before := outputs[..|outputs| - 1];
      ServesIffNeeded(m, before);
      assert forall i :: 0 <= i < |before| ==> before[i] == outputs[i];
    }
  }

  /** No mode that serves the outputs has a lower score. */
  ghost predicate Lowest(m: Mode, modes: seq<Mode>, outputs: seq<Size>, formats: Formats) {
    forall j :: 0 <= j < |modes| && Serves(modes[j], outputs) ==>
      !Less(Score(modes[j], formats), Score(m, formats))
  }

  lemma {:induction false} BestIsLowest(modes: seq<Mode>, outputs: seq<Size>, formats: Formats)
    ensures
      match Best(modes, Needed(outputs), formats)
      case None => forall j :: 0 <= j < |modes| ==> !Serves(modes[j], outputs)
      case Some(m) => m in modes && Serves(m, outputs) && Lowest(m, modes, outputs, formats)
  {
    if modes != [] {
      var n := |modes| - 1;
      var before, m := modes[..n], modes[n];
      assert forall j :: 0 <= j < n ==> before[j] == modes[j];
      BestIsLowest(before, outputs, formats);
      ServesIffNeeded(m, outputs);
      match Best(before, Needed(outputs), formats)
      case None =>
        LessOrder(Score(m, formats), Score(m, formats), Score(m, formats));
      case Some(best) =>
        LessOrder(Score(m, formats), Score(m, formats), Score(m, formats));
        forall j | 0 <= j < |modes| && Serves(modes[j], outputs)
          ensures Better(m, Some(best), formats) ==> !Less(Score(modes[j], formats), Score(m, formats))
        {
          LessOrder(Score(modes[j], formats), Score(m, formats), Score(best, formats));
        }
    }
  }

  /** A mode is planned exactly when one serves all outputs, and then it has the least score of those. */
  lemma PlanIsLeast(modes: seq<Mode>, outputs: seq<Size>, formats: Formats)
    ensures Plan(modes, outputs, formats).Some? <==> exists j :: 0 <= j < |modes| && Serves(modes[j], outputs)
    ensures Plan(modes, outputs, formats).Some? ==>
      var m := Plan(modes, outputs, formats).value;
      m in modes && Serves(m, outputs) && Lowest(m, modes, outputs, formats)
  {
    BestIsLowest(modes, outputs, formats);
  }

  /** Fewer outputs never make planning fail, nor the score worse. */
  lemma FewerOutputs(modes: seq<Mode>, outputs: seq<Size>, fewer: seq<Size>, formats: Formats)
    requires forall i :: 0 <= i < |fewer| ==> fewer[i] in outputs
    requires Plan(modes, outputs, formats).Some?
    ensures Plan(modes, fewer, formats).Some?
    ensures !Less(Score(Plan(modes, outputs, formats).value, formats), Score(Plan(modes, fewer, formats).value, formats))
  {
    PlanIsLeast(modes, outputs, formats);
    PlanIsLeast(modes, fewer, formats);
    var m := Plan(modes, outputs, formats).value;
    var j :| 0 <= j < |modes| && modes[j] == m;
    assert Serves(modes[j], fewer);
  }

  // --- What is offered -----------------------------------------------------------------

  datatype OutputSize = OutputSize(size: Size, minFrameDuration: int)

  /** The modes of one format: every frame size that is not empty and has an interval. */
  function ModesOfFormat(f: FormatDescription, sizes: seq<FrameSize>): seq<Mode> {
    if sizes == [] then [] else
      var s := sizes[|sizes| - 1];
      ModesOfFormat(f, sizes[..|sizes| - 1]) +
      if s.width == 0 || s.height == 0 || s.intervals == [] then []
      else [Mode(f.fourcc, Size(ToInt32(s.width), ToInt32(s.height)), f.emulated, s.intervals)]
  }

  function ModesOf(descriptions: seq<FormatDescription>, formats: Formats): seq<Mode> {
    if descriptions == [] then [] else
      var f := descriptions[|descriptions| - 1];
      ModesOf(descriptions[..|descriptions| - 1], formats) +
      if formats.processed(f.fourcc) || formats.isp(f.fourcc) then ModesOfFormat(f, f.sizes) else []
  }

  function Largest(modes: seq<Mode>): Size {
    if modes == [] then Size(0, 0) else
      var before, s := Largest(modes[..|modes| - 1]), modes[|modes| - 1].size;
      if Area(s) > Area(before) then s else before
  }

  function Sizes(modes: seq<Mode>): seq<Size> {
    if modes == [] then [] else Sizes(modes[..|modes| - 1]) + [modes[|modes| - 1].size]
  }

  function Standard(largest: Size, sizes: seq<Size>): seq<Size> {
    if sizes == [] then [] else
      Standard(largest, sizes[..|sizes| - 1]) +
      if Contains(largest, sizes[|sizes| - 1]) then [sizes[|sizes| - 1]] else []
  }

  /** The shortest duration of the modes that contain the size; None without any. */
  function Shortest(modes: seq<Mode>, size: Size): (r: Option<int>)
    ensures r.None? ==> forall j :: 0 <= j < |modes| ==> !Contains(modes[j].size, size)
    ensures r.Some? ==> exists j :: 0 <= j < |modes| && Contains(modes[j].size, size) && MinDuration(modes[j]) == r.value
    ensures r.Some? ==> forall j :: 0 <= j < |modes| && Contains(modes[j].size, size) ==> r.value <= MinDuration(modes[j])
  {
    if modes == [] then None else
      var before, m := Shortest(modes[..|modes| - 1], size), modes[|modes| - 1];
      assert forall j :: 0 <= j < |modes| - 1 ==> modes[..|modes| - 1][j] == modes[j];
      if !Contains(m.size, size) then before
      else if before.None? then Some(MinDuration(m))
      else Some(Min(before.value, MinDuration(m)))
  }

  predicate Listed(outputs: seq<OutputSize>, size: Size) {
    exists i :: 0 <= i < |outputs| && outputs[i].size == size
  }

  function Offer(outputs: seq<OutputSize>, modes: seq<Mode>, size: Size): seq<OutputSize> {
    if Listed(outputs, size) then outputs else
      match Shortest(modes, size)
      case None => outputs
      case Some(d) => if d <= 0 then outputs else outputs + [OutputSize(size, d)]
  }

  function Offers(modes: seq<Mode>, sizes: seq<Size>): seq<OutputSize> {
    if sizes == [] then [] else Offer(Offers(modes, sizes[..|sizes| - 1]), modes, sizes[|sizes| - 1])
  }

  /** Larger areas first, then larger widths. */
  predicate Before(a: OutputSize, b: OutputSize) {
    Area(a.size) > Area(b.size) || (Area(a.size) == Area(b.size) && a.size.width > b.size.width)
  }

  function Insert(o: OutputSize, sorted: seq<OutputSize>): (r: seq<OutputSize>)
    ensures multiset(r) == multiset(sorted) + multiset{o}
  {
    if sorted == [] || Before(o, sorted[0]) then [o] + sorted
    else assert sorted == [sorted[0]] + sorted[1..]; [sorted[0]] + Insert(o, sorted[1..])
  }

  function Sort(s: seq<OutputSize>): (r: seq<OutputSize>)
    ensures multiset(r) == multiset(s)
  {
    if s == [] then [] else assert s == s[..|s| - 1] + [s[|s| - 1]]; Insert(s[|s| - 1], Sort(s[..|s| - 1]))
  }

  function OutputSizes(modes: seq<Mode>): seq<OutputSize> {
    Sort(Offers(modes, Sizes(modes) + Standard(Largest(modes), STANDARD_SIZES)))
  }

  /** What is offered: each size once, with a positive duration that is the shortest among containing modes. */
  ghost predicate Truthful(outputs: seq<OutputSize>, modes: seq<Mode>) {
    (forall i, j :: 0 <= i < j < |outputs| ==> outputs[i].size != outputs[j].size) &&
    forall i :: 0 <= i < |outputs| ==>
      outputs[i].minFrameDuration > 0 && Shortest(modes, outputs[i].size) == Some(outputs[i].minFrameDuration)
  }

  lemma {:induction false} OffersTruthful(modes: seq<Mode>, sizes: seq<Size>)
    ensures Truthful(Offers(modes, sizes), modes)
    ensures forall i :: 0 <= i < |Offers(modes, sizes)| ==> Offers(modes, sizes)[i].size in sizes
  {
    if sizes != [] {
      OffersTruthful(modes, sizes[..|sizes| - 1]);
    }
  }

  predicate NotNegative(s: Size) { s.width >= 0 && s.height >= 0 }

  /**
   * An offered size without negative sides can be planned alone, at the duration it is offered with, or
   * at the preferred one if that is longer. Any other, from a driver size of 2^31 or more, can be planned
   * if and only if a mode without negative sides contains it where it is not negative.
   */
  lemma OfferedCanBePlanned(modes: seq<Mode>, o: OutputSize, formats: Formats)
    requires o in OutputSizes(modes)
    ensures
      var plan := Plan(modes, [o.size], formats);
      (plan.Some? <==>
         NotNegative(o.size) ||
         exists j :: 0 <= j < |modes| && Contains(modes[j].size, Size(Max(0, o.size.width), Max(0, o.size.height)))) &&
      (plan.Some? ==> Contains(plan.value.size, o.size)) &&
      (NotNegative(o.size) ==> MinDuration(plan.value) <= Max(o.minFrameDuration, PREFERRED_DURATION))
  {
    PlanIsLeast(modes, [o.size], formats);
    assert [o.size][0] == o.size;
    if NotNegative(o.size) {
      NotNegativeIsServed(modes, o, formats);
    }
  }

  lemma NotNegativeIsServed(modes: seq<Mode>, o: OutputSize, formats: Formats)
    requires o in OutputSizes(modes) && NotNegative(o.size)
    ensures
      var plan := Plan(modes, [o.size], formats);
      plan.Some? && MinDuration(plan.value) <= Max(o.minFrameDuration, PREFERRED_DURATION)
  {
    var j := OfferedBy(modes, o);
    assert [o.size][0] == o.size;
    assert Serves(modes[j], [o.size]);
    PlanIsLeast(modes, [o.size], formats);
    var m := Plan(modes, [o.size], formats).value;
    assert !Less(Score(modes[j], formats), Score(m, formats));
  }

  lemma OfferedBy(modes: seq<Mode>, o: OutputSize) returns (j: nat)
    requires o in OutputSizes(modes)
    ensures j < |modes| && Contains(modes[j].size, o.size) && MinDuration(modes[j]) == o.minFrameDuration
  {
    var sizes := Sizes(modes) + Standard(Largest(modes), STANDARD_SIZES);
    OffersTruthful(modes, sizes);
    assert o in multiset(Offers(modes, sizes));
    assert o in Offers(modes, sizes);
    j :| 0 <= j < |modes| && Contains(modes[j].size, o.size) && MinDuration(modes[j]) == o.minFrameDuration;
  }

  lemma {:induction false} OffersAll(modes: seq<Mode>, sizes: seq<Size>, size: Size)
    requires size in sizes && Shortest(modes, size).Some? && Shortest(modes, size).value > 0
    ensures Listed(Offers(modes, sizes), size)
  {
    var rest := sizes[..|sizes| - 1];
    if size in rest {
      OffersAll(modes, rest, size);
      var i :| 0 <= i < |Offers(modes, rest)| && Offers(modes, rest)[i].size == size;
      assert Offers(modes, sizes)[i].size == size;
    } else if !Listed(Offers(modes, rest), size) {
      var all := Offers(modes, sizes);
      assert all[|all| - 1].size == size;
    }
  }

  /** A size is offered exactly when it is a capture or standard size some mode contains, all at valid rates. */
  lemma OfferedIff(modes: seq<Mode>, size: Size)
    ensures (exists o :: o in OutputSizes(modes) && o.size == size) <==>
      size in Sizes(modes) + Standard(Largest(modes), STANDARD_SIZES) &&
      Shortest(modes, size).Some? && Shortest(modes, size).value > 0
  {
    var sizes := Sizes(modes) + Standard(Largest(modes), STANDARD_SIZES);
    var offers := Offers(modes, sizes);
    forall o ensures o in OutputSizes(modes) <==> o in offers {
      assert o in multiset(OutputSizes(modes)) <==> o in multiset(offers);
    }
    OffersTruthful(modes, sizes);
    if size in sizes && Shortest(modes, size).Some? && Shortest(modes, size).value > 0 {
      OffersAll(modes, sizes, size);
      var i :| 0 <= i < |offers| && offers[i].size == size;
      assert offers[i] in OutputSizes(modes);
    }
  }

  ghost predicate LargestFirst(s: seq<OutputSize>) {
    forall i, j :: 0 <= i < j < |s| ==> !Before(s[j], s[i])
  }

  lemma {:induction false} InsertSorts(o: OutputSize, s: seq<OutputSize>)
    requires LargestFirst(s)
    ensures LargestFirst(Insert(o, s))
  {
    if s != [] && !Before(o, s[0]) {
      var rest := Insert(o, s[1..]);
      InsertSorts(o, s[1..]);
      forall j | 0 <= j < |rest| ensures !Before(rest[j], s[0]) {
        assert rest[j] in multiset(rest);
        assert rest[j] == o || rest[j] in s[1..];
      }
    }
  }

  lemma {:induction false} SortSorts(s: seq<OutputSize>)
    ensures LargestFirst(Sort(s))
  {
    if s != [] {
      SortSorts(s[..|s| - 1]);
      InsertSorts(s[|s| - 1], Sort(s[..|s| - 1]));
    }
  }

  // --- The class -----------------------------------------------------------------------

  class StreamPlanner {
    const formats: Formats
    var modes: seq<Mode>
    var maxSize: Size
    var outputSizes: seq<OutputSize>

    ghost predicate Valid()
      reads this
    {
      maxSize == Largest(modes) && outputSizes == OutputSizes(modes)
    }

    constructor (descriptions: seq<FormatDescription>, formats: Formats)
      ensures this.formats == formats && modes == ModesOf(descriptions, formats) && Valid()
    {
      this.formats := formats;
      modes, maxSize, outputSizes := [], Size(0, 0), [];
      new;
      CollectModes(descriptions);
      FindLargest();
      OfferSizes();
    }

    method CollectModes(descriptions: seq<FormatDescription>)
      requires modes == []
      modifies this`modes
      ensures modes == ModesOf(descriptions, formats)
    {
      for i := 0 to |descriptions|
        invariant modes == ModesOf(descriptions[..i], formats)
      {
        assert descriptions[..i + 1][..i] == descriptions[..i];
        var f := descriptions[i];
        if formats.processed(f.fourcc) || formats.isp(f.fourcc) {
          CollectSizes(f);
        }
      }
      assert descriptions[..|descriptions|] == descriptions;
    }

    method CollectSizes(f: FormatDescription)
      modifies this`modes
      ensures modes == old(modes) + ModesOfFormat(f, f.sizes)
    {
      for i := 0 to |f.sizes|
        invariant modes == old(modes) + ModesOfFormat(f, f.sizes[..i])
      {
        assert f.sizes[..i + 1][..i] == f.sizes[..i];
        var s := f.sizes[i];
        if s.width != 0 && s.height != 0 && s.intervals != [] {
          var mode := Mode(f.fourcc, Size(ToInt32(s.width), ToInt32(s.height)), f.emulated, s.intervals);
          modes := modes + [mode];
        }
      }
      assert f.sizes[..|f.sizes|] == f.sizes;
    }

    method FindLargest()
      requires maxSize == Size(0, 0)
      modifies this`maxSize
      ensures maxSize == Largest(modes)
    {
      for i := 0 to |modes|
        invariant maxSize == Largest(modes[..i])
      {
        assert modes[..i + 1][..i] == modes[..i];
        if Area(modes[i].size) > Area(maxSize) {
          maxSize := modes[i].size;
        }
      }
      assert modes[..|modes|] == modes;
    }

    method BestDuration(size: Size) returns (best: Option<int>)
      ensures best == Shortest(modes, size)
    {
      best := None;
      for i := 0 to |modes|
        invariant best == Shortest(modes[..i], size)
      {
        assert modes[..i + 1][..i] == modes[..i];
        if Contains(modes[i].size, size) {
          var d := MinDuration(modes[i]);
          best := Some(match best case None => d case Some(b) => Min(b, d));
        }
      }
      assert modes[..|modes|] == modes;
    }

    method IsOutputSize(size: Size) returns (listed: bool)
      ensures listed == Listed(outputSizes, size)
    {
      for i := 0 to |outputSizes|
        invariant forall j :: 0 <= j < i ==> outputSizes[j].size != size
      {
        if outputSizes[i].size == size {
          return true;
        }
      }
      listed := false;
    }

    method OfferSizes()
      requires outputSizes == [] && maxSize == Largest(modes)
      modifies this`outputSizes
      ensures outputSizes == OutputSizes(modes)
    {
      var sizes := Sizes(modes) + Standard(maxSize, STANDARD_SIZES);
      for i := 0 to |sizes|
        invariant outputSizes == Offers(modes, sizes[..i])
      {
        assert sizes[..i + 1][..i] == sizes[..i];
        var listed := IsOutputSize(sizes[i]);
        if !listed {
          var best := BestDuration(sizes[i]);
          if best.Some? && best.value > 0 {
            outputSizes := outputSizes + [OutputSize(sizes[i], best.value)];
          }
        }
      }
      assert sizes[..|sizes|] == sizes;
      outputSizes := Sort(outputSizes);
    }

    /** The box around all outputs. */
    static method Box(outputs: seq<Size>) returns (needed: Size)
      ensures needed == Needed(outputs)
    {
      needed := Size(0, 0);
      for i := 0 to |outputs|
        invariant needed == Needed(outputs[..i])
      {
        assert outputs[..i + 1][..i] == outputs[..i];
        needed := Size(Max(needed.width, outputs[i].width), Max(needed.height, outputs[i].height));
      }
      assert outputs[..|outputs|] == outputs;
    }

    method PlanOutputs(outputs: seq<Size>) returns (best: Option<Mode>)
      ensures best == Plan(modes, outputs, formats)
    {
      var needed := Box(outputs);
      best := None;
      for i := 0 to |modes|
        invariant best == Best(modes[..i], needed, formats)
      {
        assert modes[..i + 1][..i] == modes[..i];
        if Contains(modes[i].size, needed) && Better(modes[i], best, formats) {
          best := Some(modes[i]);
        }
      }
      assert modes[..|modes|] == modes;
    }
  }
}
