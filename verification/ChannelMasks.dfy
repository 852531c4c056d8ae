/**
 * The channel masks a profile advertises for its channel counts
 * (interfaces/audio/mainline/alsa/AlsaFormat.cpp).
 */
module ChannelMasks {
  import opened AudioConfiguration
  import opened AudioRoles
  import Common

  /** The positional layouts, and what they stand for. */
  datatype Layout = Mono | Stereo | TwoPointOne | Quad | FivePointOne | SevenPointOne

  datatype Mask = LayoutMask(layout: Layout) | IndexMask(bits: nat)

  function Speakers(layout: Layout): nat {
    match layout
    case Mono => 1
    case Stereo => 2
    case TwoPointOne => 3
    case Quad => 4
    case FivePointOne => 6
    case SevenPointOne => 8
  }

  function OutputLayoutsFor(channels: nat): seq<Layout> {
    match channels
    case 1 => [Mono]
    case 2 => [Stereo]
    case 3 => [TwoPointOne]
    case 4 => [Quad]
    case 6 => [FivePointOne]
    case 8 => [SevenPointOne]
    case _ => []
  }

  function InputLayoutsFor(channels: nat): seq<Layout> {
    match channels
    case 1 => [Mono]
    case 2 => [Stereo]
    case _ => []
  }

  function LayoutsFor(channels: nat, isInput: bool): seq<Layout> {
    if isInput then InputLayoutsFor(channels) else OutputLayoutsFor(channels)
  }

  function Power(n: nat): (p: nat)
    ensures p > 0
  {
    if n == 0 then 1 else 2 * Power(n - 1)
  }

  /** Population count. */
  function Ones(bits: nat): nat { if bits == 0 then 0 else bits % 2 + Ones(bits / 2) }

  function ChannelCount(m: Mask): nat {
    match m
    case LayoutMask(layout) => Speakers(layout)
    case IndexMask(bits) => Ones(bits)
  }

  function Positional(layouts: seq<Layout>): seq<Mask> {
    if layouts == [] then [] else Positional(layouts[..|layouts| - 1]) + [LayoutMask(layouts[|layouts| - 1])]
  }

  function MasksFor(channels: nat, isInput: bool): seq<Mask> {
    Positional(LayoutsFor(channels, isInput)) + [IndexMask(Power(channels) - 1)]
  }

  function MasksOf(counts: seq<nat>, isInput: bool): seq<Mask> {
    if counts == [] then [] else MasksOf(counts[..|counts| - 1], isInput) + MasksFor(counts[|counts| - 1], isInput)
  }

  lemma {:induction false} LowBitsSet(n: nat)
    ensures Ones(Power(n) - 1) == n
  {
    if n > 0 {
      LowBitsSet(n - 1);
      assert (Power(n) - 1) / 2 == Power(n - 1) - 1 && (Power(n) - 1) % 2 == 1;
    }
  }

  lemma {:induction false} PositionalExact(layouts: seq<Layout>, m: Mask)
    ensures m in Positional(layouts) <==> m.LayoutMask? && m.layout in layouts
  {
    if layouts != [] {
      var n := |layouts| - 1;
      PositionalExact(layouts[..n], m);
      assert layouts == layouts[..n] + [layouts[n]];
    }
  }

  /** A mask that is handed out for a count is one of that many channels. */
  predicate Stands(m: Mask, channels: nat, isInput: bool) {
    match m
    case LayoutMask(layout) => Speakers(layout) == channels && (isInput ==> layout.Mono? || layout.Stereo?)
    case IndexMask(bits) => bits == Power(channels) - 1
  }

  lemma LayoutsExact(channels: nat, isInput: bool, layout: Layout)
    ensures layout in LayoutsFor(channels, isInput) <==> Stands(LayoutMask(layout), channels, isInput)
  {
  }

  lemma MasksForExact(channels: nat, isInput: bool, m: Mask)
    ensures m in MasksFor(channels, isInput) <==> Stands(m, channels, isInput)
    ensures m in MasksFor(channels, isInput) ==> ChannelCount(m) == channels
  {
    PositionalExact(LayoutsFor(channels, isInput), m);
    match m
    case LayoutMask(layout) => LayoutsExact(channels, isInput, layout);
    case IndexMask(_) => LowBitsSet(channels);
  }

  /** What the mask is, if it is one that is handed out at all. */
  predicate Proper(m: Mask, isInput: bool) { Stands(m, ChannelCount(m), isInput) }

  lemma ProperIff(m: Mask, channels: nat, isInput: bool)
    ensures m in MasksFor(channels, isInput) <==> ChannelCount(m) == channels && Proper(m, isInput)
  {
    MasksForExact(channels, isInput, m);
  }

  lemma {:induction false} MasksOfExact(counts: seq<nat>, isInput: bool, m: Mask)
    ensures m in MasksOf(counts, isInput) <==> ChannelCount(m) in counts && Proper(m, isInput)
  {
    if counts != [] {
      var n := |counts| - 1;
      MasksOfExact(counts[..n], isInput, m);
      ProperIff(m, counts[n], isInput);
      InEither(counts[..n], [counts[n]], ChannelCount(m));
      InEither(MasksOf(counts[..n], isInput), MasksFor(counts[n], isInput), m);
      assert counts == counts[..n] + [counts[n]];
    }
  }

  lemma InEither<T>(a: seq<T>, b: seq<T>, x: T)
    ensures x in a + b <==> x in a || x in b
  {
  }

  /** Exactly the listed layouts and the low index masks of one to eight channels within the capabilities. */
  lemma MasksExact(caps: Capabilities, isInput: bool, m: Mask)
    ensures m in MasksOf(ChannelCounts(caps.minChannels, caps.maxChannels), isInput) <==>
      Proper(m, isInput) && caps.minChannels <= ChannelCount(m) <= caps.maxChannels &&
      1 <= ChannelCount(m) <= 8
  {
    MasksOfExact(ChannelCounts(caps.minChannels, caps.maxChannels), isInput, m);
  }

  /** What a profile advertises in masks is what it advertises in counts: each count has a mask. */
  lemma AdvertisedInMasks(caps: Capabilities, isInput: bool, f: Format, rate: nat, channels: nat)
    ensures
      var profiles := ProfilesFromCapabilities(caps);
      (exists i, m :: 0 <= i < |profiles| && profiles[i].format == f && rate in profiles[i].rates &&
         m in MasksOf(profiles[i].channels, isInput) && ChannelCount(m) == channels) <==>
      Supports(caps, f, rate, channels) && 1 <= channels <= 8
  {
    var profiles := ProfilesFromCapabilities(caps);
    ProfilesExact(caps, f, rate, channels);
    if Advertises(profiles, f, rate, channels) {
      var i :| 0 <= i < |profiles| && profiles[i].format == f && rate in profiles[i].rates && channels in profiles[i].channels;
      var m := IndexMask(Power(channels) - 1);
      LowBitsSet(channels);
      MasksOfExact(profiles[i].channels, isInput, m);
      assert m in MasksOf(profiles[i].channels, isInput) && ChannelCount(m) == channels;
    }
    forall i, m | 0 <= i < |profiles| && m in MasksOf(profiles[i].channels, isInput)
      ensures ChannelCount(m) in profiles[i].channels
    {
      MasksOfExact(profiles[i].channels, isInput, m);
    }
  }

  lemma OneMore(counts: seq<nat>, channels: nat, isInput: bool)
    ensures MasksOf(counts + [channels], isInput) == MasksOf(counts, isInput) + MasksFor(channels, isInput)
  {
    assert (counts + [channels])[..|counts|] == counts;
  }

  lemma CountOn(counts: seq<nat>, from: nat, to: nat)
    requires from <= to
    ensures counts + Counting(from, to) == counts + [from] + Counting(from + 1, to)
  {
  }

  method ChannelMasksFor(minChannels: nat, maxChannels: nat, isInput: bool) returns (masks: seq<Mask>)
    ensures masks == MasksOf(ChannelCounts(minChannels, maxChannels), isInput)
  {
    masks := [];
    var upper := Common.Min(maxChannels, 8);
    var channels := Common.Max(minChannels, 1);
    ghost var all, done: seq<nat> := ChannelCounts(minChannels, maxChannels), [];
    while channels <= upper
      invariant masks == MasksOf(done, isInput) && done + Counting(channels, upper) == all
      decreases upper - channels
    {
      OneMore(done, channels, isInput);
      CountOn(done, channels, upper);
      masks := masks + MasksFor(channels, isInput);
      done, channels := done + [channels], channels + 1;
    }
    assert done == all;
  }
}
