/**
 * Ports, profiles and routes of the module
 * (interfaces/audio/mainline/routing/ConfigurationBuilder.cpp, and the profiles of
 * interfaces/audio/mainline/alsa/AlsaFormat.cpp).
 */
module AudioConfiguration {
  import opened Common
  import opened AudioRoles

  const HRA_CUTOFF := 88200

  // --- Capabilities --------------------------------------------------------------------

  function Formats(endpoints: seq<Endpoint>): set<Format>
    requires endpoints != []
  {
    if |endpoints| == 1 then endpoints[0].caps.formats
    else Formats(endpoints[..|endpoints| - 1]) * endpoints[|endpoints| - 1].caps.formats
  }

  function Rates(endpoints: seq<Endpoint>): set<nat>
    requires endpoints != []
  {
    if |endpoints| == 1 then endpoints[0].caps.rates
    else Rates(endpoints[..|endpoints| - 1]) * endpoints[|endpoints| - 1].caps.rates
  }

  function MinChannels(endpoints: seq<Endpoint>, least: nat): nat {
    if endpoints == [] then least
    else Max(MinChannels(endpoints[..|endpoints| - 1], least), endpoints[|endpoints| - 1].caps.minChannels)
  }

  function MaxChannels(endpoints: seq<Endpoint>, most: nat): nat {
    if endpoints == [] then most
    else Min(MaxChannels(endpoints[..|endpoints| - 1], most), endpoints[|endpoints| - 1].caps.maxChannels)
  }

  function IntersectCapabilities(endpoints: seq<Endpoint>, least: nat, most: nat): Capabilities {
    var lo, hi := MinChannels(endpoints, least), MaxChannels(endpoints, most);
    if endpoints == [] || endpoints[0].caps.formats == {} || endpoints[0].caps.rates == {}
    then Capabilities({}, {}, lo, hi)
    else Capabilities(Formats(endpoints), Rates(endpoints), lo, hi)
  }

  predicate IsHraFormat(f: Format) { f.S24? || f.S24Packed? || f.S32? || f.Float? }

  predicate IsHraRate(rate: nat) { rate >= HRA_CUTOFF }

  predicate HasCommonProfile(caps: Capabilities) {
    caps.formats != {} && caps.rates != {} && caps.maxChannels > 0 && caps.minChannels <= caps.maxChannels
  }

  function IfAny<T>(kept: set<T>, all: set<T>): set<T> { if kept != {} then kept else all }

  function HraFilter(caps: Capabilities, isHra: bool): Capabilities {
    var formats := set f | f in caps.formats && IsHraFormat(f) == isHra;
    var rates := set r | r in caps.rates && IsHraRate(r) == isHra;
    if isHra then caps.(formats := formats, rates := rates)
    else caps.(formats := IfAny(formats, caps.formats), rates := IfAny(rates, caps.rates))
  }

  function OrFallback(caps: Capabilities, least: nat, most: nat): Capabilities {
    if HasCommonProfile(caps) then caps else FALLBACK.(minChannels := least, maxChannels := most)
  }

  /** One way to run a path. */
  predicate Supports(caps: Capabilities, f: Format, rate: nat, channels: nat) {
    f in caps.formats && rate in caps.rates && caps.minChannels <= channels <= caps.maxChannels
  }

  lemma {:induction false} CommonToAll(endpoints: seq<Endpoint>)
    requires endpoints != []
    ensures forall f :: f in Formats(endpoints) <==> forall i :: 0 <= i < |endpoints| ==> f in endpoints[i].caps.formats
    ensures forall r :: r in Rates(endpoints) <==> forall i :: 0 <= i < |endpoints| ==> r in endpoints[i].caps.rates
  {
    if |endpoints| > 1 {
      var n := |endpoints| - 1;
      CommonToAll(endpoints[..n]);
      assert forall i :: 0 <= i < n ==> endpoints[..n][i] == endpoints[i];
    }
  }

  lemma {:induction false} ChannelsInAll(endpoints: seq<Endpoint>, least: nat, most: nat, channels: nat)
    ensures MinChannels(endpoints, least) <= channels <==>
      least <= channels && forall i :: 0 <= i < |endpoints| ==> endpoints[i].caps.minChannels <= channels
    ensures channels <= MaxChannels(endpoints, most) <==>
      channels <= most && forall i :: 0 <= i < |endpoints| ==> channels <= endpoints[i].caps.maxChannels
  {
    if endpoints != [] {
      var n := |endpoints| - 1;
      ChannelsInAll(endpoints[..n], least, most, channels);
      assert forall i :: 0 <= i < n ==> endpoints[..n][i] == endpoints[i];
    }
  }

  /** The intersection supports exactly what every endpoint supports, within the window of channels. */
  lemma IntersectionExact(endpoints: seq<Endpoint>, least: nat, most: nat, f: Format, rate: nat, channels: nat)
    requires endpoints != []
    ensures Supports(IntersectCapabilities(endpoints, least, most), f, rate, channels) <==>
      least <= channels <= most && forall i :: 0 <= i < |endpoints| ==> Supports(endpoints[i].caps, f, rate, channels)
  {
    CommonToAll(endpoints);
    ChannelsInAll(endpoints, least, most, channels);
    assert Supports(endpoints[0].caps, f, rate, channels) ==> endpoints[0].caps.formats != {} && endpoints[0].caps.rates != {};
  }

  /** The filter only takes things out. */
  lemma FilterNarrows(caps: Capabilities, isHra: bool, f: Format, rate: nat, channels: nat)
    requires Supports(HraFilter(caps, isHra), f, rate, channels)
    ensures Supports(caps, f, rate, channels)
    ensures isHra ==> IsHraFormat(f) && IsHraRate(rate)
    ensures !isHra && IsHraFormat(f) ==> forall g :: g in caps.formats ==> IsHraFormat(g)
    ensures !isHra && IsHraRate(rate) ==> forall r :: r in caps.rates ==> IsHraRate(r)
  {
    var formats := set g | g in caps.formats && IsHraFormat(g) == isHra;
    var rates := set r | r in caps.rates && IsHraRate(r) == isHra;
    assert forall g :: g in caps.formats && IsHraFormat(g) == isHra ==> g in formats;
    assert forall r :: r in caps.rates && IsHraRate(r) == isHra ==> r in rates;
  }

  /** Filtering out high resolution audio never takes away the last configuration. */
  lemma PrimaryFilterKeepsProfile(caps: Capabilities)
    ensures HasCommonProfile(HraFilter(caps, false)) <==> HasCommonProfile(caps)
  {
    var formats := set f | f in caps.formats && !IsHraFormat(f);
    var rates := set r | r in caps.rates && !IsHraRate(r);
    assert formats <= caps.formats && rates <= caps.rates;
    assert HraFilter(caps, false) == caps.(formats := IfAny(formats, caps.formats), rates := IfAny(rates, caps.rates));
  }

  // --- Profiles ------------------------------------------------------------------------

  datatype Profile = Profile(format: Format, channels: seq<nat>, rates: set<nat>)

  const FORMAT_ORDER := [S16, Float, S24Packed, S24, S32, U8]

  function Counting(from: nat, to: nat): (r: seq<nat>)
    ensures forall c :: (c in r <==> from <= c <= to)
    decreases if from <= to then to - from + 1 else 0
  {
    if from > to then [] else [from] + Counting(from + 1, to)
  }

  /** The channel counts of the masks that are offered: at least one channel, at most eight. */
  function ChannelCounts(least: nat, most: nat): seq<nat> { Counting(Max(least, 1), Min(most, 8)) }

  function ProfilesOf(caps: Capabilities, order: seq<Format>): seq<Profile> {
    if order == [] then [] else
      ProfilesOf(caps, order[..|order| - 1]) +
      if order[|order| - 1] !in caps.formats then []
      else [Profile(order[|order| - 1], ChannelCounts(caps.minChannels, caps.maxChannels), caps.rates)]
  }

  function ProfilesFromCapabilities(caps: Capabilities): seq<Profile> {
    if ChannelCounts(caps.minChannels, caps.maxChannels) == [] || caps.rates == {} then []
    else ProfilesOf(caps, FORMAT_ORDER)
  }

  predicate Advertises(profiles: seq<Profile>, f: Format, rate: nat, channels: nat) {
    exists i :: 0 <= i < |profiles| &&
      profiles[i].format == f && rate in profiles[i].rates && channels in profiles[i].channels
  }

  predicate HasFormat(profiles: seq<Profile>, f: Format) {
    exists i :: 0 <= i < |profiles| && profiles[i].format == f
  }

  lemma HasFormatConcat(a: seq<Profile>, b: seq<Profile>, f: Format)
    ensures HasFormat(a + b, f) <==> HasFormat(a, f) || HasFormat(b, f)
  {
    if HasFormat(a, f) {
      var i :| 0 <= i < |a| && a[i].format == f;
      assert (a + b)[i].format == f;
    }
    if HasFormat(b, f) {
      var i :| 0 <= i < |b| && b[i].format == f;
      assert (a + b)[|a| + i].format == f;
    }
  }

  lemma {:induction false} ProfilesOfExact(caps: Capabilities, order: seq<Format>, f: Format)
    ensures HasFormat(ProfilesOf(caps, order), f) <==> f in caps.formats && f in order
    ensures forall i :: 0 <= i < |ProfilesOf(caps, order)| ==>
      ProfilesOf(caps, order)[i].rates == caps.rates &&
      ProfilesOf(caps, order)[i].channels == ChannelCounts(caps.minChannels, caps.maxChannels)
  {
    if order != [] {
      var n := |order| - 1;
      ProfilesOfExact(caps, order[..n], f);
      var before := ProfilesOf(caps, order[..n]);
      var last := Profile(order[n], ChannelCounts(caps.minChannels, caps.maxChannels), caps.rates);
      assert before + [] == before;
      assert order == order[..n] + [order[n]];
      assert f in order <==> f in order[..n] || f == order[n];
      HasFormatConcat(before, [last], f);
      assert HasFormat([last], f) <==> [last][0].format == f;
    }
  }

  lemma EveryFormatOrdered(f: Format)
    ensures f in FORMAT_ORDER
  {
    assert FORMAT_ORDER[0] == S16 && FORMAT_ORDER[1] == Float && FORMAT_ORDER[2] == S24Packed;
    assert FORMAT_ORDER[3] == S24 && FORMAT_ORDER[4] == S32 && FORMAT_ORDER[5] == U8;
  }

  /** The profiles advertise exactly what the capabilities support, with one to eight channels. */
  lemma ProfilesExact(caps: Capabilities, f: Format, rate: nat, channels: nat)
    ensures Advertises(ProfilesFromCapabilities(caps), f, rate, channels) <==>
      Supports(caps, f, rate, channels) && 1 <= channels <= 8
  {
    var profiles := ProfilesOf(caps, FORMAT_ORDER);
    var counts := ChannelCounts(caps.minChannels, caps.maxChannels);
    ProfilesOfExact(caps, FORMAT_ORDER, f);
    EveryFormatOrdered(f);
    assert channels in counts <==> caps.minChannels <= channels <= caps.maxChannels && 1 <= channels <= 8;
    if Supports(caps, f, rate, channels) && 1 <= channels <= 8 {
      assert counts != [] && caps.rates != {};
      var i :| 0 <= i < |profiles| && profiles[i].format == f;
      assert channels in profiles[i].channels;
    }
  }

  /** A common configuration of at most eight channels is never left without a profile. */
  lemma CommonHasProfiles(caps: Capabilities)
    requires HasCommonProfile(caps) && caps.maxChannels <= 8
    ensures ProfilesFromCapabilities(caps) != []
  {
    var f :| f in caps.formats;
    var rate :| rate in caps.rates;
    ProfilesExact(caps, f, rate, caps.maxChannels);
  }

  // --- The configuration ---------------------------------------------------------------

  datatype Kind =
    | DevicePort | UsbTemplate
    | PrimaryOutput | MultichannelOutput | HiresOutput | PrimaryInput | UsbOutput | UsbInput

  datatype Port = Port(id: nat, kind: Kind, isInput: bool, profiles: seq<Profile>)

  datatype Route = Route(sources: seq<nat>, sink: nat)

  datatype Config = Config(ports: seq<Port>, routes: seq<Route>, nextId: nat)

  predicate Multichannel(e: Endpoint) { !e.isInput && e.caps.maxChannels >= 6 && !e.isNull }

  predicate Hires(e: Endpoint) {
    !e.isInput && !e.isNull && (exists r :: r in e.caps.rates && IsHraRate(r)) &&
    (exists f :: f in e.caps.formats && IsHraFormat(f))
  }

  /** The endpoints a mix port is for, and the window of channel counts it has. */
  predicate Routed(kind: Kind, e: Endpoint) {
    match kind
    case PrimaryOutput => !e.isInput
    case MultichannelOutput => Multichannel(e)
    case HiresOutput => Hires(e)
    case PrimaryInput => e.isInput
    case _ => false
  }

  function Members(kind: Kind, endpoints: seq<Endpoint>): seq<Endpoint> {
    if endpoints == [] then [] else
      var e := endpoints[|endpoints| - 1];
      Members(kind, endpoints[..|endpoints| - 1]) + if Routed(kind, e) then [e] else []
  }

  /** Port IDs of those endpoints; endpoint i has ID first + i. */
  function MemberIds(kind: Kind, endpoints: seq<Endpoint>, first: nat): seq<nat> {
    if endpoints == [] then [] else
      var n := |endpoints| - 1;
      MemberIds(kind, endpoints[..n], first) + if Routed(kind, endpoints[n]) then [first + n] else []
  }

  /** What the endpoints of a mix port have in common, as far as it is meant for it. */
  function Shared(kind: Kind, endpoints: seq<Endpoint>): Capabilities {
    var members := Members(kind, endpoints);
    match kind
    case PrimaryOutput => HraFilter(IntersectCapabilities(members, 1, 2), false)
    case MultichannelOutput => IntersectCapabilities(members, 3, 8)
    case HiresOutput => HraFilter(IntersectCapabilities(members, 1, 2), true)
    case _ => IntersectCapabilities(members, 1, 2)
  }

  function DevicePorts(endpoints: seq<Endpoint>, first: nat): (r: seq<Port>)
    ensures |r| == |endpoints|
  {
    if endpoints == [] then [] else
      var n := |endpoints| - 1;
      var e := endpoints[n];
      DevicePorts(endpoints[..n], first) +
      [Port(first + n, DevicePort, e.isInput,
            if IsExternalRole(e.role) then [] else ProfilesFromCapabilities(e.caps))]
  }

  function AddPort(c: Config, kind: Kind, isInput: bool, profiles: seq<Profile>): Config {
    Config(c.ports + [Port(c.nextId, kind, isInput, profiles)], c.routes, c.nextId + 1)
  }

  /** One route from the source to each sink. */
  function RoutesTo(source: nat, sinks: seq<nat>): (r: seq<Route>)
    ensures |r| == |sinks| && forall i :: 0 <= i < |r| ==> r[i] == Route([source], sinks[i])
  {
    if sinks == [] then [] else RoutesTo(source, sinks[..|sinks| - 1]) + [Route([source], sinks[|sinks| - 1])]
  }

  function AddOutput(c: Config, kind: Kind, profiles: seq<Profile>, sinks: seq<nat>): Config {
    AddPort(c, kind, false, profiles).(routes := c.routes + RoutesTo(c.nextId, sinks))
  }

  function AddInput(c: Config, kind: Kind, profiles: seq<Profile>, sources: seq<nat>): Config {
    AddPort(c, kind, true, profiles).(routes := c.routes + [Route(sources, c.nextId)])
  }

  /** Optional outputs are left out without members or a common configuration. */
  function AddOptional(c: Config, kind: Kind, endpoints: seq<Endpoint>, first: nat): Config {
    if Members(kind, endpoints) == [] || !HasCommonProfile(Shared(kind, endpoints)) then c
    else AddOutput(c, kind, ProfilesFromCapabilities(Shared(kind, endpoints)), MemberIds(kind, endpoints, first))
  }

  function PrimaryProfiles(kind: Kind, endpoints: seq<Endpoint>): seq<Profile> {
    ProfilesFromCapabilities(OrFallback(Shared(kind, endpoints), 1, 2))
  }

  /** The device ports and the four USB templates. */
  function Devices(endpoints: seq<Endpoint>, first: nat): Config {
    var c := Config(DevicePorts(endpoints, first), [], first + |endpoints|);
    var outputs := AddPort(AddPort(c, UsbTemplate, false, []), UsbTemplate, false, []);
    AddPort(AddPort(outputs, UsbTemplate, true, []), UsbTemplate, true, [])
  }

  function Outputs(endpoints: seq<Endpoint>, first: nat, multichannel: bool): Config {
    var primary := AddOutput(Devices(endpoints, first), PrimaryOutput, PrimaryProfiles(PrimaryOutput, endpoints),
                             MemberIds(PrimaryOutput, endpoints, first));
    var multi := if multichannel then AddOptional(primary, MultichannelOutput, endpoints, first) else primary;
    AddOptional(multi, HiresOutput, endpoints, first)
  }

  function Inputs(endpoints: seq<Endpoint>, first: nat, multichannel: bool): Config {
    var outputs, sources := Outputs(endpoints, first, multichannel), MemberIds(PrimaryInput, endpoints, first);
    if sources == [] then outputs
    else AddInput(outputs, PrimaryInput, PrimaryProfiles(PrimaryInput, endpoints), sources)
  }

  /** The mix ports of the USB templates, the four ports from id on; their profiles come with a device. */
  function AddUsb(c: Config, id: nat): Config {
    AddInput(AddOutput(c, UsbOutput, [], [id, id + 1]), UsbInput, [], [id + 2, id + 3])
  }

  function Build(endpoints: seq<Endpoint>, first: nat, multichannel: bool): Config {
    AddUsb(Inputs(endpoints, first, multichannel), first + |endpoints|)
  }

  // --- What the configuration guarantees -----------------------------------------------

  /** Port IDs count up from the first one, and routes only name ports. */
  ghost predicate Numbered(c: Config, first: nat) {
    c.nextId == first + |c.ports| &&
    (forall i :: 0 <= i < |c.ports| ==> c.ports[i].id == first + i) &&
    (forall i :: 0 <= i < |c.routes| ==> first <= c.routes[i].sink < c.nextId) &&
    (forall i, j :: 0 <= i < |c.routes| && 0 <= j < |c.routes[i].sources| ==>
       first <= c.routes[i].sources[j] < c.nextId)
  }

  /** Whatever is advertised is supported. */
  ghost predicate Covers(profiles: seq<Profile>, caps: Capabilities) {
    forall f, rate, channels :: Advertises(profiles, f, rate, channels) ==> Supports(caps, f, rate, channels)
  }

  ghost predicate CoveredPort(profiles: seq<Profile>, endpoints: seq<Endpoint>, first: nat, id: nat) {
    first <= id < first + |endpoints| && Covers(profiles, endpoints[id - first].caps)
  }

  predicate IsPrimary(kind: Kind) { kind.PrimaryOutput? || kind.PrimaryInput? }

  /** A mix port whose profiles are those its endpoints share, not the fallback. */
  predicate Genuine(kind: Kind, endpoints: seq<Endpoint>) {
    kind.MultichannelOutput? || kind.HiresOutput? ||
    (IsPrimary(kind) && HasCommonProfile(Shared(kind, endpoints)))
  }

  ghost predicate RouteCovered(p: Port, r: Route, endpoints: seq<Endpoint>, first: nat) {
    (p.id in r.sources ==> CoveredPort(p.profiles, endpoints, first, r.sink)) &&
    (r.sink == p.id ==> forall s :: s in r.sources ==> CoveredPort(p.profiles, endpoints, first, s))
  }

  /** Along every route of a genuine mix port the device port supports all the mix port advertises. */
  ghost predicate AllCovered(c: Config, endpoints: seq<Endpoint>, first: nat) {
    forall i, j :: 0 <= i < |c.ports| && 0 <= j < |c.routes| && Genuine(c.ports[i].kind, endpoints) ==>
      RouteCovered(c.ports[i], c.routes[j], endpoints, first)
  }

  /** No mix port but the USB ones, which are filled in later, is left without profiles. */
  ghost predicate NoneDynamic(c: Config) {
    forall i :: 0 <= i < |c.ports| && c.ports[i].profiles == [] ==>
      c.ports[i].kind.DevicePort? || c.ports[i].kind.UsbTemplate? || c.ports[i].kind.UsbOutput? || c.ports[i].kind.UsbInput?
  }

  /** One past the last device port, the USB templates included. */
  function MixStart(endpoints: seq<Endpoint>, first: nat): nat { first + |endpoints| + 4 }

  predicate IsDevice(kind: Kind) { kind.DevicePort? || kind.UsbTemplate? }

  ghost predicate DevicesFirst(c: Config, endpoints: seq<Endpoint>, first: nat) {
    MixStart(endpoints, first) <= c.nextId &&
    forall i :: 0 <= i < |c.ports| ==> (IsDevice(c.ports[i].kind) <==> c.ports[i].id < MixStart(endpoints, first))
  }

  ghost predicate Good(c: Config, endpoints: seq<Endpoint>, first: nat) {
    Numbered(c, first) && DevicesFirst(c, endpoints, first) && AllCovered(c, endpoints, first) && NoneDynamic(c)
  }

  lemma {:induction false} MembersFound(kind: Kind, endpoints: seq<Endpoint>, first: nat)
    ensures Members(kind, endpoints) == [] <==> MemberIds(kind, endpoints, first) == []
    ensures forall id :: id in MemberIds(kind, endpoints, first) <==>
      first <= id < first + |endpoints| && Routed(kind, endpoints[id - first])
    ensures forall id :: id in MemberIds(kind, endpoints, first) ==> endpoints[id - first] in Members(kind, endpoints)
  {
    if endpoints != [] {
      var n := |endpoints| - 1;
      MembersFound(kind, endpoints[..n], first);
      assert forall i :: 0 <= i < n ==> endpoints[..n][i] == endpoints[i];
    }
  }

  lemma SharedCovered(kind: Kind, endpoints: seq<Endpoint>, e: Endpoint)
    requires e in Members(kind, endpoints)
    ensures Covers(ProfilesFromCapabilities(Shared(kind, endpoints)), e.caps)
  {
    var members := Members(kind, endpoints);
    var least := if kind.MultichannelOutput? then 3 else 1;
    var most := if kind.MultichannelOutput? then 8 else 2;
    forall f, rate, channels | Advertises(ProfilesFromCapabilities(Shared(kind, endpoints)), f, rate, channels)
      ensures Supports(e.caps, f, rate, channels)
    {
      ProfilesExact(Shared(kind, endpoints), f, rate, channels);
      var all := IntersectCapabilities(members, least, most);
      if kind.PrimaryOutput? || kind.HiresOutput? {
        FilterNarrows(all, kind.HiresOutput?, f, rate, channels);
      }
      IntersectionExact(members, least, most, f, rate, channels);
    }
  }

  lemma MemberCovered(kind: Kind, endpoints: seq<Endpoint>, first: nat, id: nat)
    requires id in MemberIds(kind, endpoints, first)
    ensures CoveredPort(ProfilesFromCapabilities(Shared(kind, endpoints)), endpoints, first, id)
  {
    MembersFound(kind, endpoints, first);
    SharedCovered(kind, endpoints, endpoints[id - first]);
  }

  /** The window of channels is never wider than eight. */
  lemma SharedNarrow(kind: Kind, endpoints: seq<Endpoint>)
    ensures Shared(kind, endpoints).maxChannels <= 8
  {
    ChannelsInAll(Members(kind, endpoints), 0, 8, MaxChannels(Members(kind, endpoints), 8));
    ChannelsInAll(Members(kind, endpoints), 0, 2, MaxChannels(Members(kind, endpoints), 2));
  }

  lemma PrimaryHasProfiles(kind: Kind, endpoints: seq<Endpoint>)
    ensures PrimaryProfiles(kind, endpoints) != []
  {
    SharedNarrow(kind, endpoints);
    CommonHasProfiles(OrFallback(Shared(kind, endpoints), 1, 2));
  }

  /** The ports may be named in a route of a new mix port, and support what it advertises if it is genuine. */
  ghost predicate MayRoute(ids: seq<nat>, kind: Kind, profiles: seq<Profile>, endpoints: seq<Endpoint>, first: nat) {
    (profiles == [] ==> kind.UsbOutput? || kind.UsbInput?) && !IsDevice(kind) &&
    (forall i :: 0 <= i < |ids| ==> first <= ids[i] < MixStart(endpoints, first)) &&
    (Genuine(kind, endpoints) ==> forall i :: 0 <= i < |ids| ==> CoveredPort(profiles, endpoints, first, ids[i]))
  }

  lemma AddOutputGood(c: Config, kind: Kind, profiles: seq<Profile>, sinks: seq<nat>, endpoints: seq<Endpoint>, first: nat)
    requires Good(c, endpoints, first) && MayRoute(sinks, kind, profiles, endpoints, first)
    ensures Good(AddOutput(c, kind, profiles, sinks), endpoints, first)
  {
    var after := AddOutput(c, kind, profiles, sinks);
    var added := RoutesTo(c.nextId, sinks);
    forall i, j | 0 <= i < |after.ports| && 0 <= j < |after.routes| && Genuine(after.ports[i].kind, endpoints)
      ensures RouteCovered(after.ports[i], after.routes[j], endpoints, first)
    {
      if j >= |c.routes| {
        assert after.routes[j] == added[j - |c.routes|];
      }
    }
  }

  lemma AddInputGood(c: Config, kind: Kind, profiles: seq<Profile>, sources: seq<nat>, endpoints: seq<Endpoint>, first: nat)
    requires Good(c, endpoints, first) && MayRoute(sources, kind, profiles, endpoints, first)
    ensures Good(AddInput(c, kind, profiles, sources), endpoints, first)
  {
    var after := AddInput(c, kind, profiles, sources);
    forall i, j | 0 <= i < |after.ports| && 0 <= j < |after.routes| && Genuine(after.ports[i].kind, endpoints)
      ensures RouteCovered(after.ports[i], after.routes[j], endpoints, first)
    {
    }
  }

  lemma SharedMayRoute(kind: Kind, profiles: seq<Profile>, endpoints: seq<Endpoint>, first: nat)
    requires !IsDevice(kind) && profiles != []
    requires Genuine(kind, endpoints) ==> profiles == ProfilesFromCapabilities(Shared(kind, endpoints))
    ensures MayRoute(MemberIds(kind, endpoints, first), kind, profiles, endpoints, first)
  {
    var ids := MemberIds(kind, endpoints, first);
    MembersFound(kind, endpoints, first);
    forall i | 0 <= i < |ids|
      ensures first <= ids[i] < MixStart(endpoints, first)
      ensures Genuine(kind, endpoints) ==> CoveredPort(profiles, endpoints, first, ids[i])
    {
      assert ids[i] in ids;
      MemberCovered(kind, endpoints, first, ids[i]);
    }
  }

  lemma AddOptionalGood(c: Config, kind: Kind, endpoints: seq<Endpoint>, first: nat)
    requires Good(c, endpoints, first) && (kind.MultichannelOutput? || kind.HiresOutput?)
    ensures Good(AddOptional(c, kind, endpoints, first), endpoints, first)
  {
    if HasCommonProfile(Shared(kind, endpoints)) {
      var profiles := ProfilesFromCapabilities(Shared(kind, endpoints));
      SharedNarrow(kind, endpoints);
      CommonHasProfiles(Shared(kind, endpoints));
      SharedMayRoute(kind, profiles, endpoints, first);
      AddOutputGood(c, kind, profiles, MemberIds(kind, endpoints, first), endpoints, first);
    }
  }

  lemma {:induction false} DevicePortsNumbered(endpoints: seq<Endpoint>, first: nat)
    ensures forall i :: 0 <= i < |endpoints| ==>
      DevicePorts(endpoints, first)[i].id == first + i && DevicePorts(endpoints, first)[i].kind.DevicePort?
  {
    if endpoints != [] {
      DevicePortsNumbered(endpoints[..|endpoints| - 1], first);
    }
  }

  lemma DevicesGood(endpoints: seq<Endpoint>, first: nat)
    ensures Good(Devices(endpoints, first), endpoints, first)
  {
    DevicePortsNumbered(endpoints, first);
  }

  lemma OutputsGood(endpoints: seq<Endpoint>, first: nat, multichannel: bool)
    ensures Good(Outputs(endpoints, first, multichannel), endpoints, first)
  {
    var devices, profiles := Devices(endpoints, first), PrimaryProfiles(PrimaryOutput, endpoints);
    var sinks := MemberIds(PrimaryOutput, endpoints, first);
    DevicesGood(endpoints, first);
    PrimaryHasProfiles(PrimaryOutput, endpoints);
    SharedMayRoute(PrimaryOutput, profiles, endpoints, first);
    AddOutputGood(devices, PrimaryOutput, profiles, sinks, endpoints, first);
    var primary := AddOutput(devices, PrimaryOutput, profiles, sinks);
    AddOptionalGood(primary, MultichannelOutput, endpoints, first);
    var multi := if multichannel then AddOptional(primary, MultichannelOutput, endpoints, first) else primary;
    AddOptionalGood(multi, HiresOutput, endpoints, first);
  }

  lemma InputsGood(endpoints: seq<Endpoint>, first: nat, multichannel: bool)
    ensures Good(Inputs(endpoints, first, multichannel), endpoints, first)
  {
    var profiles, sources := PrimaryProfiles(PrimaryInput, endpoints), MemberIds(PrimaryInput, endpoints, first);
    OutputsGood(endpoints, first, multichannel);
    PrimaryHasProfiles(PrimaryInput, endpoints);
    SharedMayRoute(PrimaryInput, profiles, endpoints, first);
    AddInputGood(Outputs(endpoints, first, multichannel), PrimaryInput, profiles, sources, endpoints, first);
  }

  lemma AddUsbGood(c: Config, endpoints: seq<Endpoint>, first: nat)
    requires Good(c, endpoints, first)
    ensures Good(AddUsb(c, first + |endpoints|), endpoints, first)
  {
    var id := first + |endpoints|;
    UsbMayRoute(endpoints, first);
    AddOutputGood(c, UsbOutput, [], [id, id + 1], endpoints, first);
    AddInputGood(AddOutput(c, UsbOutput, [], [id, id + 1]), UsbInput, [], [id + 2, id + 3], endpoints, first);
  }

  lemma UsbMayRoute(endpoints: seq<Endpoint>, first: nat)
    ensures
      var id := first + |endpoints|;
      MayRoute([id, id + 1], UsbOutput, [], endpoints, first) && MayRoute([id + 2, id + 3], UsbInput, [], endpoints, first)
  {
  }

  /**
   * Whatever the endpoints: port IDs are consecutive and routes name ports, no mix port but the USB
   * ones is without profiles, and along every route of a mix port that does not use the fallback
   * the device port supports every format, rate and channel count the mix port advertises.
   */
  lemma ConfigurationGood(endpoints: seq<Endpoint>, first: nat, multichannel: bool)
    ensures Good(Build(endpoints, first, multichannel), endpoints, first)
  {
    InputsGood(endpoints, first, multichannel);
    AddUsbGood(Inputs(endpoints, first, multichannel), endpoints, first);
  }

  // --- The primary output --------------------------------------------------------------

  predicate Extends(a: Config, b: Config) { a.ports <= b.ports && a.routes <= b.routes }

  lemma AddExtends(c: Config, kind: Kind, profiles: seq<Profile>, ids: seq<nat>, endpoints: seq<Endpoint>, first: nat)
    ensures Extends(c, AddOutput(c, kind, profiles, ids)) && Extends(c, AddInput(c, kind, profiles, ids))
    ensures Extends(c, AddOptional(c, kind, endpoints, first))
  {
  }

  function Primary(endpoints: seq<Endpoint>, first: nat): Config {
    AddOutput(Devices(endpoints, first), PrimaryOutput, PrimaryProfiles(PrimaryOutput, endpoints),
              MemberIds(PrimaryOutput, endpoints, first))
  }

  lemma BuildExtendsPrimary(endpoints: seq<Endpoint>, first: nat, multichannel: bool)
    ensures Extends(Primary(endpoints, first), Build(endpoints, first, multichannel))
  {
    var primary := Primary(endpoints, first);
    AddExtends(primary, MultichannelOutput, [], [], endpoints, first);
    var multi := if multichannel then AddOptional(primary, MultichannelOutput, endpoints, first) else primary;
    AddExtends(multi, HiresOutput, [], [], endpoints, first);
    var outputs := AddOptional(multi, HiresOutput, endpoints, first);
    AddExtends(outputs, PrimaryInput, PrimaryProfiles(PrimaryInput, endpoints),
               MemberIds(PrimaryInput, endpoints, first), endpoints, first);
  }

  predicate PrimaryAt(c: Config, at: nat, route: Route) {
    at < |c.ports| && c.ports[at].kind == PrimaryOutput && c.ports[at].profiles != [] && route in c.routes
  }

  lemma StillPrimaryAt(a: Config, b: Config, at: nat, route: Route)
    requires Extends(a, b) && PrimaryAt(a, at, route)
    ensures PrimaryAt(b, at, route)
  {
    var j :| 0 <= j < |a.routes| && a.routes[j] == route;
    assert b.routes[j] == route;
  }

  lemma PrimaryReaches(endpoints: seq<Endpoint>, first: nat, i: nat)
    requires i < |endpoints| && !endpoints[i].isInput
    ensures PrimaryAt(Primary(endpoints, first), |endpoints| + 4, Route([MixStart(endpoints, first)], first + i))
  {
    var primary := Primary(endpoints, first);
    var sinks := MemberIds(PrimaryOutput, endpoints, first);
    PrimaryHasProfiles(PrimaryOutput, endpoints);
    MembersFound(PrimaryOutput, endpoints, first);
    assert first + i in sinks;
    var j :| 0 <= j < |sinks| && sinks[j] == first + i;
    assert primary.routes[j] == Route([MixStart(endpoints, first)], first + i);
  }

  /**
   * The primary output comes right behind the devices, always has a profile, and is routed to every
   * output device port.
   */
  lemma PrimaryReachesAll(endpoints: seq<Endpoint>, first: nat, multichannel: bool, i: nat)
    requires i < |endpoints| && !endpoints[i].isInput
    ensures
      var c, at := Build(endpoints, first, multichannel), |endpoints| + 4;
      at < |c.ports| && c.ports[at].kind == PrimaryOutput && c.ports[at].profiles != [] &&
      Route([MixStart(endpoints, first)], first + i) in c.routes
  {
    PrimaryReaches(endpoints, first, i);
    BuildExtendsPrimary(endpoints, first, multichannel);
    StillPrimaryAt(Primary(endpoints, first), Build(endpoints, first, multichannel), |endpoints| + 4,
                   Route([MixStart(endpoints, first)], first + i));
  }

  /** On every device there is a speaker, and the primary output plays to it. */
  lemma SpeakerIsRouted(found: seq<Endpoint>, primary: int, nullMic: bool, first: nat, multichannel: bool) returns (i: nat)
    requires forall j :: 0 <= j < |found| ==> Collected(found[j])
    ensures
      var all := Inventory(found, primary, nullMic);
      i < |all| && all[i].role == Speaker &&
      Route([MixStart(all, first)], first + i) in Build(all, first, multichannel).routes
  {
    var all := Inventory(found, primary, nullMic);
    RolesRight(found, primary, nullMic);
    CountPositive(all, Speaker);
    i :| 0 <= i < |all| && all[i].role == Speaker;
    PrimaryReachesAll(all, first, multichannel, i);
  }
}
