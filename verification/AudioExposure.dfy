/**
 * Which mix ports a configuration has, what they advertise and what they are routed to, for every list of
 * endpoints (interfaces/audio/mainline/routing/ConfigurationBuilder.cpp).
 */
module AudioExposure {
  import opened AudioConfiguration
  import opened AudioRoles
  import opened Common

  // --- What there is to expose ---------------------------------------------------------

  /** All endpoints a mix port is for can do this, within its channel counts; high resolution if it is for that. */
  ghost predicate AllCan(kind: Kind, endpoints: seq<Endpoint>, f: Format, rate: nat, channels: nat) {
    (if kind.MultichannelOutput? then 3 <= channels <= 8 else 1 <= channels <= 2) &&
    (kind.HiresOutput? ==> IsHraFormat(f) && IsHraRate(rate)) &&
    forall i :: 0 <= i < |endpoints| && Routed(kind, endpoints[i]) ==> Supports(endpoints[i].caps, f, rate, channels)
  }

  ghost predicate Something(kind: Kind, endpoints: seq<Endpoint>) {
    exists f, rate, channels :: AllCan(kind, endpoints, f, rate, channels)
  }

  ghost predicate Anyone(kind: Kind, endpoints: seq<Endpoint>) {
    exists i :: 0 <= i < |endpoints| && Routed(kind, endpoints[i])
  }

  /** The mix ports a module has. */
  ghost predicate Exposed(kind: Kind, endpoints: seq<Endpoint>, multichannel: bool) {
    match kind
    case PrimaryOutput => true
    case MultichannelOutput => multichannel && Anyone(kind, endpoints) && Something(kind, endpoints)
    case HiresOutput => Anyone(kind, endpoints) && Something(kind, endpoints)
    case PrimaryInput => Anyone(kind, endpoints)
    case UsbOutput => true
    case UsbInput => true
    case _ => false
  }

  lemma {:induction false} MembersExact(kind: Kind, endpoints: seq<Endpoint>)
    ensures forall e :: e in Members(kind, endpoints) <==> e in endpoints && Routed(kind, e)
  {
    if endpoints != [] {
      var n := |endpoints| - 1;
      MembersExact(kind, endpoints[..n]);
      assert endpoints == endpoints[..n] + [endpoints[n]];
    }
  }

  lemma AnyoneIff(kind: Kind, endpoints: seq<Endpoint>)
    ensures Anyone(kind, endpoints) <==> Members(kind, endpoints) != []
  {
    MembersExact(kind, endpoints);
    if Members(kind, endpoints) != [] {
      assert Members(kind, endpoints)[0] in Members(kind, endpoints);
    }
  }

  lemma AllMembersCan(kind: Kind, endpoints: seq<Endpoint>, f: Format, rate: nat, channels: nat)
    ensures (forall i :: 0 <= i < |endpoints| && Routed(kind, endpoints[i]) ==> Supports(endpoints[i].caps, f, rate, channels)) <==>
      forall i :: 0 <= i < |Members(kind, endpoints)| ==> Supports(Members(kind, endpoints)[i].caps, f, rate, channels)
  {
    var members := Members(kind, endpoints);
    MembersExact(kind, endpoints);
    if forall i :: 0 <= i < |members| ==> Supports(members[i].caps, f, rate, channels) {
      forall i | 0 <= i < |endpoints| && Routed(kind, endpoints[i]) ensures Supports(endpoints[i].caps, f, rate, channels) {
        assert endpoints[i] in members;
      }
    }
    if forall i :: 0 <= i < |endpoints| && Routed(kind, endpoints[i]) ==> Supports(endpoints[i].caps, f, rate, channels) {
      forall i | 0 <= i < |members| ensures Supports(members[i].caps, f, rate, channels) {
        assert members[i] in members;
        var k :| 0 <= k < |endpoints| && endpoints[k] == members[i];
        assert Routed(kind, endpoints[k]);
      }
    }
  }

  /** What is left of capabilities after the filter for high resolution audio, and of those for the primary output. */
  lemma FilterExact(caps: Capabilities, isHra: bool, f: Format, rate: nat, channels: nat)
    ensures Supports(HraFilter(caps, isHra), f, rate, channels) <==>
      Supports(caps, f, rate, channels) &&
      (if isHra then IsHraFormat(f) && IsHraRate(rate)
       else (IsHraFormat(f) ==> forall g :: g in caps.formats ==> IsHraFormat(g)) &&
            (IsHraRate(rate) ==> forall r :: r in caps.rates ==> IsHraRate(r)))
  {
    var formats := set g | g in caps.formats && IsHraFormat(g) == isHra;
    var rates := set r | r in caps.rates && IsHraRate(r) == isHra;
    assert forall g :: g in caps.formats && IsHraFormat(g) == isHra ==> g in formats;
    assert forall r :: r in caps.rates && IsHraRate(r) == isHra ==> r in rates;
    if !isHra {
      if formats == {} {
        assert forall g :: g in caps.formats ==> IsHraFormat(g);
      }
      if rates == {} {
        assert forall r :: r in caps.rates ==> IsHraRate(r);
      }
    }
  }

  /** The capabilities shared by those a port is for, unless it is the primary output. */
  lemma SharedExact(kind: Kind, endpoints: seq<Endpoint>, f: Format, rate: nat, channels: nat)
    requires Anyone(kind, endpoints) && (kind.MultichannelOutput? || kind.HiresOutput? || kind.PrimaryInput?)
    ensures Supports(Shared(kind, endpoints), f, rate, channels) <==> AllCan(kind, endpoints, f, rate, channels)
  {
    var members := Members(kind, endpoints);
    AnyoneIff(kind, endpoints);
    AllMembersCan(kind, endpoints, f, rate, channels);
    IntersectionExact(members, if kind.MultichannelOutput? then 3 else 1, if kind.MultichannelOutput? then 8 else 2,
                      f, rate, channels);
    if kind.HiresOutput? {
      FilterExact(IntersectCapabilities(members, 1, 2), true, f, rate, channels);
    }
  }

  lemma CommonIffSupports(caps: Capabilities)
    ensures HasCommonProfile(caps) <==> exists f, rate, channels :: channels > 0 && Supports(caps, f, rate, channels)
  {
    if HasCommonProfile(caps) {
      var f :| f in caps.formats;
      var rate :| rate in caps.rates;
      assert Supports(caps, f, rate, caps.maxChannels);
    }
  }

  lemma SomethingIffCommon(kind: Kind, endpoints: seq<Endpoint>)
    requires Anyone(kind, endpoints) && (kind.MultichannelOutput? || kind.HiresOutput? || kind.PrimaryInput?)
    ensures Something(kind, endpoints) <==> HasCommonProfile(Shared(kind, endpoints))
  {
    CommonIffSupports(Shared(kind, endpoints));
    forall f, rate, channels
      ensures Supports(Shared(kind, endpoints), f, rate, channels) <==> AllCan(kind, endpoints, f, rate, channels)
    {
      SharedExact(kind, endpoints, f, rate, channels);
    }
  }

  // --- What they advertise -------------------------------------------------------------

  predicate InFallback(f: Format, rate: nat, channels: nat) { f == S16 && rate in {44100, 48000} && 1 <= channels <= 2 }

  /** High resolution audio is left to its own port, unless those the primary output is for share nothing else. */
  ghost predicate Ordinary(endpoints: seq<Endpoint>, f: Format, rate: nat) {
    (IsHraFormat(f) ==> forall g, r, c :: AllCan(PrimaryOutput, endpoints, g, r, c) ==> IsHraFormat(g)) &&
    (IsHraRate(rate) ==> forall g, r, c :: AllCan(PrimaryOutput, endpoints, g, r, c) ==> IsHraRate(r))
  }

  ghost predicate Meant(kind: Kind, endpoints: seq<Endpoint>, f: Format, rate: nat, channels: nat) {
    match kind
    case PrimaryOutput =>
      if Anyone(kind, endpoints) && Something(kind, endpoints)
      then AllCan(kind, endpoints, f, rate, channels) && Ordinary(endpoints, f, rate)
      else InFallback(f, rate, channels)
    case PrimaryInput =>
      if Something(kind, endpoints) then AllCan(kind, endpoints, f, rate, channels) else InFallback(f, rate, channels)
    case MultichannelOutput => AllCan(kind, endpoints, f, rate, channels)
    case HiresOutput => AllCan(kind, endpoints, f, rate, channels)
    case _ => false
  }

  /** The profiles of a mix port; those of the USB ports come with a device. */
  function ProfilesOfKind(kind: Kind, endpoints: seq<Endpoint>): seq<Profile> {
    match kind
    case PrimaryOutput => PrimaryProfiles(kind, endpoints)
    case PrimaryInput => PrimaryProfiles(kind, endpoints)
    case MultichannelOutput => ProfilesFromCapabilities(Shared(kind, endpoints))
    case HiresOutput => ProfilesFromCapabilities(Shared(kind, endpoints))
    case _ => []
  }

  lemma PrimaryShared(endpoints: seq<Endpoint>, f: Format, rate: nat, channels: nat)
    requires Anyone(PrimaryOutput, endpoints)
    ensures Supports(IntersectCapabilities(Members(PrimaryOutput, endpoints), 1, 2), f, rate, channels) <==>
      AllCan(PrimaryOutput, endpoints, f, rate, channels)
  {
    AnyoneIff(PrimaryOutput, endpoints);
    AllMembersCan(PrimaryOutput, endpoints, f, rate, channels);
    IntersectionExact(Members(PrimaryOutput, endpoints), 1, 2, f, rate, channels);
  }

  lemma PrimaryCommon(endpoints: seq<Endpoint>)
    ensures HasCommonProfile(Shared(PrimaryOutput, endpoints)) <==>
      Anyone(PrimaryOutput, endpoints) && Something(PrimaryOutput, endpoints)
  {
    var all := IntersectCapabilities(Members(PrimaryOutput, endpoints), 1, 2);
    PrimaryFilterKeepsProfile(all);
    AnyoneIff(PrimaryOutput, endpoints);
    if Anyone(PrimaryOutput, endpoints) {
      CommonIffSupports(all);
      forall f, rate, channels ensures Supports(all, f, rate, channels) <==> AllCan(PrimaryOutput, endpoints, f, rate, channels) {
        PrimaryShared(endpoints, f, rate, channels);
      }
    }
  }

  lemma PrimaryOrdinary(endpoints: seq<Endpoint>, f: Format, rate: nat, channels: nat)
    requires HasCommonProfile(Shared(PrimaryOutput, endpoints))
    ensures Supports(Shared(PrimaryOutput, endpoints), f, rate, channels) <==>
      AllCan(PrimaryOutput, endpoints, f, rate, channels) && Ordinary(endpoints, f, rate)
  {
    var all := IntersectCapabilities(Members(PrimaryOutput, endpoints), 1, 2);
    PrimaryCommon(endpoints);
    PrimaryFilterKeepsProfile(all);
    FilterExact(all, false, f, rate, channels);
    forall g, r, c ensures Supports(all, g, r, c) <==> AllCan(PrimaryOutput, endpoints, g, r, c) {
      PrimaryShared(endpoints, g, r, c);
    }
    AllOfCommon(all);
  }

  /** With a common configuration every format and every rate is part of one. */
  lemma AllOfCommon(caps: Capabilities)
    requires HasCommonProfile(caps)
    ensures forall g :: g in caps.formats ==> exists r, c :: Supports(caps, g, r, c)
    ensures forall r :: r in caps.rates ==> exists g, c :: Supports(caps, g, r, c)
  {
    var f :| f in caps.formats;
    var rate :| rate in caps.rates;
    forall g | g in caps.formats ensures exists r, c :: Supports(caps, g, r, c) {
      assert Supports(caps, g, rate, caps.maxChannels);
    }
    forall r | r in caps.rates ensures exists g, c :: Supports(caps, g, r, c) {
      assert Supports(caps, f, r, caps.maxChannels);
    }
  }

  /** What a mix port advertises is exactly what it is meant to. */
  lemma AdvertisesMeant(kind: Kind, endpoints: seq<Endpoint>, f: Format, rate: nat, channels: nat)
    requires kind.PrimaryOutput? || Anyone(kind, endpoints)
    ensures Advertises(ProfilesOfKind(kind, endpoints), f, rate, channels) <==> Meant(kind, endpoints, f, rate, channels)
  {
    match kind
    case PrimaryOutput =>
      PrimaryCommon(endpoints);
      ProfilesExact(OrFallback(Shared(kind, endpoints), 1, 2), f, rate, channels);
      if HasCommonProfile(Shared(kind, endpoints)) {
        PrimaryOrdinary(endpoints, f, rate, channels);
      }
    case PrimaryInput =>
      SomethingIffCommon(kind, endpoints);
      ProfilesExact(OrFallback(Shared(kind, endpoints), 1, 2), f, rate, channels);
      SharedExact(kind, endpoints, f, rate, channels);
    case MultichannelOutput =>
      ProfilesExact(Shared(kind, endpoints), f, rate, channels);
      SharedExact(kind, endpoints, f, rate, channels);
    case HiresOutput =>
      ProfilesExact(Shared(kind, endpoints), f, rate, channels);
      SharedExact(kind, endpoints, f, rate, channels);
    case _ =>
  }
}
