/**
 * The ports and routes of a configuration, no more and no fewer: which mix ports there are, and every
 * route (interfaces/audio/mainline/routing/ConfigurationBuilder.cpp).
 */
module AudioPorts {
  import opened AudioConfiguration
  import opened AudioExposure
  import opened AudioRoles
  import opened Common

  predicate Touches(r: Route, id: nat) { id in r.sources || r.sink == id }

  /** The routes of a mix port: an output to each of its device ports, an input from all of them. */
  ghost predicate RouteOf(kind: Kind, id: nat, r: Route, endpoints: seq<Endpoint>, first: nat) {
    match kind
    case PrimaryInput => r == Route(MemberIds(kind, endpoints, first), id)
    case UsbOutput => r == Route([id], first + |endpoints|) || r == Route([id], first + |endpoints| + 1)
    case UsbInput => r == Route([first + |endpoints| + 2, first + |endpoints| + 3], id)
    case _ => r.sources == [id] && r.sink in MemberIds(kind, endpoints, first)
  }

  ghost predicate RoutesRight(c: Config, p: Port, endpoints: seq<Endpoint>, first: nat) {
    forall r :: r in c.routes && Touches(r, p.id) <==> RouteOf(p.kind, p.id, r, endpoints, first)
  }

  ghost predicate PortRight(p: Port, endpoints: seq<Endpoint>) {
    p.profiles == ProfilesOfKind(p.kind, endpoints) && (p.isInput <==> p.kind.PrimaryInput? || p.kind.UsbInput?)
  }

  ghost predicate MixPortsRight(c: Config, endpoints: seq<Endpoint>, first: nat) {
    forall p :: p in c.ports && !IsDevice(p.kind) ==> PortRight(p, endpoints) && RoutesRight(c, p, endpoints, first)
  }

  ghost predicate OneOfEach(c: Config) {
    forall i, j :: 0 <= i < j < |c.ports| && !IsDevice(c.ports[i].kind) ==> c.ports[i].kind != c.ports[j].kind
  }

  /** The route belongs to a mix port. */
  ghost predicate Owned(c: Config, r: Route) { exists p :: p in c.ports && !IsDevice(p.kind) && Touches(r, p.id) }

  ghost predicate AllOwned(c: Config) { forall r :: r in c.routes ==> Owned(c, r) }

  ghost predicate Has(c: Config, kind: Kind) { exists p :: p in c.ports && p.kind == kind }

  /** Exactly these mix ports, each as it should be, and no route besides theirs. */
  ghost predicate Right(c: Config, endpoints: seq<Endpoint>, first: nat, kinds: set<Kind>) {
    Numbered(c, first) && DevicesFirst(c, endpoints, first) && MixPortsRight(c, endpoints, first) &&
    OneOfEach(c) && AllOwned(c) && Distinct(c.routes) && forall kind :: !IsDevice(kind) ==> (Has(c, kind) <==> kind in kinds)
  }

  lemma DevicesRight(endpoints: seq<Endpoint>, first: nat)
    ensures Right(Devices(endpoints, first), endpoints, first, {})
  {
    DevicesGood(endpoints, first);
    var c := Devices(endpoints, first);
    forall p | p in c.ports ensures IsDevice(p.kind) {
      var i :| 0 <= i < |c.ports| && c.ports[i] == p;
      assert c.ports[i].id < MixStart(endpoints, first);
    }
  }

  /** The routes added with a port. */
  ghost predicate NewRoutes(kind: Kind, id: nat, added: seq<Route>, endpoints: seq<Endpoint>, first: nat) {
    Distinct(added) && forall r :: r in added <==> RouteOf(kind, id, r, endpoints, first)
  }

  /** The route has this end, and every other one at a device port. */
  ghost predicate EndsAt(r: Route, id: nat, endpoints: seq<Endpoint>, first: nat) {
    Touches(r, id) && forall other: nat :: Touches(r, other) ==> other == id || first <= other < MixStart(endpoints, first)
  }

  lemma RouteEnds(kind: Kind, id: nat, r: Route, endpoints: seq<Endpoint>, first: nat)
    requires RouteOf(kind, id, r, endpoints, first) && !IsDevice(kind)
    ensures EndsAt(r, id, endpoints, first)
  {
    MembersFound(kind, endpoints, first);
  }

  lemma AddRight(c: Config, kind: Kind, added: seq<Route>, after: Config, endpoints: seq<Endpoint>, first: nat, kinds: set<Kind>)
    requires Right(c, endpoints, first, kinds) && kind !in kinds && !IsDevice(kind)
    requires NewRoutes(kind, c.nextId, added, endpoints, first)
    requires
      var p := Port(c.nextId, kind, kind.PrimaryInput? || kind.UsbInput?, ProfilesOfKind(kind, endpoints));
      after == Config(c.ports + [p], c.routes + added, c.nextId + 1)
    ensures Right(after, endpoints, first, kinds + {kind})
  {
    var p := after.ports[|c.ports|];
    forall r | r in added ensures EndsAt(r, p.id, endpoints, first) {
      RouteEnds(kind, c.nextId, r, endpoints, first);
    }
    AddNumbered(c, added, after, endpoints, first);
    AddedMixPorts(c, p, added, after, endpoints, first);
    AddedKinds(c, p, after, kinds);
    AddedOwned(c, p, added, after);
    forall r | r in c.routes ensures r !in added {
      OldUntouched(c, r, first);
    }
    DistinctAppend(c.routes, added);
  }

  lemma OldUntouched(c: Config, r: Route, first: nat)
    requires Numbered(c, first) && r in c.routes
    ensures !Touches(r, c.nextId)
  {
    var j :| 0 <= j < |c.routes| && c.routes[j] == r;
  }

  lemma AddNumbered(c: Config, added: seq<Route>, after: Config, endpoints: seq<Endpoint>, first: nat)
    requires Numbered(c, first) && DevicesFirst(c, endpoints, first)
    requires |after.ports| == |c.ports| + 1 && after.ports[..|c.ports|] == c.ports
    requires after.ports[|c.ports|].id == c.nextId && !IsDevice(after.ports[|c.ports|].kind)
    requires after.routes == c.routes + added && after.nextId == c.nextId + 1
    requires forall r :: r in added ==> EndsAt(r, c.nextId, endpoints, first)
    ensures Numbered(after, first) && DevicesFirst(after, endpoints, first)
  {
    forall i | 0 <= i < |after.ports|
      ensures after.ports[i].id == first + i
      ensures IsDevice(after.ports[i].kind) <==> after.ports[i].id < MixStart(endpoints, first)
    {
      if i < |c.ports| {
        assert after.ports[..|c.ports|][i] == after.ports[i];
      }
    }
    forall i | 0 <= i < |after.routes|
      ensures first <= after.routes[i].sink < after.nextId
      ensures forall j :: 0 <= j < |after.routes[i].sources| ==> first <= after.routes[i].sources[j] < after.nextId
    {
      var r := after.routes[i];
      if i < |c.routes| {
        assert r == c.routes[i];
      } else {
        assert r == added[i - |c.routes|];
        assert r in added && Touches(r, r.sink);
        assert forall j :: 0 <= j < |r.sources| ==> Touches(r, r.sources[j]);
      }
    }
  }

  lemma AddedMixPorts(c: Config, p: Port, added: seq<Route>, after: Config, endpoints: seq<Endpoint>, first: nat)
    requires Numbered(c, first) && DevicesFirst(c, endpoints, first) && MixPortsRight(c, endpoints, first)
    requires p.id == c.nextId && !IsDevice(p.kind) && PortRight(p, endpoints)
    requires after.ports == c.ports + [p] && after.routes == c.routes + added
    requires forall r :: r in added <==> RouteOf(p.kind, p.id, r, endpoints, first)
    requires forall r :: r in added ==> EndsAt(r, p.id, endpoints, first)
    ensures MixPortsRight(after, endpoints, first)
  {
    forall q | q in after.ports && !IsDevice(q.kind) ensures PortRight(q, endpoints) && RoutesRight(after, q, endpoints, first) {
      if q in c.ports {
        var i :| 0 <= i < |c.ports| && c.ports[i] == q;
        assert MixStart(endpoints, first) <= q.id < c.nextId;
        assert forall r :: r in added ==> !Touches(r, q.id);
        assert RoutesRight(c, q, endpoints, first);
      } else {
        assert q == p;
        forall r | r in c.routes ensures !Touches(r, p.id) {
          OldUntouched(c, r, first);
        }
      }
    }
  }

  lemma AddedKinds(c: Config, p: Port, after: Config, kinds: set<Kind>)
    requires OneOfEach(c) && !IsDevice(p.kind) && p.kind !in kinds && after.ports == c.ports + [p]
    requires forall kind :: !IsDevice(kind) ==> (Has(c, kind) <==> kind in kinds)
    ensures OneOfEach(after) && forall kind :: !IsDevice(kind) ==> (Has(after, kind) <==> kind in kinds + {p.kind})
  {
    forall kind | !IsDevice(kind) ensures Has(after, kind) <==> kind in kinds + {p.kind} {
      if Has(c, kind) {
        var q :| q in c.ports && q.kind == kind;
        assert q in after.ports;
      }
      assert p in after.ports;
    }
    forall i, j | 0 <= i < j < |after.ports| && !IsDevice(after.ports[i].kind)
      ensures after.ports[i].kind != after.ports[j].kind
    {
      if j == |c.ports| {
        assert after.ports[i] in c.ports;
        assert Has(c, after.ports[i].kind);
      }
    }
  }

  lemma AddedOwned(c: Config, p: Port, added: seq<Route>, after: Config)
    requires AllOwned(c) && !IsDevice(p.kind) && after.ports == c.ports + [p] && after.routes == c.routes + added
    requires forall r :: r in added ==> Touches(r, p.id)
    ensures AllOwned(after)
  {
    forall r | r in after.routes ensures Owned(after, r) {
      if r in c.routes {
        var q :| q in c.ports && !IsDevice(q.kind) && Touches(r, q.id);
        assert q in after.ports;
      } else {
        assert p in after.ports;
      }
    }
  }

  // --- Step by step --------------------------------------------------------------------

  lemma {:induction false} MemberIdsDistinct(kind: Kind, endpoints: seq<Endpoint>, first: nat)
    ensures Distinct(MemberIds(kind, endpoints, first))
  {
    if endpoints != [] {
      var n := |endpoints| - 1;
      MemberIdsDistinct(kind, endpoints[..n], first);
      MembersFound(kind, endpoints[..n], first);
      if Routed(kind, endpoints[n]) {
        DistinctAppend(MemberIds(kind, endpoints[..n], first), [first + n]);
      }
    }
  }

  lemma RoutesToMembers(kind: Kind, id: nat, sinks: seq<nat>)
    requires Distinct(sinks)
    ensures Distinct(RoutesTo(id, sinks)) && forall r :: r in RoutesTo(id, sinks) <==> r.sources == [id] && r.sink in sinks
  {
    var added := RoutesTo(id, sinks);
    forall r ensures r in added <==> r.sources == [id] && r.sink in sinks {
      if r.sources == [id] && r.sink in sinks {
        var i :| 0 <= i < |sinks| && sinks[i] == r.sink;
        assert added[i] == r;
      }
    }
    forall i, j | 0 <= i < j < |added| ensures added[i] != added[j] {
      assert added[i].sink == sinks[i] && added[j].sink == sinks[j];
    }
  }

  predicate IsOutput(kind: Kind) { kind.PrimaryOutput? || kind.MultichannelOutput? || kind.HiresOutput? }

  function OutputAdded(c: Config, kind: Kind, endpoints: seq<Endpoint>, first: nat): Config {
    AddOutput(c, kind, ProfilesOfKind(kind, endpoints), MemberIds(kind, endpoints, first))
  }

  function InputAdded(c: Config, endpoints: seq<Endpoint>, first: nat): Config {
    AddInput(c, PrimaryInput, ProfilesOfKind(PrimaryInput, endpoints), MemberIds(PrimaryInput, endpoints, first))
  }

  lemma AddOutputRight(c: Config, kind: Kind, endpoints: seq<Endpoint>, first: nat, kinds: set<Kind>)
    requires Right(c, endpoints, first, kinds) && kind !in kinds && IsOutput(kind)
    ensures Right(OutputAdded(c, kind, endpoints, first), endpoints, first, kinds + {kind})
  {
    var sinks := MemberIds(kind, endpoints, first);
    MemberIdsDistinct(kind, endpoints, first);
    RoutesToMembers(kind, c.nextId, sinks);
    AddRight(c, kind, RoutesTo(c.nextId, sinks), OutputAdded(c, kind, endpoints, first), endpoints, first, kinds);
  }

  lemma AddInputRight(c: Config, endpoints: seq<Endpoint>, first: nat, kinds: set<Kind>)
    requires Right(c, endpoints, first, kinds) && PrimaryInput !in kinds
    ensures Right(InputAdded(c, endpoints, first), endpoints, first, kinds + {PrimaryInput})
  {
    var added := [Route(MemberIds(PrimaryInput, endpoints, first), c.nextId)];
    assert Distinct(added);
    AddRight(c, PrimaryInput, added, InputAdded(c, endpoints, first), endpoints, first, kinds);
  }

  lemma UsbOutputRight(c: Config, endpoints: seq<Endpoint>, first: nat, kinds: set<Kind>)
    requires Right(c, endpoints, first, kinds) && UsbOutput !in kinds
    ensures Right(AddOutput(c, UsbOutput, [], [first + |endpoints|, first + |endpoints| + 1]), endpoints, first, kinds + {UsbOutput})
  {
    var sinks := [first + |endpoints|, first + |endpoints| + 1];
    var added := RoutesTo(c.nextId, sinks);
    RoutesToMembers(UsbOutput, c.nextId, sinks);
    UsbSinks(c.nextId, added, endpoints, first);
    AddRight(c, UsbOutput, added, AddOutput(c, UsbOutput, [], sinks), endpoints, first, kinds);
  }

  lemma UsbSinks(id: nat, added: seq<Route>, endpoints: seq<Endpoint>, first: nat)
    requires Distinct(added) && forall r :: r in added <==> r.sources == [id] && r.sink in [first + |endpoints|, first + |endpoints| + 1]
    ensures NewRoutes(UsbOutput, id, added, endpoints, first)
  {
    forall r ensures r in added <==> RouteOf(UsbOutput, id, r, endpoints, first) {
      assert r.sink in [first + |endpoints|, first + |endpoints| + 1] <==>
        r.sink == first + |endpoints| || r.sink == first + |endpoints| + 1;
    }
  }

  lemma UsbInputRight(c: Config, endpoints: seq<Endpoint>, first: nat, kinds: set<Kind>)
    requires Right(c, endpoints, first, kinds) && UsbInput !in kinds
    ensures Right(AddInput(c, UsbInput, [], [first + |endpoints| + 2, first + |endpoints| + 3]), endpoints, first, kinds + {UsbInput})
  {
    var sources := [first + |endpoints| + 2, first + |endpoints| + 3];
    var added := [Route(sources, c.nextId)];
    assert Distinct(added);
    AddRight(c, UsbInput, added, AddInput(c, UsbInput, [], sources), endpoints, first, kinds);
  }

  lemma AddUsbRight(c: Config, endpoints: seq<Endpoint>, first: nat, kinds: set<Kind>)
    requires Right(c, endpoints, first, kinds) && UsbOutput !in kinds && UsbInput !in kinds
    ensures Right(AddUsb(c, first + |endpoints|), endpoints, first, kinds + {UsbOutput} + {UsbInput})
  {
    UsbOutputRight(c, endpoints, first, kinds);
    UsbInputRight(AddOutput(c, UsbOutput, [], [first + |endpoints|, first + |endpoints| + 1]), endpoints, first,
                  kinds + {UsbOutput});
  }

  // --- The configuration ---------------------------------------------------------------

  /** Holds of the device ports alone, and goes on holding as mix ports are added. */
  ghost predicate Kept(ok: (Config, set<Kind>) -> bool, endpoints: seq<Endpoint>, first: nat) {
    ok(Devices(endpoints, first), {}) &&
    (forall c, kinds, kind :: ok(c, kinds) && kind !in kinds && IsOutput(kind) ==>
       ok(OutputAdded(c, kind, endpoints, first), kinds + {kind})) &&
    (forall c, kinds :: ok(c, kinds) && PrimaryInput !in kinds ==>
       ok(InputAdded(c, endpoints, first), kinds + {PrimaryInput})) &&
    (forall c, kinds :: ok(c, kinds) && UsbOutput !in kinds && UsbInput !in kinds ==>
       ok(AddUsb(c, first + |endpoints|), kinds + {UsbOutput} + {UsbInput}))
  }

  lemma RightIsKept(endpoints: seq<Endpoint>, first: nat)
    ensures Kept((c, kinds) => Right(c, endpoints, first, kinds), endpoints, first)
  {
    DevicesRight(endpoints, first);
    forall c, kinds, kind | Right(c, endpoints, first, kinds) && kind !in kinds && IsOutput(kind)
      ensures Right(OutputAdded(c, kind, endpoints, first), endpoints, first, kinds + {kind})
    {
      AddOutputRight(c, kind, endpoints, first, kinds);
    }
    forall c, kinds | Right(c, endpoints, first, kinds) && PrimaryInput !in kinds
      ensures Right(InputAdded(c, endpoints, first), endpoints, first, kinds + {PrimaryInput})
    {
      AddInputRight(c, endpoints, first, kinds);
    }
    forall c, kinds | Right(c, endpoints, first, kinds) && UsbOutput !in kinds && UsbInput !in kinds
      ensures Right(AddUsb(c, first + |endpoints|), endpoints, first, kinds + {UsbOutput} + {UsbInput})
    {
      AddUsbRight(c, endpoints, first, kinds);
    }
  }

  /** Optional outputs are added exactly if they are to be exposed. */
  lemma OptionalAdded(c: Config, kind: Kind, endpoints: seq<Endpoint>, first: nat)
    requires kind.MultichannelOutput? || kind.HiresOutput?
    ensures AddOptional(c, kind, endpoints, first) ==
      if Exposed(kind, endpoints, true) then OutputAdded(c, kind, endpoints, first) else c
  {
    AnyoneIff(kind, endpoints);
    if Anyone(kind, endpoints) {
      SomethingIffCommon(kind, endpoints);
    }
  }

  lemma InputAddedIff(endpoints: seq<Endpoint>, first: nat, multichannel: bool)
    ensures
      var outputs := Outputs(endpoints, first, multichannel);
      Inputs(endpoints, first, multichannel) ==
        if Anyone(PrimaryInput, endpoints) then InputAdded(outputs, endpoints, first) else outputs
  {
    AnyoneIff(PrimaryInput, endpoints);
    MembersFound(PrimaryInput, endpoints, first);
  }

  lemma MultiAdded(endpoints: seq<Endpoint>, first: nat, multichannel: bool)
    ensures
      var primary := OutputAdded(Devices(endpoints, first), PrimaryOutput, endpoints, first);
      var multi := if Exposed(MultichannelOutput, endpoints, multichannel)
                   then OutputAdded(primary, MultichannelOutput, endpoints, first) else primary;
      Outputs(endpoints, first, multichannel) ==
        if Exposed(HiresOutput, endpoints, multichannel) then OutputAdded(multi, HiresOutput, endpoints, first) else multi
  {
    var primary := OutputAdded(Devices(endpoints, first), PrimaryOutput, endpoints, first);
    OptionalAdded(primary, MultichannelOutput, endpoints, first);
    var multi := if multichannel then AddOptional(primary, MultichannelOutput, endpoints, first) else primary;
    OptionalAdded(multi, HiresOutput, endpoints, first);
  }

  function With(kinds: set<Kind>, kind: Kind, added: bool): set<Kind> { if added then kinds + {kind} else kinds }

  lemma KeptOutput(ok: (Config, set<Kind>) -> bool, c: Config, kinds: set<Kind>, kind: Kind, added: bool,
                   endpoints: seq<Endpoint>, first: nat)
    requires Kept(ok, endpoints, first) && ok(c, kinds) && kind !in kinds && IsOutput(kind)
    ensures ok(if added then OutputAdded(c, kind, endpoints, first) else c, With(kinds, kind, added))
  {
  }

  lemma KeptInput(ok: (Config, set<Kind>) -> bool, c: Config, kinds: set<Kind>, added: bool, endpoints: seq<Endpoint>, first: nat)
    requires Kept(ok, endpoints, first) && ok(c, kinds) && PrimaryInput !in kinds
    ensures ok(if added then InputAdded(c, endpoints, first) else c, With(kinds, PrimaryInput, added))
  {
  }

  lemma KeptUsb(ok: (Config, set<Kind>) -> bool, c: Config, kinds: set<Kind>, endpoints: seq<Endpoint>, first: nat)
    requires Kept(ok, endpoints, first) && ok(c, kinds) && UsbOutput !in kinds && UsbInput !in kinds
    ensures ok(AddUsb(c, first + |endpoints|), kinds + {UsbOutput} + {UsbInput})
  {
  }

  /** The outputs of a module. */
  function OutputKinds(multi: bool, hires: bool): set<Kind> {
    With(With({} + {PrimaryOutput}, MultichannelOutput, multi), HiresOutput, hires)
  }

  lemma KeptOutputs(ok: (Config, set<Kind>) -> bool, endpoints: seq<Endpoint>, first: nat, multichannel: bool)
    requires Kept(ok, endpoints, first)
    ensures ok(Outputs(endpoints, first, multichannel),
               OutputKinds(Exposed(MultichannelOutput, endpoints, multichannel), Exposed(HiresOutput, endpoints, multichannel)))
  {
    var multi, hires := Exposed(MultichannelOutput, endpoints, multichannel), Exposed(HiresOutput, endpoints, multichannel);
    var devices, none: set<Kind> := Devices(endpoints, first), {};
    MultiAdded(endpoints, first, multichannel);
    KeptOutput(ok, devices, none, PrimaryOutput, true, endpoints, first);
    var primary := OutputAdded(devices, PrimaryOutput, endpoints, first);
    KeptOutput(ok, primary, none + {PrimaryOutput}, MultichannelOutput, multi, endpoints, first);
    var more := if multi then OutputAdded(primary, MultichannelOutput, endpoints, first) else primary;
    KeptOutput(ok, more, With(none + {PrimaryOutput}, MultichannelOutput, multi), HiresOutput, hires, endpoints, first);
  }

  function AllKinds(multi: bool, hires: bool, input: bool): set<Kind> {
    With(OutputKinds(multi, hires), PrimaryInput, input) + {UsbOutput} + {UsbInput}
  }

  lemma KindsExposed(endpoints: seq<Endpoint>, multichannel: bool, kind: Kind)
    requires !IsDevice(kind)
    ensures Exposed(kind, endpoints, multichannel) <==>
      kind in AllKinds(Exposed(MultichannelOutput, endpoints, multichannel), Exposed(HiresOutput, endpoints, multichannel),
                       Exposed(PrimaryInput, endpoints, multichannel))
  {
  }

  lemma AllKindsExposed(endpoints: seq<Endpoint>, multichannel: bool, multi: bool, hires: bool, input: bool)
    requires multi == Exposed(MultichannelOutput, endpoints, multichannel)
    requires hires == Exposed(HiresOutput, endpoints, multichannel) && input == Exposed(PrimaryInput, endpoints, multichannel)
    ensures forall kind :: !IsDevice(kind) ==> (kind in AllKinds(multi, hires, input) <==> Exposed(kind, endpoints, multichannel))
  {
    forall kind | !IsDevice(kind) ensures kind in AllKinds(multi, hires, input) <==> Exposed(kind, endpoints, multichannel) {
      KindsExposed(endpoints, multichannel, kind);
    }
  }

  lemma KeptInputs(ok: (Config, set<Kind>) -> bool, endpoints: seq<Endpoint>, first: nat, multichannel: bool, multi: bool, hires: bool)
    requires Kept(ok, endpoints, first) && ok(Outputs(endpoints, first, multichannel), OutputKinds(multi, hires))
    ensures ok(Inputs(endpoints, first, multichannel), With(OutputKinds(multi, hires), PrimaryInput, Anyone(PrimaryInput, endpoints)))
  {
    var input, outputs := Anyone(PrimaryInput, endpoints), Outputs(endpoints, first, multichannel);
    InputAddedIff(endpoints, first, multichannel);
    KeptInput(ok, outputs, OutputKinds(multi, hires), input, endpoints, first);
  }

  /** What is kept holds of the whole configuration, with just the mix ports that are to be exposed. */
  lemma KeptToTheEnd(ok: (Config, set<Kind>) -> bool, endpoints: seq<Endpoint>, first: nat, multichannel: bool)
    returns (kinds: set<Kind>)
    requires Kept(ok, endpoints, first)
    ensures ok(Build(endpoints, first, multichannel), kinds)
    ensures forall kind :: !IsDevice(kind) ==> (kind in kinds <==> Exposed(kind, endpoints, multichannel))
  {
    var multi, hires := Exposed(MultichannelOutput, endpoints, multichannel), Exposed(HiresOutput, endpoints, multichannel);
    var input := Exposed(PrimaryInput, endpoints, multichannel);
    KeptOutputs(ok, endpoints, first, multichannel);
    KeptInputs(ok, endpoints, first, multichannel, multi, hires);
    KeptUsb(ok, Inputs(endpoints, first, multichannel), With(OutputKinds(multi, hires), PrimaryInput, input), endpoints, first);
    AllKindsExposed(endpoints, multichannel, multi, hires, input);
    kinds := AllKinds(multi, hires, input);
  }

  /** The configuration has exactly the mix ports its endpoints call for, each as it should be, once. */
  lemma PortsExposed(endpoints: seq<Endpoint>, first: nat, multichannel: bool)
    ensures
      var c := Build(endpoints, first, multichannel);
      OneOfEach(c) && MixPortsRight(c, endpoints, first) && AllOwned(c) && Distinct(c.routes) &&
      forall kind :: !IsDevice(kind) ==> (Has(c, kind) <==> Exposed(kind, endpoints, multichannel))
  {
    RightIsKept(endpoints, first);
    var kinds := KeptToTheEnd((c, kinds) => Right(c, endpoints, first, kinds), endpoints, first, multichannel);
  }

  lemma ExposedIff(endpoints: seq<Endpoint>, first: nat, multichannel: bool, kind: Kind)
    requires !IsDevice(kind)
    ensures Has(Build(endpoints, first, multichannel), kind) <==> Exposed(kind, endpoints, multichannel)
  {
    PortsExposed(endpoints, first, multichannel);
  }

  /** Exactly the device ports of the inputs; endpoint i has port first + i. */
  ghost predicate FromInputs(ids: seq<nat>, endpoints: seq<Endpoint>, first: nat) {
    forall id :: id in ids <==> first <= id < first + |endpoints| && endpoints[id - first].isInput
  }

  /** The only route of the port: from those. */
  ghost predicate OnlyFromInputs(c: Config, id: nat, r: Route, endpoints: seq<Endpoint>, first: nat) {
    r in c.routes && r.sink == id && FromInputs(r.sources, endpoints, first) &&
    forall other :: other in c.routes && Touches(other, id) ==> other == r
  }

  lemma InputRoute(c: Config, p: Port, endpoints: seq<Endpoint>, first: nat) returns (r: Route)
    requires RoutesRight(c, p, endpoints, first) && p.kind == PrimaryInput
    ensures OnlyFromInputs(c, p.id, r, endpoints, first)
  {
    MembersFound(PrimaryInput, endpoints, first);
    r := Route(MemberIds(PrimaryInput, endpoints, first), p.id);
    assert RouteOf(p.kind, p.id, r, endpoints, first);
  }

  lemma AnyInputIff(endpoints: seq<Endpoint>)
    ensures Anyone(PrimaryInput, endpoints) <==> exists i :: 0 <= i < |endpoints| && endpoints[i].isInput
  {
    if i :| 0 <= i < |endpoints| && endpoints[i].isInput {
      assert Routed(PrimaryInput, endpoints[i]);
    }
    if i :| 0 <= i < |endpoints| && Routed(PrimaryInput, endpoints[i]) {
      assert endpoints[i].isInput;
    }
  }

  /** There is a port to record from if and only if there is an input device. */
  lemma InputExposedIff(endpoints: seq<Endpoint>, first: nat, multichannel: bool)
    ensures Has(Build(endpoints, first, multichannel), PrimaryInput) <==>
      exists i :: 0 <= i < |endpoints| && endpoints[i].isInput
  {
    ExposedIff(endpoints, first, multichannel, PrimaryInput);
    AnyInputIff(endpoints);
  }

  /** An output device with surround sound, or one for high resolution audio. */
  predicate ForSurround(e: Endpoint) { !e.isInput && !e.isNull && 6 <= e.caps.maxChannels }

  ghost predicate ForHires(e: Endpoint) {
    !e.isInput && !e.isNull && (exists rate :: rate in e.caps.rates && rate >= 88200) &&
    exists f :: f in e.caps.formats && f !in {U8, S16}
  }

  predicate Does(e: Endpoint, f: Format, rate: nat, channels: nat) {
    f in e.caps.formats && rate in e.caps.rates && e.caps.minChannels <= channels <= e.caps.maxChannels
  }

  /** All outputs for surround sound can do this, and it is surround sound; likewise for high resolution. */
  ghost predicate SurroundForAll(endpoints: seq<Endpoint>, f: Format, rate: nat, channels: nat) {
    3 <= channels <= 8 && forall i :: 0 <= i < |endpoints| && ForSurround(endpoints[i]) ==> Does(endpoints[i], f, rate, channels)
  }

  ghost predicate HiresForAll(endpoints: seq<Endpoint>, f: Format, rate: nat, channels: nat) {
    f !in {U8, S16} && rate >= 88200 && 1 <= channels <= 2 &&
    forall i :: 0 <= i < |endpoints| && ForHires(endpoints[i]) ==> Does(endpoints[i], f, rate, channels)
  }

  lemma SurroundIff(endpoints: seq<Endpoint>)
    ensures Anyone(MultichannelOutput, endpoints) <==> exists i :: 0 <= i < |endpoints| && ForSurround(endpoints[i])
    ensures forall f, rate, channels ::
      AllCan(MultichannelOutput, endpoints, f, rate, channels) <==> SurroundForAll(endpoints, f, rate, channels)
  {
    assert forall i :: 0 <= i < |endpoints| ==> (Routed(MultichannelOutput, endpoints[i]) <==> ForSurround(endpoints[i]));
    forall f, rate, channels
      ensures AllCan(MultichannelOutput, endpoints, f, rate, channels) <==> SurroundForAll(endpoints, f, rate, channels)
    {
      assert forall i :: 0 <= i < |endpoints| ==>
        (Supports(endpoints[i].caps, f, rate, channels) <==> Does(endpoints[i], f, rate, channels));
    }
  }

  lemma HiresIff(endpoints: seq<Endpoint>)
    ensures Anyone(HiresOutput, endpoints) <==> exists i :: 0 <= i < |endpoints| && ForHires(endpoints[i])
    ensures forall f, rate, channels ::
      AllCan(HiresOutput, endpoints, f, rate, channels) <==> HiresForAll(endpoints, f, rate, channels)
  {
    forall i | 0 <= i < |endpoints| ensures Routed(HiresOutput, endpoints[i]) <==> ForHires(endpoints[i]) {
      OneHiresIff(endpoints[i]);
    }
    forall f, rate, channels
      ensures AllCan(HiresOutput, endpoints, f, rate, channels) <==> HiresForAll(endpoints, f, rate, channels)
    {
      assert forall i :: 0 <= i < |endpoints| ==>
        (Supports(endpoints[i].caps, f, rate, channels) <==> Does(endpoints[i], f, rate, channels));
    }
  }

  lemma OneHiresIff(e: Endpoint)
    ensures Routed(HiresOutput, e) <==> ForHires(e)
  {
    assert forall f :: IsHraFormat(f) <==> f !in {U8, S16};
    if ForHires(e) {
      var rate :| rate in e.caps.rates && rate >= 88200;
      assert IsHraRate(rate);
      var f :| f in e.caps.formats && f !in {U8, S16};
      assert IsHraFormat(f);
    }
  }

  /**
   * There is a multichannel output if and only if it is asked for, some output has six channels or more, and
   * all of those share a configuration of three to eight channels.
   */
  lemma MultichannelExposedIff(endpoints: seq<Endpoint>, first: nat, multichannel: bool)
    ensures Has(Build(endpoints, first, multichannel), MultichannelOutput) <==>
      multichannel && (exists i :: 0 <= i < |endpoints| && ForSurround(endpoints[i])) &&
      exists f, rate, channels :: SurroundForAll(endpoints, f, rate, channels)
  {
    ExposedIff(endpoints, first, multichannel, MultichannelOutput);
    SurroundIff(endpoints);
  }

  /**
   * There is an output for high resolution audio if and only if some output can do that, and all of those
   * share a high resolution configuration of one or two channels.
   */
  lemma HiresExposedIff(endpoints: seq<Endpoint>, first: nat, multichannel: bool)
    ensures Has(Build(endpoints, first, multichannel), HiresOutput) <==>
      (exists i :: 0 <= i < |endpoints| && ForHires(endpoints[i])) &&
      exists f, rate, channels :: HiresForAll(endpoints, f, rate, channels)
  {
    ExposedIff(endpoints, first, multichannel, HiresOutput);
    HiresIff(endpoints);
  }

  /** It has profiles, and its one route comes from just the input device ports. */
  lemma InputRouted(endpoints: seq<Endpoint>, first: nat, multichannel: bool, p: Port) returns (r: Route)
    requires p in Build(endpoints, first, multichannel).ports && p.kind == PrimaryInput
    ensures p.isInput && p.profiles != []
    ensures OnlyFromInputs(Build(endpoints, first, multichannel), p.id, r, endpoints, first)
  {
    PortsExposed(endpoints, first, multichannel);
    PrimaryHasProfiles(PrimaryInput, endpoints);
    r := InputRoute(Build(endpoints, first, multichannel), p, endpoints, first);
  }

  /** An output reaches exactly the device ports it is for, and advertises exactly what is meant for it. */
  lemma OutputRouted(endpoints: seq<Endpoint>, first: nat, multichannel: bool, p: Port, r: Route)
    requires p in Build(endpoints, first, multichannel).ports && IsOutput(p.kind)
    ensures !p.isInput
    ensures r in Build(endpoints, first, multichannel).routes && Touches(r, p.id) <==>
      r.sources == [p.id] && first <= r.sink < first + |endpoints| && Routed(p.kind, endpoints[r.sink - first])
  {
    PortsExposed(endpoints, first, multichannel);
    OutputRoutes(Build(endpoints, first, multichannel), p, r, endpoints, first);
  }

  lemma OutputRoutes(c: Config, p: Port, r: Route, endpoints: seq<Endpoint>, first: nat)
    requires RoutesRight(c, p, endpoints, first) && IsOutput(p.kind)
    ensures r in c.routes && Touches(r, p.id) <==>
      r.sources == [p.id] && first <= r.sink < first + |endpoints| && Routed(p.kind, endpoints[r.sink - first])
  {
    MembersFound(p.kind, endpoints, first);
    assert RouteOf(p.kind, p.id, r, endpoints, first) <==> r.sources == [p.id] && r.sink in MemberIds(p.kind, endpoints, first);
  }

  lemma PortAdvertises(endpoints: seq<Endpoint>, first: nat, multichannel: bool, p: Port, f: Format, rate: nat, channels: nat)
    requires p in Build(endpoints, first, multichannel).ports && (IsOutput(p.kind) || p.kind == PrimaryInput)
    ensures Advertises(p.profiles, f, rate, channels) <==> Meant(p.kind, endpoints, f, rate, channels)
  {
    PortsExposed(endpoints, first, multichannel);
    assert Has(Build(endpoints, first, multichannel), p.kind);
    AdvertisesMeant(p.kind, endpoints, f, rate, channels);
  }

  /** A device port is advertised with what its endpoint can do, unless it is for a device that may connect. */
  lemma {:induction false} DevicePortsRight(endpoints: seq<Endpoint>, first: nat, i: nat)
    requires i < |endpoints|
    ensures
      var p := DevicePorts(endpoints, first)[i];
      p.id == first + i && p.kind.DevicePort? && p.isInput == endpoints[i].isInput &&
      (IsExternalRole(endpoints[i].role) ==> p.profiles == []) &&
      (!IsExternalRole(endpoints[i].role) ==> p.profiles == ProfilesFromCapabilities(endpoints[i].caps))
  {
    var n := |endpoints| - 1;
    if i < n {
      DevicePortsRight(endpoints[..n], first, i);
    }
  }

  lemma DevicesFollow(endpoints: seq<Endpoint>, first: nat)
    ensures
      var ports, n := Devices(endpoints, first).ports, |endpoints|;
      |ports| == n + 4 && ports[..n] == DevicePorts(endpoints, first) &&
      forall i :: n <= i < n + 4 ==> ports[i] == Port(first + i, UsbTemplate, i >= n + 2, [])
  {
  }

  lemma PrefixKept<T>(a: seq<T>, b: seq<T>, n: nat)
    requires a <= b && n <= |a|
    ensures a[..n] == b[..n] && forall i :: 0 <= i < |a| ==> a[i] == b[i]
  {
  }

  /** The device ports come first, in the order of the endpoints, then two outputs and two inputs for USB devices. */
  lemma DevicesThere(endpoints: seq<Endpoint>, first: nat, multichannel: bool)
    ensures
      var ports, n := Build(endpoints, first, multichannel).ports, |endpoints|;
      n + 4 <= |ports| && ports[..n] == DevicePorts(endpoints, first) &&
      forall i :: n <= i < n + 4 ==> ports[i] == Port(first + i, UsbTemplate, i >= n + 2, [])
  {
    BuildExtendsDevices(endpoints, first, multichannel);
    DevicesFollow(endpoints, first);
    PrefixKept(Devices(endpoints, first).ports, Build(endpoints, first, multichannel).ports, |endpoints|);
  }

  lemma BuildExtendsDevices(endpoints: seq<Endpoint>, first: nat, multichannel: bool)
    ensures Devices(endpoints, first).ports <= Build(endpoints, first, multichannel).ports
  {
    BuildExtendsPrimary(endpoints, first, multichannel);
    AddExtends(Devices(endpoints, first), PrimaryOutput, PrimaryProfiles(PrimaryOutput, endpoints),
               MemberIds(PrimaryOutput, endpoints, first), endpoints, first);
    PrefixesJoin(Devices(endpoints, first).ports, Primary(endpoints, first).ports, Build(endpoints, first, multichannel).ports);
  }

  lemma PrefixesJoin<T>(a: seq<T>, b: seq<T>, c: seq<T>)
    requires a <= b && b <= c
    ensures a <= c
  {
  }
}
