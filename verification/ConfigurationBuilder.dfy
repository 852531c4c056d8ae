/**
 * Building the configuration step by step
 * (interfaces/audio/mainline/routing/ConfigurationBuilder.cpp).
 */
module ConfigurationBuilder {
  import opened Common
  import opened AudioRoles
  import opened AudioConfiguration

  /** The loops that narrow the capabilities down, endpoint by endpoint. */
  method Intersect(endpoints: seq<Endpoint>, least: nat, most: nat) returns (caps: Capabilities)
    ensures caps == IntersectCapabilities(endpoints, least, most)
  {
    var lo, hi := least, most;
    for i := 0 to |endpoints|
      invariant lo == MinChannels(endpoints[..i], least) && hi == MaxChannels(endpoints[..i], most)
    {
      assert endpoints[..i + 1][..i] == endpoints[..i];
      lo := Max(lo, endpoints[i].caps.minChannels);
      hi := Min(hi, endpoints[i].caps.maxChannels);
    }
    assert endpoints[..|endpoints|] == endpoints;
    if endpoints == [] || endpoints[0].caps.formats == {} || endpoints[0].caps.rates == {} {
      return Capabilities({}, {}, lo, hi);
    }
    var formats, rates := endpoints[0].caps.formats, endpoints[0].caps.rates;
    for i := 1 to |endpoints|
      invariant formats == Formats(endpoints[..i]) && rates == Rates(endpoints[..i])
    {
      assert endpoints[..i + 1][..i] == endpoints[..i];
      formats := set f | f in formats && f in endpoints[i].caps.formats;
      rates := set r | r in rates && r in endpoints[i].caps.rates;
      assert formats == Formats(endpoints[..i]) * endpoints[i].caps.formats;
      assert rates == Rates(endpoints[..i]) * endpoints[i].caps.rates;
    }
    caps := Capabilities(formats, rates, lo, hi);
  }

  /** The lists of ports and endpoints the device loop collects for one mix port. */
  datatype Group = Group(ids: seq<nat>, endpoints: seq<Endpoint>)

  function GroupOf(kind: Kind, endpoints: seq<Endpoint>, first: nat): Group {
    Group(MemberIds(kind, endpoints, first), Members(kind, endpoints))
  }

  datatype Groups = Groups(out: Group, multi: Group, hires: Group, input: Group)

  function GroupsOf(endpoints: seq<Endpoint>, first: nat): Groups {
    Groups(GroupOf(PrimaryOutput, endpoints, first), GroupOf(MultichannelOutput, endpoints, first),
           GroupOf(HiresOutput, endpoints, first), GroupOf(PrimaryInput, endpoints, first))
  }

  function Grown(g: Group, e: Endpoint, id: nat): Group { Group(g.ids + [id], g.endpoints + [e]) }

  /** The branches of the device loop: an input, or an output with its further uses. */
  function Placed(g: Groups, e: Endpoint, id: nat): Groups {
    if e.isInput then g.(input := Grown(g.input, e, id))
    else g.(out := Grown(g.out, e, id),
            multi := if e.caps.maxChannels >= 6 && !e.isNull then Grown(g.multi, e, id) else g.multi,
            hires := if Hires(e) then Grown(g.hires, e, id) else g.hires)
  }

  lemma OneMorePlaced(endpoints: seq<Endpoint>, i: nat, first: nat)
    requires i < |endpoints|
    ensures GroupsOf(endpoints[..i + 1], first) == Placed(GroupsOf(endpoints[..i], first), endpoints[i], first + i)
  {
    assert endpoints[..i + 1][..i] == endpoints[..i];
    forall kind
      ensures GroupOf(kind, endpoints[..i + 1], first) ==
        if Routed(kind, endpoints[i]) then Grown(GroupOf(kind, endpoints[..i], first), endpoints[i], first + i)
        else GroupOf(kind, endpoints[..i], first)
    {
    }
  }

  class Builder {
    const first: nat
    var ports: seq<Port>
    var routes: seq<Route>
    var nextPortId: nat

    function View(): Config
      reads this
    {
      Config(ports, routes, nextPortId)
    }

    constructor (first: nat)
      ensures this.first == first && View() == Config([], [], first)
    {
      this.first := first;
      ports, routes, nextPortId := [], [], first;
    }

    method AddMixPort(kind: Kind, isInput: bool, profiles: seq<Profile>) returns (id: nat)
      modifies this
      ensures id == old(nextPortId) && View() == AddPort(old(View()), kind, isInput, profiles)
    {
      id := nextPortId;
      nextPortId := nextPortId + 1;
      ports := ports + [Port(id, kind, isInput, profiles)];
    }

    method AddMixOutput(kind: Kind, profiles: seq<Profile>, sinks: seq<nat>)
      modifies this
      ensures View() == AddOutput(old(View()), kind, profiles, sinks)
    {
      var id := AddMixPort(kind, false, profiles);
      ghost var before := routes;
      for i := 0 to |sinks|
        invariant View() == AddPort(old(View()), kind, false, profiles).(routes := before + RoutesTo(id, sinks[..i]))
      {
        assert sinks[..i + 1][..i] == sinks[..i];
        routes := routes + [Route([id], sinks[i])];
      }
      assert sinks[..|sinks|] == sinks;
    }

    method AddMixInput(kind: Kind, profiles: seq<Profile>, sources: seq<nat>)
      modifies this
      ensures View() == AddInput(old(View()), kind, profiles, sources)
    {
      var id := AddMixPort(kind, true, profiles);
      routes := routes + [Route(sources, id)];
    }

    method AddDevicePort(e: Endpoint) returns (id: nat)
      modifies this
      ensures id == old(nextPortId) && nextPortId == id + 1 && routes == old(routes)
      ensures ports == old(ports) +
        [Port(id, DevicePort, e.isInput, if IsExternalRole(e.role) then [] else ProfilesFromCapabilities(e.caps))]
    {
      id := nextPortId;
      nextPortId := nextPortId + 1;
      var profiles := ProfilesFromCapabilities(e.caps);
      if IsExternalRole(e.role) {
        profiles := [];
      }
      ports := ports + [Port(id, DevicePort, e.isInput, profiles)];
    }

    /** The loop over the endpoints: one device port each, and who is routed where. */
    method AddDevicePorts(endpoints: seq<Endpoint>) returns (groups: Groups)
      requires View() == Config([], [], first)
      modifies this
      ensures View() == Config(DevicePorts(endpoints, first), [], first + |endpoints|)
      ensures groups == GroupsOf(endpoints, first)
    {
      groups := Groups(Group([], []), Group([], []), Group([], []), Group([], []));
      for i := 0 to |endpoints|
        invariant View() == Config(DevicePorts(endpoints[..i], first), [], first + i)
        invariant groups == GroupsOf(endpoints[..i], first)
      {
        assert endpoints[..i + 1][..i] == endpoints[..i];
        var id := AddDevicePort(endpoints[i]);
        groups := Placed(groups, endpoints[i], id);
        OneMorePlaced(endpoints, i, first);
      }
      assert endpoints[..|endpoints|] == endpoints;
    }

    method AddDevices(endpoints: seq<Endpoint>) returns (groups: Groups)
      requires View() == Config([], [], first)
      modifies this
      ensures View() == Devices(endpoints, first) && groups == GroupsOf(endpoints, first)
    {
      groups := AddDevicePorts(endpoints);
      var _ := AddMixPort(UsbTemplate, false, []);
      var _ := AddMixPort(UsbTemplate, false, []);
      var _ := AddMixPort(UsbTemplate, true, []);
      var _ := AddMixPort(UsbTemplate, true, []);
    }

    method AddOptionalOutput(kind: Kind, caps: Capabilities, sinks: seq<nat>)
      modifies this
      ensures View() ==
        if HasCommonProfile(caps) then AddOutput(old(View()), kind, ProfilesFromCapabilities(caps), sinks) else old(View())
    {
      if !HasCommonProfile(caps) {
        return;
      }
      AddMixOutput(kind, ProfilesFromCapabilities(caps), sinks);
    }

    method AddOutputs(groups: Groups, ghost endpoints: seq<Endpoint>, multichannel: bool)
      requires View() == Devices(endpoints, first) && groups == GroupsOf(endpoints, first)
      modifies this
      ensures View() == Outputs(endpoints, first, multichannel)
    {
      var all := Intersect(groups.out.endpoints, 1, 2);
      AddMixOutput(PrimaryOutput, ProfilesFromCapabilities(OrFallback(HraFilter(all, false), 1, 2)), groups.out.ids);
      if multichannel && groups.multi.endpoints != [] {
        var shared := Intersect(groups.multi.endpoints, 3, 8);
        AddOptionalOutput(MultichannelOutput, shared, groups.multi.ids);
      }
      if groups.hires.endpoints != [] {
        var shared := Intersect(groups.hires.endpoints, 1, 2);
        AddOptionalOutput(HiresOutput, HraFilter(shared, true), groups.hires.ids);
      }
    }

    method AddInputs(groups: Groups, ghost endpoints: seq<Endpoint>, ghost multichannel: bool)
      requires View() == Outputs(endpoints, first, multichannel) && groups == GroupsOf(endpoints, first)
      modifies this
      ensures View() == Inputs(endpoints, first, multichannel)
    {
      if groups.input.ids != [] {
        var shared := Intersect(groups.input.endpoints, 1, 2);
        AddMixInput(PrimaryInput, ProfilesFromCapabilities(OrFallback(shared, 1, 2)), groups.input.ids);
      }
    }

    method AddUsbPorts(id: nat)
      modifies this
      ensures View() == AddUsb(old(View()), id)
    {
      AddMixOutput(UsbOutput, [], [id, id + 1]);
      AddMixInput(UsbInput, [], [id + 2, id + 3]);
    }

    method AddLastPorts(id: nat, ghost endpoints: seq<Endpoint>, ghost multichannel: bool)
      requires View() == Inputs(endpoints, first, multichannel) && id == first + |endpoints|
      modifies this
      ensures View() == Build(endpoints, first, multichannel)
    {
      AddUsbPorts(id);
    }

    method AddMixPorts(groups: Groups, ghost endpoints: seq<Endpoint>, multichannel: bool, id: nat)
      requires View() == Devices(endpoints, first) && groups == GroupsOf(endpoints, first) && id == first + |endpoints|
      modifies this
      ensures View() == Build(endpoints, first, multichannel)
    {
      AddOutputs(groups, endpoints, multichannel);
      AddInputs(groups, endpoints, multichannel);
      AddLastPorts(id, endpoints, multichannel);
    }

    method BuildConfiguration(endpoints: seq<Endpoint>, multichannel: bool)
      requires View() == Config([], [], first)
      modifies this
      ensures View() == Build(endpoints, first, multichannel)
    {
      var groups := AddDevices(endpoints);
      AddMixPorts(groups, endpoints, multichannel, first + |endpoints|);
    }
  }
}
