/**
 * Switching use case devices of one card, with their conflicts
 * (interfaces/audio/mainline/ucm/UcmManager.cpp).
 */
module Ucm {

  datatype UcmDevice = UcmDevice(name: string, conflicting: seq<string>)

  /** What snd_use_case_set would answer: per device to disable, and to the final enable. */
  datatype Calls = Calls(disables: string -> bool, enables: bool)

  /** The profile's devices and the ones whose status is on. */
  datatype Card = Card(devices: seq<UcmDevice>, enabled: set<string>)

  /** The first device of that name lists these as conflicting; an unknown device none. */
  function Conflicts(devices: seq<UcmDevice>, name: string): seq<string> {
    if devices == [] then []
    else if devices[0].name == name then devices[0].conflicting
    else Conflicts(devices[1..], name)
  }

  /** The devices a conflict loop switches off. */
  function SwitchedOff(conflicts: seq<string>, enabled: set<string>, calls: Calls): set<string> {
    set c | c in conflicts && c in enabled && calls.disables(c)
  }

  function Enable(card: Card, name: string, calls: Calls): Card {
    if name in card.enabled then card else
      var left := card.enabled - SwitchedOff(Conflicts(card.devices, name), card.enabled, calls);
      card.(enabled := if calls.enables then left + {name} else left)
  }

  function Disable(card: Card, name: string, calls: Calls): Card {
    if name in card.enabled && calls.disables(name) then card.(enabled := card.enabled - {name}) else card
  }

  ghost predicate Succeeding(calls: Calls) {
    calls.enables && forall d :: calls.disables(d)
  }

  /** Conflicts go both ways. */
  ghost predicate Symmetric(devices: seq<UcmDevice>) {
    forall a, b :: b in Conflicts(devices, a) ==> a in Conflicts(devices, b)
  }

  /** No two conflicting devices are on together. */
  ghost predicate Exclusive(card: Card) {
    forall a, b :: a in card.enabled && b in card.enabled && a != b ==> b !in Conflicts(card.devices, a)
  }

  lemma EnableExclusive(card: Card, name: string, calls: Calls)
    requires Exclusive(card) && Symmetric(card.devices) && forall d :: calls.disables(d)
    ensures Exclusive(Enable(card, name, calls))
  {
  }

  /**
   * One enable keeps conflicting devices apart if and only if the device was on already, or lists in
   * turn every other device that is on and lists it.
   */
  lemma EnableExclusiveIff(card: Card, name: string, calls: Calls)
    requires Exclusive(card) && Succeeding(calls)
    ensures Exclusive(Enable(card, name, calls)) <==>
      name in card.enabled ||
      forall e :: e in card.enabled && name in Conflicts(card.devices, e) ==> e in Conflicts(card.devices, name)
  {
    var after := Enable(card, name, calls);
    if name !in card.enabled {
      if Exclusive(after) {
        forall e | e in card.enabled && name in Conflicts(card.devices, e) ensures e in Conflicts(card.devices, name) {
          assert e in after.enabled || e in Conflicts(card.devices, name);
        }
      }
    }
  }

  datatype Switch = Switch(name: string, on: bool, calls: Calls)

  function Switched(card: Card, switches: seq<Switch>): (r: Card)
    ensures r.devices == card.devices
  {
    if switches == [] then card else
      var before, s := Switched(card, switches[..|switches| - 1]), switches[|switches| - 1];
      if s.on then Enable(before, s.name, s.calls) else Disable(before, s.name, s.calls)
  }

  /** The switch is what turns the device on, or off: itself, or for a conflicting one that was not on. */
  predicate TurnsOn(card: Card, s: Switch, device: string) {
    s.on && s.name == device && device !in card.enabled && s.calls.enables
  }

  predicate TurnsOff(card: Card, s: Switch, device: string) {
    device in card.enabled && s.calls.disables(device) &&
    if s.on then s.name !in card.enabled && device in Conflicts(card.devices, s.name) else s.name == device
  }

  function Step(card: Card, s: Switch): Card {
    if s.on then Enable(card, s.name, s.calls) else Disable(card, s.name, s.calls)
  }

  /** Nothing but calls that succeed changes what is on. */
  lemma StepIff(card: Card, s: Switch, device: string)
    ensures device in Step(card, s).enabled <==>
      TurnsOn(card, s, device) || (device in card.enabled && !TurnsOff(card, s, device))
  {
  }

  /** Not turned off by any switch from k on. */
  ghost predicate Stays(card: Card, switches: seq<Switch>, k: nat, device: string) {
    forall j :: k <= j < |switches| ==> !TurnsOff(Switched(card, switches[..j]), switches[j], device)
  }

  /** Turned on by switch k, or on from the start for k = 0, and not turned off since. */
  ghost predicate OnSince(card: Card, switches: seq<Switch>, k: nat, device: string) {
    (k == 0 && device in card.enabled && Stays(card, switches, 0, device)) ||
    (0 < k <= |switches| && TurnsOn(Switched(card, switches[..k - 1]), switches[k - 1], device) && Stays(card, switches, k, device))
  }

  lemma StaysOneMore(card: Card, switches: seq<Switch>, k: nat, device: string)
    requires switches != [] && k < |switches|
    ensures
      var n := |switches| - 1;
      Stays(card, switches, k, device) <==>
        Stays(card, switches[..n], k, device) && !TurnsOff(Switched(card, switches[..n]), switches[n], device)
  {
    var n := |switches| - 1;
    forall j | 0 <= j < n ensures switches[..n][j] == switches[j] && switches[..n][..j] == switches[..j] {
    }
  }

  lemma OnSinceOneMore(card: Card, switches: seq<Switch>, k: nat, device: string)
    requires switches != [] && k < |switches|
    ensures
      var n := |switches| - 1;
      OnSince(card, switches, k, device) <==>
        OnSince(card, switches[..n], k, device) && !TurnsOff(Switched(card, switches[..n]), switches[n], device)
  {
    var n := |switches| - 1;
    StaysOneMore(card, switches, k, device);
    if 0 < k {
      assert switches[..n][..k - 1] == switches[..k - 1] && switches[..n][k - 1] == switches[k - 1];
    }
  }

  /** In every run a device is on if and only if it was turned on, or on from the start, and not turned off since. */
  lemma {:induction false} OnIff(card: Card, switches: seq<Switch>, device: string)
    ensures device in Switched(card, switches).enabled <==> exists k :: OnSince(card, switches, k, device)
    decreases |switches|
  {
    if switches == [] {
      assert OnSince(card, switches, 0, device) <==> device in card.enabled;
    } else {
      var n := |switches| - 1;
      var before, s := Switched(card, switches[..n]), switches[n];
      OnIff(card, switches[..n], device);
      StepIff(before, s, device);
      assert OnSince(card, switches, n + 1, device) <==> TurnsOn(before, s, device);
      if k: nat :| OnSince(card, switches, k, device) && k <= n {
        OnSinceOneMore(card, switches, k, device);
      }
      if k: nat :| OnSince(card, switches[..n], k, device) {
        OnSinceOneMore(card, switches, k, device);
      }
    }
  }

  ghost predicate AllSucceeding(switches: seq<Switch>) {
    forall s :: s in switches ==> Succeeding(s.calls)
  }

  /** No run of switches from a card with nothing on, with calls that succeed, brings conflicting devices together. */
  ghost predicate AlwaysExclusive(devices: seq<UcmDevice>) {
    forall switches :: AllSucceeding(switches) ==> Exclusive(Switched(Card(devices, {}), switches))
  }

  lemma {:induction false} RunExclusive(devices: seq<UcmDevice>, switches: seq<Switch>)
    requires Symmetric(devices) && AllSucceeding(switches)
    ensures Exclusive(Switched(Card(devices, {}), switches))
  {
    if switches != [] {
      var before, last := switches[..|switches| - 1], switches[|switches| - 1];
      assert last in switches;
      RunExclusive(devices, before);
      EnableExclusive(Switched(Card(devices, {}), before), last.name, last.calls);
    }
  }

  lemma BothOn(devices: seq<UcmDevice>, a: string, b: string, calls: Calls)
    requires b in Conflicts(devices, a) && a !in Conflicts(devices, b) && Succeeding(calls)
    ensures
      var switches := [Switch(a, true, calls), Switch(b, true, calls)];
      AllSucceeding(switches) && !Exclusive(Switched(Card(devices, {}), switches))
  {
    var first, both: seq<Switch> := [Switch(a, true, calls)], [Switch(a, true, calls), Switch(b, true, calls)];
    assert both[..1] == first && first[..0] == [];
    assert Switched(Card(devices, {}), []) == Card(devices, {});
    var card := Switched(Card(devices, {}), first);
    assert card == Enable(Card(devices, {}), a, calls);
    assert card.enabled == {a};
    EnableExclusiveIff(card, b, calls);
  }

  /** Conflicting devices are kept apart in every run if and only if the lists go both ways. */
  lemma AlwaysExclusiveIff(devices: seq<UcmDevice>)
    ensures AlwaysExclusive(devices) <==> Symmetric(devices)
  {
    if Symmetric(devices) {
      forall switches | AllSucceeding(switches) ensures Exclusive(Switched(Card(devices, {}), switches)) {
        RunExclusive(devices, switches);
      }
    } else {
      var a, b :| b in Conflicts(devices, a) && a !in Conflicts(devices, b);
      BothOn(devices, a, b, Calls(d => true, true));
    }
  }

  /** With one-sided lists the two may end up on together: the second does not know the first. */
  lemma AsymmetricNotExclusive(calls: Calls)
    requires Succeeding(calls)
    ensures
      var card := Card([UcmDevice("Speaker", ["Headphones"]), UcmDevice("Headphones", [])], {});
      Exclusive(card) && !Exclusive(Enable(Enable(card, "Speaker", calls), "Headphones", calls))
  {
    var devices := [UcmDevice("Speaker", ["Headphones"]), UcmDevice("Headphones", [])];
    var card := Enable(Enable(Card(devices, {}), "Speaker", calls), "Headphones", calls);
    assert Conflicts(devices, "Headphones") == Conflicts(devices[1..], "Headphones") == [];
    assert "Headphones" in Conflicts(devices, "Speaker");
    assert "Speaker" in card.enabled && "Headphones" in card.enabled;
  }

  class UcmManager {
    const devices: seq<UcmDevice>
    var enabled: set<string>

    function View(): Card
      reads this
    {
      Card(devices, enabled)
    }

    constructor (devices: seq<UcmDevice>)
      ensures this.devices == devices && enabled == {}
    {
      this.devices := devices;
      enabled := {};
    }

    method FindConflicts(name: string) returns (conflicts: seq<string>)
      ensures conflicts == Conflicts(devices, name)
    {
      var i := 0;
      while i < |devices|
        invariant 0 <= i <= |devices| && Conflicts(devices, name) == Conflicts(devices[i..], name)
      {
        if devices[i].name == name {
          return devices[i].conflicting;
        }
        i := i + 1;
      }
      conflicts := [];
    }

    method EnableDevice(name: string, calls: Calls)
      modifies this
      ensures View() == Enable(old(View()), name, calls)
    {
      if name in enabled {
        return;
      }
      var conflicts := FindConflicts(name);
      var i := 0;
      while i < |conflicts|
        invariant 0 <= i <= |conflicts|
        invariant enabled == old(enabled) - SwitchedOff(conflicts[..i], old(enabled), calls)
      {
        if conflicts[i] in enabled && calls.disables(conflicts[i]) {
          enabled := enabled - {conflicts[i]};
        }
        i := i + 1;
      }
      assert conflicts[..i] == conflicts;
      if calls.enables {
        enabled := enabled + {name};
      }
    }

    method DisableDevice(name: string, calls: Calls)
      modifies this
      ensures View() == Disable(old(View()), name, calls)
    {
      if name in enabled && calls.disables(name) {
        enabled := enabled - {name};
      }
    }
  }
}
