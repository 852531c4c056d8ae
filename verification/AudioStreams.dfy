/**
 * The controller and a stream as classes, and how a stream's calls are runs of the interleaved model
 * (interfaces/audio/mainline/routing/RoutingController.cpp,
 * interfaces/audio/mainline/stream/StreamMainline.cpp).
 */
module AudioStreams {
  import opened Ucm
  import opened AudioRouting

  class RoutingController {
    const cards: map<int, UcmManager>
    var refcounts: map<string, int>

    /** Every card has its own manager. */
    predicate Valid() {
      forall a, b :: a in cards && b in cards && a != b ==> cards[a] != cards[b]
    }

    function View(): Routing
      reads this, cards.Values
    {
      Routing(refcounts, map c | c in cards :: cards[c].View())
    }

    constructor (cards: map<int, UcmManager>)
      ensures this.cards == cards && refcounts == map[]
    {
      this.cards := cards;
      refcounts := map[];
    }

    method Acquire(e: Endpoint, calls: Calls)
      requires Valid()
      modifies this, cards.Values
      ensures View() == AudioRouting.Acquire(old(View()), e, calls)
    {
      if e.device == "" {
        return;
      }
      var k := Key(e);
      var count := if k in refcounts then refcounts[k] + 1 else 1;
      refcounts := refcounts[k := count];
      assert View().cards == old(View()).cards;
      if count != 1 || e.card !in cards {
        return;
      }
      cards[e.card].EnableDevice(e.device, calls);
      assert forall c :: c in cards && c != e.card ==> cards[c].View() == old(cards[c].View());
      assert View().cards == old(View()).cards[e.card := cards[e.card].View()];
    }

    method Release(e: Endpoint, calls: Calls)
      requires Valid()
      modifies this, cards.Values
      ensures View() == AudioRouting.Release(old(View()), e, calls)
    {
      if e.device == "" {
        return;
      }
      var k := Key(e);
      if k !in refcounts || refcounts[k] <= 0 {
        return;
      }
      var count := refcounts[k] - 1;
      refcounts := refcounts[k := count];
      assert View().cards == old(View()).cards;
      if count != 0 {
        return;
      }
      refcounts := refcounts - {k};
      assert refcounts == old(refcounts) - {k};
      if e.card !in cards {
        return;
      }
      cards[e.card].DisableDevice(e.device, calls);
      assert forall c :: c in cards && c != e.card ==> cards[c].View() == old(cards[c].View());
      assert View().cards == old(View()).cards[e.card := cards[e.card].View()];
    }
  }

  /** The first n endpoints acquired in order. */
  function AcquireAll(r: Routing, endpoints: seq<Endpoint>, n: nat, calls: nat -> Calls): Routing
    requires n <= |endpoints|
  {
    if n == 0 then r else AudioRouting.Acquire(AcquireAll(r, endpoints, n - 1, calls), endpoints[n - 1], calls(n - 1))
  }

  function ReleaseAll(r: Routing, endpoints: seq<Endpoint>, n: nat, calls: nat -> Calls): Routing
    requires n <= |endpoints|
  {
    if n == 0 then r else AudioRouting.Release(ReleaseAll(r, endpoints, n - 1, calls), endpoints[n - 1], calls(n - 1))
  }

  class StreamMainline {
    const routing: RoutingController
    var connected: seq<Endpoint>

    constructor (routing: RoutingController)
      ensures this.routing == routing && connected == []
    {
      this.routing := routing;
      connected := [];
    }

    method SetConnectedDevices(endpoints: seq<Endpoint>, acquires: nat -> Calls, releases: nat -> Calls)
      requires routing.Valid()
      modifies this, routing, routing.cards.Values
      ensures connected == endpoints
      ensures routing.View() ==
        ReleaseAll(AcquireAll(old(routing.View()), endpoints, |endpoints|, acquires),
                   old(connected), |old(connected)|, releases)
    {
      for i := 0 to |endpoints|
        invariant connected == old(connected)
        invariant routing.View() == AcquireAll(old(routing.View()), endpoints, i, acquires)
      {
        routing.Acquire(endpoints[i], acquires(i));
      }
      ghost var acquired := routing.View();
      for i := 0 to |connected|
        invariant connected == old(connected)
        invariant routing.View() == ReleaseAll(acquired, connected, i, releases)
      {
        routing.Release(connected[i], releases(i));
      }
      connected := endpoints;
    }

    method ReleaseRouting(releases: nat -> Calls)
      requires routing.Valid()
      modifies this, routing, routing.cards.Values
      ensures connected == []
      ensures routing.View() == ReleaseAll(old(routing.View()), old(connected), |old(connected)|, releases)
    {
      for i := 0 to |connected|
        invariant connected == old(connected)
        invariant routing.View() == ReleaseAll(old(routing.View()), connected, i, releases)
      {
        routing.Release(connected[i], releases(i));
      }
      connected := [];
    }
  }

  // --- A call that nobody interrupts is a run of the interleaved model -----------------

  /** n steps of the same kind by one stream. */
  function Repeat(i: nat, action: Action, n: nat, calls: nat -> Calls): seq<Step> {
    if n == 0 then [] else Repeat(i, action, n - 1, calls) + [Step(i, action, calls(n - 1))]
  }

  lemma {:induction false} AfterConcat(s: System, a: seq<Step>, b: seq<Step>)
    ensures After(s, a + b) == After(After(s, a), b)
  {
    if b == [] {
      assert a + b == a;
    } else {
      AfterConcat(s, a, b[..|b| - 1]);
      assert (a + b)[..|a + b| - 1] == a + b[..|b| - 1];
    }
  }

  lemma AfterOne(s: System, steps: seq<Step>, step: Step)
    ensures After(s, steps + [step]) ==
      if CanStep(After(s, steps), step) then Next(After(s, steps), step) else After(s, steps)
  {
    assert (steps + [step])[..|steps|] == steps;
  }

  /** The system with one stream's phase and the routing replaced. */
  function With(s: System, i: nat, phase: Phase, routing: Routing): System
    requires i < |s.streams|
  {
    System(s.streams[i := s.streams[i].(phase := phase)], routing)
  }

  lemma AcquireStep(s: System, i: nat, target: seq<Endpoint>, n: nat, r: Routing, calls: Calls)
    requires i < |s.streams| && n < |target|
    ensures
      var step := Step(i, AcquireNext, calls);
      CanStep(With(s, i, Acquiring(target, n), r), step) &&
      Next(With(s, i, Acquiring(target, n), r), step) ==
        With(s, i, Acquiring(target, n + 1), AudioRouting.Acquire(r, target[n], calls))
  {
  }

  lemma ReleaseStep(s: System, i: nat, target: seq<Endpoint>, n: nat, r: Routing, calls: Calls)
    requires i < |s.streams| && n < |s.streams[i].connected|
    ensures
      var step := Step(i, ReleaseNext, calls);
      CanStep(With(s, i, Releasing(target, n), r), step) &&
      Next(With(s, i, Releasing(target, n), r), step) ==
        With(s, i, Releasing(target, n + 1), AudioRouting.Release(r, s.streams[i].connected[n], calls))
  {
  }

  lemma {:induction false} AcquiresInTurn(s: System, i: nat, target: seq<Endpoint>, n: nat, r: Routing, calls: nat -> Calls)
    requires i < |s.streams| && n <= |target|
    ensures After(With(s, i, Acquiring(target, 0), r), Repeat(i, AcquireNext, n, calls)) ==
      With(s, i, Acquiring(target, n), AcquireAll(r, target, n, calls))
  {
    if n > 0 {
      var start := With(s, i, Acquiring(target, 0), r);
      AcquiresInTurn(s, i, target, n - 1, r, calls);
      AfterOne(start, Repeat(i, AcquireNext, n - 1, calls), Step(i, AcquireNext, calls(n - 1)));
      AcquireStep(s, i, target, n - 1, AcquireAll(r, target, n - 1, calls), calls(n - 1));
    }
  }

  lemma {:induction false} ReleasesInTurn(s: System, i: nat, target: seq<Endpoint>, n: nat, r: Routing, calls: nat -> Calls)
    requires i < |s.streams| && n <= |s.streams[i].connected|
    ensures After(With(s, i, Releasing(target, 0), r), Repeat(i, ReleaseNext, n, calls)) ==
      With(s, i, Releasing(target, n), ReleaseAll(r, s.streams[i].connected, n, calls))
  {
    if n > 0 {
      var start := With(s, i, Releasing(target, 0), r);
      var connected := s.streams[i].connected;
      ReleasesInTurn(s, i, target, n - 1, r, calls);
      AfterOne(start, Repeat(i, ReleaseNext, n - 1, calls), Step(i, ReleaseNext, calls(n - 1)));
      ReleaseStep(s, i, target, n - 1, ReleaseAll(r, connected, n - 1, calls), calls(n - 1));
    }
  }

  lemma BeginStep(s: System, i: nat, target: seq<Endpoint>, calls: Calls)
    requires i < |s.streams| && s.streams[i].phase.Idle?
    ensures After(s, [Step(i, Begin(target), calls)]) == With(s, i, Acquiring(target, 0), s.routing)
  {
    assert [] + [Step(i, Begin(target), calls)] == [Step(i, Begin(target), calls)];
    AfterOne(s, [], Step(i, Begin(target), calls));
  }

  lemma TurnStep(s: System, i: nat, target: seq<Endpoint>, r: Routing, calls: Calls)
    requires i < |s.streams|
    ensures
      var step := Step(i, Turn, calls);
      CanStep(With(s, i, Acquiring(target, |target|), r), step) &&
      Next(With(s, i, Acquiring(target, |target|), r), step) == With(s, i, Releasing(target, 0), r)
  {
  }

  lemma FinishStep(s: System, i: nat, target: seq<Endpoint>, r: Routing, calls: Calls)
    requires i < |s.streams|
    ensures
      var step, n := Step(i, Finish, calls), |s.streams[i].connected|;
      CanStep(With(s, i, Releasing(target, n), r), step) &&
      Next(With(s, i, Releasing(target, n), r), step) == System(s.streams[i := Stream(target, Idle)], r)
  {
  }

  function SwitchUp(i: nat, target: seq<Endpoint>, acquires: nat -> Calls): seq<Step> {
    [Step(i, Begin(target), acquires(0))] + Repeat(i, AcquireNext, |target|, acquires) + [Step(i, Turn, acquires(0))]
  }

  /** The steps of one setConnectedDevices call. */
  function SwitchSteps(i: nat, target: seq<Endpoint>, connected: nat, acquires: nat -> Calls, releases: nat -> Calls)
    : seq<Step>
  {
    SwitchUp(i, target, acquires) + Repeat(i, ReleaseNext, connected, releases) + [Step(i, Finish, releases(0))]
  }

  lemma SwitchesUp(s: System, i: nat, target: seq<Endpoint>, acquires: nat -> Calls)
    requires i < |s.streams| && s.streams[i].phase.Idle?
    ensures After(s, SwitchUp(i, target, acquires)) ==
      With(s, i, Releasing(target, 0), AcquireAll(s.routing, target, |target|, acquires))
  {
    var begin, up := [Step(i, Begin(target), acquires(0))], Repeat(i, AcquireNext, |target|, acquires);
    BeginStep(s, i, target, acquires(0));
    AfterConcat(s, begin, up);
    AcquiresInTurn(s, i, target, |target|, s.routing, acquires);
    AfterOne(s, begin + up, Step(i, Turn, acquires(0)));
    TurnStep(s, i, target, AcquireAll(s.routing, target, |target|, acquires), acquires(0));
  }

  /** SetConnectedDevices, run alone, does what its steps do one after the other. */
  lemma UninterruptedSwitch(s: System, i: nat, target: seq<Endpoint>, acquires: nat -> Calls, releases: nat -> Calls)
    requires i < |s.streams| && s.streams[i].phase.Idle?
    ensures
      var connected := s.streams[i].connected;
      After(s, SwitchSteps(i, target, |connected|, acquires, releases)) ==
        System(s.streams[i := Stream(target, Idle)],
               ReleaseAll(AcquireAll(s.routing, target, |target|, acquires), connected, |connected|, releases))
  {
    var connected := s.streams[i].connected;
    var up, down := SwitchUp(i, target, acquires), Repeat(i, ReleaseNext, |connected|, releases);
    var acquired := AcquireAll(s.routing, target, |target|, acquires);
    SwitchesUp(s, i, target, acquires);
    AfterConcat(s, up, down);
    ReleasesInTurn(s, i, target, |connected|, acquired, releases);
    AfterOne(s, up + down, Step(i, Finish, releases(0)));
    FinishStep(s, i, target, ReleaseAll(acquired, connected, |connected|, releases), releases(0));
  }
}
