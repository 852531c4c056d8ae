/**
 * Reference counted routing shared by many streams
 * (interfaces/audio/mainline/routing/RoutingController.cpp,
 * interfaces/audio/mainline/stream/StreamMainline.cpp).
 */
module AudioRouting {
  import opened Ucm

  /** The part of an endpoint that routing looks at; no device means nothing to switch. */
  datatype Endpoint = Endpoint(card: int, device: string)

  // --- Keys ----------------------------------------------------------------------------

  function Digits(n: nat): (s: string)
    ensures |s| > 0 && forall i :: 0 <= i < |s| ==> '0' <= s[i] <= '9'
    ensures |s| == 1 <==> n < 10
  {
    if n < 10 then [('0' as int + n) as char] else Digits(n / 10) + [('0' as int + n % 10) as char]
  }

  function Decimal(n: int): (s: string)
    ensures |s| > 0 && (s[0] == '-' <==> n < 0)
  { if n < 0 then "-" + Digits(-n) else Digits(n) }

  function Key(e: Endpoint): string { Decimal(e.card) + "/" + e.device }

  lemma {:induction false} DigitsInjective(a: nat, b: nat)
    requires Digits(a) == Digits(b)
    ensures a == b
  {
    if a >= 10 {
      assert Digits(a / 10) == Digits(a)[..|Digits(a)| - 1] == Digits(b / 10);
      DigitsInjective(a / 10, b / 10);
    }
  }

  lemma DecimalInjective(a: int, b: int)
    requires Decimal(a) == Decimal(b)
    ensures a == b
  {
    if a < 0 {
      assert Digits(-a) == Decimal(a)[1..] == Digits(-b);
      DigitsInjective(-a, -b);
    } else {
      DigitsInjective(a, b);
    }
  }

  /** The slash after the number ends it, so different endpoints have different keys. */
  lemma KeyInjective(a: Endpoint, b: Endpoint)
    requires Key(a) == Key(b)
    ensures a == b
  {
    var x, y := Decimal(a.card), Decimal(b.card);
    assert Key(a)[|x|] == '/' && Key(b)[|y|] == '/';
    assert forall i :: 0 <= i < |x| ==> Key(a)[i] == x[i] != '/';
    assert forall i :: 0 <= i < |y| ==> Key(b)[i] == y[i] != '/';
    assert |x| == |y|;
    assert x == Key(a)[..|x|] == Key(b)[..|y|] == y;
    assert a.device == Key(a)[|x| + 1..] == Key(b)[|y| + 1..] == b.device;
    DecimalInjective(a.card, b.card);
  }

  // --- The controller ------------------------------------------------------------------

  datatype Routing = Routing(refcounts: map<string, int>, cards: map<int, Card>)

  function Refcount(r: Routing, k: string): int { if k in r.refcounts then r.refcounts[k] else 0 }

  function Acquire(r: Routing, e: Endpoint, calls: Calls): Routing {
    if e.device == "" then r else
      var count := Refcount(r, Key(e)) + 1;
      Routing(
        r.refcounts[Key(e) := count],
        if count == 1 && e.card in r.cards
        then r.cards[e.card := Enable(r.cards[e.card], e.device, calls)] else r.cards)
  }

  function Release(r: Routing, e: Endpoint, calls: Calls): Routing {
    if e.device == "" || Refcount(r, Key(e)) <= 0 then r else
      var count := Refcount(r, Key(e)) - 1;
      if count != 0 then r.(refcounts := r.refcounts[Key(e) := count])
      else Routing(
        r.refcounts - {Key(e)},
        if e.card in r.cards
        then r.cards[e.card := Disable(r.cards[e.card], e.device, calls)] else r.cards)
  }

  // --- Streams, interleaved at every call into the controller --------------------------

  datatype Phase =
    | Idle
    /** setConnectedDevices has acquired n of its new endpoints. */
    | Acquiring(target: seq<Endpoint>, n: nat)
    /** It has acquired all of them and released n of the old ones. */
    | Releasing(target: seq<Endpoint>, n: nat)
    /** ReleaseRouting has released n endpoints. */
    | Leaving(n: nat)

  datatype Stream = Stream(connected: seq<Endpoint>, phase: Phase)

  datatype System = System(streams: seq<Stream>, routing: Routing)

  datatype Action = Begin(target: seq<Endpoint>) | AcquireNext | Turn | ReleaseNext | Finish | Leave | LeaveNext | Left

  datatype Step = Step(stream: nat, action: Action, calls: Calls)

  predicate Enabled(t: Stream, action: Action) {
    match action
    case Begin(_) => t.phase.Idle?
    case AcquireNext => t.phase.Acquiring? && t.phase.n < |t.phase.target|
    case Turn => t.phase.Acquiring? && t.phase.n == |t.phase.target|
    case ReleaseNext => t.phase.Releasing? && t.phase.n < |t.connected|
    case Finish => t.phase.Releasing? && t.phase.n == |t.connected|
    case Leave => t.phase.Idle?
    case LeaveNext => t.phase.Leaving? && t.phase.n < |t.connected|
    case Left => t.phase.Leaving? && t.phase.n == |t.connected|
  }

  function Moved(t: Stream, action: Action): Stream
    requires Enabled(t, action)
  {
    match action
    case Begin(target) => t.(phase := Acquiring(target, 0))
    case AcquireNext => t.(phase := Acquiring(t.phase.target, t.phase.n + 1))
    case Turn => t.(phase := Releasing(t.phase.target, 0))
    case ReleaseNext => t.(phase := Releasing(t.phase.target, t.phase.n + 1))
    case Finish => Stream(t.phase.target, Idle)
    case Leave => t.(phase := Leaving(0))
    case LeaveNext => t.(phase := Leaving(t.phase.n + 1))
    case Left => Stream([], Idle)
  }

  datatype Request = Nothing | Acquires(e: Endpoint) | Releases(e: Endpoint)

  /** What the action asks of the controller. */
  function Asks(t: Stream, action: Action): Request
    requires Enabled(t, action)
  {
    match action
    case AcquireNext => Acquires(t.phase.target[t.phase.n])
    case ReleaseNext => Releases(t.connected[t.phase.n])
    case LeaveNext => Releases(t.connected[t.phase.n])
    case _ => Nothing
  }

  function Served(r: Routing, request: Request, calls: Calls): Routing {
    match request
    case Nothing => r
    case Acquires(e) => Acquire(r, e, calls)
    case Releases(e) => Release(r, e, calls)
  }

  predicate CanStep(s: System, step: Step) {
    step.stream < |s.streams| && Enabled(s.streams[step.stream], step.action)
  }

  function Next(s: System, step: Step): System
    requires CanStep(s, step)
  {
    var t := s.streams[step.stream];
    System(s.streams[step.stream := Moved(t, step.action)], Served(s.routing, Asks(t, step.action), step.calls))
  }

  /** The endpoints a stream holds right now. */
  function Holds(t: Stream): seq<Endpoint> {
    match t.phase
    case Idle => t.connected
    case Acquiring(target, n) => if n <= |target| then t.connected + target[..n] else []
    case Releasing(target, n) => if n <= |t.connected| then target + t.connected[n..] else []
    case Leaving(n) => if n <= |t.connected| then t.connected[n..] else []
  }

  function One(e: Endpoint, k: string): int { if e.device != "" && Key(e) == k then 1 else 0 }

  /** How often a key occurs among endpoints; those without a device do not count. */
  function Count(endpoints: seq<Endpoint>, k: string): (n: int)
    ensures n >= 0
  {
    if endpoints == [] then 0 else One(endpoints[0], k) + Count(endpoints[1..], k)
  }

  lemma CountDrop(endpoints: seq<Endpoint>, n: nat, k: string)
    requires n < |endpoints|
    ensures Count(endpoints[n..], k) == One(endpoints[n], k) + Count(endpoints[n + 1..], k)
  {
    assert endpoints[n..][1..] == endpoints[n + 1..];
  }

  lemma CountTake(endpoints: seq<Endpoint>, n: nat, k: string)
    requires n < |endpoints|
    ensures Count(endpoints[..n + 1], k) == Count(endpoints[..n], k) + One(endpoints[n], k)
  {
    assert endpoints[..n + 1] == endpoints[..n] + [endpoints[n]];
    CountConcat(endpoints[..n], [endpoints[n]], k);
  }

  lemma {:induction false} CountConcat(a: seq<Endpoint>, b: seq<Endpoint>, k: string)
    ensures Count(a + b, k) == Count(a, k) + Count(b, k)
  {
    if a == [] {
      assert a + b == b;
    } else {
      assert (a + b)[1..] == a[1..] + b;
      CountConcat(a[1..], b, k);
    }
  }

  lemma {:induction false} CountMember(endpoints: seq<Endpoint>, e: Endpoint)
    requires e in endpoints && e.device != ""
    ensures Count(endpoints, Key(e)) > 0
  {
    if endpoints[0] != e {
      CountMember(endpoints[1..], e);
    }
  }

  /** Holds of a key by all streams together. */
  function Total(streams: seq<Stream>, k: string): (n: int)
    ensures n >= 0
  {
    if streams == [] then 0 else Count(Holds(streams[0]), k) + Total(streams[1..], k)
  }

  lemma {:induction false} TotalUpdate(streams: seq<Stream>, i: nat, t: Stream, k: string)
    requires i < |streams|
    ensures Total(streams[i := t], k) == Total(streams, k) - Count(Holds(streams[i]), k) + Count(Holds(t), k)
    ensures 0 <= Count(Holds(streams[i]), k) <= Total(streams, k)
  {
    if i == 0 {
      assert streams[0 := t][1..] == streams[1..];
    } else {
      TotalUpdate(streams[1..], i - 1, t, k);
      assert streams[i := t][1..] == streams[1..][i - 1 := t];
    }
  }

  /** One hold more, or one less, of the endpoint the request names. */
  function Change(request: Request, k: string): int {
    match request
    case Nothing => 0
    case Acquires(e) => One(e, k)
    case Releases(e) => 0 - One(e, k)
  }

  lemma OneMoreHeld(connected: seq<Endpoint>, target: seq<Endpoint>, n: nat, k: string)
    requires n < |target|
    ensures Count(connected + target[..n + 1], k) == Count(connected + target[..n], k) + One(target[n], k)
  {
    CountConcat(connected, target[..n], k);
    CountConcat(connected, target[..n + 1], k);
    CountTake(target, n, k);
  }

  lemma OneLessHeld(target: seq<Endpoint>, connected: seq<Endpoint>, n: nat, k: string)
    requires n < |connected|
    ensures Count(target + connected[n + 1..], k) == Count(target + connected[n..], k) - One(connected[n], k)
  {
    CountConcat(target, connected[n..], k);
    CountConcat(target, connected[n + 1..], k);
    CountDrop(connected, n, k);
  }

  lemma TurnsAround(connected: seq<Endpoint>, target: seq<Endpoint>, k: string)
    ensures Count(connected + target[..|target|], k) == Count(target + connected[0..], k)
  {
    assert target[..|target|] == target && connected[0..] == connected;
    CountConcat(connected, target, k);
    CountConcat(target, connected, k);
  }

  lemma AcquiringChanges(t: Stream, k: string)
    requires Enabled(t, AcquireNext)
    ensures Count(Holds(Moved(t, AcquireNext)), k) == Count(Holds(t), k) + Change(Asks(t, AcquireNext), k)
  {
    OneMoreHeld(t.connected, t.phase.target, t.phase.n, k);
  }

  lemma ReleasingChanges(t: Stream, k: string)
    requires Enabled(t, ReleaseNext)
    ensures Count(Holds(Moved(t, ReleaseNext)), k) == Count(Holds(t), k) + Change(Asks(t, ReleaseNext), k)
  {
    OneLessHeld(t.phase.target, t.connected, t.phase.n, k);
  }

  lemma LeavingChanges(t: Stream, k: string)
    requires Enabled(t, LeaveNext)
    ensures Count(Holds(Moved(t, LeaveNext)), k) == Count(Holds(t), k) + Change(Asks(t, LeaveNext), k)
  {
    CountDrop(t.connected, t.phase.n, k);
  }

  lemma HoldsChange(t: Stream, action: Action, k: string)
    requires Enabled(t, action)
    ensures Count(Holds(Moved(t, action)), k) == Count(Holds(t), k) + Change(Asks(t, action), k)
  {
    match action
    case Begin(target) =>
      assert t.connected + target[..0] == t.connected;
    case AcquireNext =>
      AcquiringChanges(t, k);
    case Turn =>
      TurnsAround(t.connected, t.phase.target, k);
    case Finish =>
      assert t.phase.target + t.connected[t.phase.n..] == t.phase.target;
    case Leave =>
      assert t.connected[0..] == t.connected;
    case Left =>
      assert t.connected[t.phase.n..] == [];
    case ReleaseNext =>
      ReleasingChanges(t, k);
    case LeaveNext =>
      LeavingChanges(t, k);
  }

  // --- Conservation of counts ----------------------------------------------------------

  /** Every count is the number of holds, and a count of none is not kept. */
  ghost predicate Counted(s: System) {
    forall k :: Refcount(s.routing, k) == Total(s.streams, k) && (k in s.routing.refcounts ==> s.routing.refcounts[k] > 0)
  }

  lemma ServedCounts(r: Routing, request: Request, calls: Calls, k: string)
    requires request.Releases? && request.e.device != "" ==> Refcount(r, Key(request.e)) > 0
    ensures Refcount(Served(r, request, calls), k) == Refcount(r, k) + Change(request, k)
  {
  }

  /** A release always meets a count: the stream that asks still holds the endpoint. */
  lemma ReleaseMeetsCount(s: System, step: Step)
    requires Counted(s) && CanStep(s, step)
    ensures
      var request := Asks(s.streams[step.stream], step.action);
      request.Releases? && request.e.device != "" ==> Refcount(s.routing, Key(request.e)) > 0
  {
    var t := s.streams[step.stream];
    var request := Asks(t, step.action);
    if request.Releases? && request.e.device != "" {
      var k := Key(request.e);
      assert request.e in Holds(t) by {
        if step.action.ReleaseNext? {
          assert t.connected[t.phase.n..][0] == request.e;
        } else {
          assert t.connected[t.phase.n..][0] == request.e;
        }
      }
      CountMember(Holds(t), request.e);
      TotalUpdate(s.streams, step.stream, t, k);
    }
  }

  lemma StepKeepsCounted(s: System, step: Step)
    requires Counted(s) && CanStep(s, step)
    ensures Counted(Next(s, step))
  {
    var t := s.streams[step.stream];
    var request := Asks(t, step.action);
    ReleaseMeetsCount(s, step);
    forall k
      ensures Refcount(Next(s, step).routing, k) == Total(Next(s, step).streams, k)
    {
      ServedCounts(s.routing, request, step.calls, k);
      HoldsChange(t, step.action, k);
      TotalUpdate(s.streams, step.stream, Moved(t, step.action), k);
    }
  }

  // --- Runs ----------------------------------------------------------------------------

  /** The state after the steps; a step that cannot be taken changes nothing. */
  function After(s: System, steps: seq<Step>): System {
    if steps == [] then s else
      var before := After(s, steps[..|steps| - 1]);
      if CanStep(before, steps[|steps| - 1]) then Next(before, steps[|steps| - 1]) else before
  }

  predicate CanRun(s: System, steps: seq<Step>) {
    steps == [] ||
    (CanRun(s, steps[..|steps| - 1]) && CanStep(After(s, steps[..|steps| - 1]), steps[|steps| - 1]))
  }

  predicate CanTake(s: System, steps: seq<Step>, k: nat)
    requires k < |steps|
  {
    CanStep(After(s, steps[..k]), steps[k])
  }

  lemma CanTakeBefore(s: System, steps: seq<Step>, n: nat, k: nat)
    requires k < n <= |steps|
    ensures CanTake(s, steps[..n], k) <==> CanTake(s, steps, k)
  {
    assert steps[..n][..k] == steps[..k] && steps[..n][k] == steps[k];
  }

  /** A run takes each step where the steps before it lead. */
  lemma {:induction false} CanRunIff(s: System, steps: seq<Step>)
    ensures CanRun(s, steps) <==> forall k :: 0 <= k < |steps| ==> CanTake(s, steps, k)
  {
    if steps != [] {
      var n := |steps| - 1;
      CanRunIff(s, steps[..n]);
      forall k | 0 <= k < n ensures CanTake(s, steps[..n], k) <==> CanTake(s, steps, k) {
        CanTakeBefore(s, steps, n, k);
      }
      assert CanRun(s, steps) <==> CanRun(s, steps[..n]) && CanTake(s, steps, n);
      if CanRun(s, steps) {
        forall k | 0 <= k < |steps| ensures CanTake(s, steps, k) {
          assert k < n ==> CanTake(s, steps[..n], k);
        }
      }
    }
  }

  /** In every interleaving the counts are the holds. */
  lemma {:induction false} RunKeepsCounted(s: System, steps: seq<Step>)
    requires Counted(s) && CanRun(s, steps)
    ensures Counted(After(s, steps))
  {
    if steps != [] {
      RunKeepsCounted(s, steps[..|steps| - 1]);
      StepKeepsCounted(After(s, steps[..|steps| - 1]), steps[|steps| - 1]);
    }
  }

  /** The step switches the hardware of this key: it counts the first hold, or drops the last. */
  predicate Switches(s: System, step: Step, k: string)
    requires CanStep(s, step)
  {
    var request := Asks(s.streams[step.stream], step.action);
    !request.Nothing? && request.e.device != "" && Key(request.e) == k &&
    Refcount(s.routing, k) == if request.Acquires? then 0 else 1
  }

  /** Only a switching step reaches the use case manager, for its own endpoint. */
  lemma OnlySwitchesReachCards(s: System, step: Step)
    requires CanStep(s, step) && Next(s, step).routing.cards != s.routing.cards
    ensures
      var request := Asks(s.streams[step.stream], step.action);
      !request.Nothing? && Switches(s, step, Key(request.e)) && request.e.card in s.routing.cards
  {
  }

  /** A key that some stream holds before and after a step is not switched by it. */
  lemma HeldNotSwitched(s: System, step: Step, i: nat, k: string)
    requires Counted(s) && CanStep(s, step) && i < |s.streams|
    requires Count(Holds(s.streams[i]), k) > 0 && Count(Holds(Next(s, step).streams[i]), k) > 0
    ensures !Switches(s, step, k)
  {
    StepKeepsCounted(s, step);
    TotalUpdate(s.streams, i, s.streams[i], k);
    TotalUpdate(Next(s, step).streams, i, Next(s, step).streams[i], k);
    assert s.streams[i := s.streams[i]] == s.streams;
    ReleaseMeetsCount(s, step);
    ServedCounts(s.routing, Asks(s.streams[step.stream], step.action), step.calls, k);
  }

  /** The stream is connected to the key, or switching to a set that has it from one that does. */
  predicate KeepsConnected(t: Stream, k: string) {
    Count(t.connected, k) > 0 &&
    match t.phase
    case Idle => true
    case Acquiring(target, n) => n <= |target| && Count(target, k) > 0
    case Releasing(target, n) => n <= |t.connected| && Count(target, k) > 0
    case Leaving(_) => false
  }

  /** The stream never leaves, and every set it is given has the key. */
  predicate Retains(step: Step, i: nat, k: string) {
    step.stream == i ==> !step.action.Leave? && (step.action.Begin? ==> Count(step.action.target, k) > 0)
  }

  lemma KeepsConnectedHolds(t: Stream, k: string)
    requires KeepsConnected(t, k)
    ensures Count(Holds(t), k) > 0
  {
    match t.phase
    case Idle =>
    case Acquiring(target, n) => CountConcat(t.connected, target[..n], k);
    case Releasing(target, n) => CountConcat(target, t.connected[n..], k);
  }

  lemma KeepsConnectedStep(s: System, step: Step, i: nat, k: string)
    requires CanStep(s, step) && i < |s.streams| && KeepsConnected(s.streams[i], k) && Retains(step, i, k)
    ensures KeepsConnected(Next(s, step).streams[i], k)
  {
  }

  /** No step of the run switches the key's hardware. */
  predicate NeverSwitched(s: System, steps: seq<Step>, k: string)
    requires CanRun(s, steps)
  {
    steps == [] ||
    (NeverSwitched(s, steps[..|steps| - 1], k) &&
     !Switches(After(s, steps[..|steps| - 1]), steps[|steps| - 1], k))
  }

  /**
   * A device in both the old and the new set of a stream is never switched, by any stream, in any
   * interleaving: acquiring comes before releasing.
   */
  lemma {:induction false} SharedNeverSwitched(s: System, steps: seq<Step>, i: nat, k: string)
    requires Counted(s) && CanRun(s, steps) && i < |s.streams| && KeepsConnected(s.streams[i], k)
    requires forall step :: step in steps ==> Retains(step, i, k)
    ensures i < |After(s, steps).streams| && KeepsConnected(After(s, steps).streams[i], k)
    ensures NeverSwitched(s, steps, k)
  {
    if steps != [] {
      var m := |steps| - 1;
      SharedNeverSwitched(s, steps[..m], i, k);
      RunKeepsCounted(s, steps[..m]);
      assert steps[m] in steps;
      SharedStep(After(s, steps[..m]), steps[m], i, k);
    }
  }

  lemma SharedStep(s: System, step: Step, i: nat, k: string)
    requires Counted(s) && CanStep(s, step) && i < |s.streams| && KeepsConnected(s.streams[i], k) && Retains(step, i, k)
    ensures KeepsConnected(Next(s, step).streams[i], k) && !Switches(s, step, k)
  {
    KeepsConnectedStep(s, step, i, k);
    KeepsConnectedHolds(s.streams[i], k);
    KeepsConnectedHolds(Next(s, step).streams[i], k);
    HeldNotSwitched(s, step, i, k);
  }

  // --- Enabled devices -----------------------------------------------------------------

  /** Every device that is on is counted. */
  ghost predicate EnabledCounted(r: Routing) {
    forall c, d :: c in r.cards && d in r.cards[c].enabled ==> Key(Endpoint(c, d)) in r.refcounts
  }

  /** Every counted device of a card with a profile is on. */
  ghost predicate CountedEnabled(r: Routing) {
    forall c, d :: c in r.cards && d != "" && Key(Endpoint(c, d)) in r.refcounts ==> d in r.cards[c].enabled
  }

  ghost predicate NoConflicts(r: Routing) {
    forall c, d :: c in r.cards ==> Conflicts(r.cards[c].devices, d) == []
  }

  ghost predicate AllSymmetric(r: Routing) {
    forall c :: c in r.cards ==> Symmetric(r.cards[c].devices)
  }

  ghost predicate AllExclusive(r: Routing) {
    forall c :: c in r.cards ==> Exclusive(r.cards[c])
  }

  lemma ServedEnabledCounted(r: Routing, request: Request, calls: Calls)
    requires EnabledCounted(r) && Succeeding(calls)
    ensures EnabledCounted(Served(r, request, calls))
  {
    var after := Served(r, request, calls);
    forall c, d | c in after.cards && d in after.cards[c].enabled
      ensures Key(Endpoint(c, d)) in after.refcounts
    {
      if !request.Nothing? && Key(Endpoint(c, d)) == Key(request.e) {
        KeyInjective(Endpoint(c, d), request.e);
      }
    }
  }

  lemma ServedCountedEnabled(r: Routing, request: Request, calls: Calls)
    requires CountedEnabled(r) && NoConflicts(r) && Succeeding(calls)
    requires forall k :: k in r.refcounts ==> r.refcounts[k] > 0
    ensures CountedEnabled(Served(r, request, calls)) && NoConflicts(Served(r, request, calls))
  {
    var after := Served(r, request, calls);
    forall c, d | c in after.cards && d != "" && Key(Endpoint(c, d)) in after.refcounts
      ensures d in after.cards[c].enabled
    {
      if !request.Nothing? && Key(Endpoint(c, d)) == Key(request.e) {
        KeyInjective(Endpoint(c, d), request.e);
      }
    }
  }

  lemma ServedExclusive(r: Routing, request: Request, calls: Calls)
    requires AllExclusive(r) && AllSymmetric(r) && forall d :: calls.disables(d)
    ensures AllExclusive(Served(r, request, calls)) && AllSymmetric(Served(r, request, calls))
  {
    if request.Acquires? && request.e.card in r.cards {
      EnableExclusive(r.cards[request.e.card], request.e.device, calls);
    }
  }

  /**
   * With calls that succeed: whatever is on is held by some stream, conflicting devices are
   * never on together, and without conflicts exactly the held devices are on.
   */
  ghost predicate Sound(s: System) {
    Counted(s) && EnabledCounted(s.routing) &&
    (AllSymmetric(s.routing) ==> AllExclusive(s.routing)) &&
    (NoConflicts(s.routing) ==> CountedEnabled(s.routing))
  }

  ghost predicate SameProfiles(r: Routing, t: Routing) {
    r.cards.Keys == t.cards.Keys && forall c :: c in r.cards ==> r.cards[c].devices == t.cards[c].devices
  }

  lemma ServedSameProfiles(r: Routing, request: Request, calls: Calls)
    ensures SameProfiles(r, Served(r, request, calls))
    ensures AllSymmetric(Served(r, request, calls)) <==> AllSymmetric(r)
    ensures NoConflicts(Served(r, request, calls)) <==> NoConflicts(r)
  {
  }

  lemma StepKeepsSound(s: System, step: Step)
    requires Sound(s) && CanStep(s, step) && Succeeding(step.calls)
    ensures Sound(Next(s, step)) && SameProfiles(s.routing, Next(s, step).routing)
  {
    var request := Asks(s.streams[step.stream], step.action);
    StepKeepsCounted(s, step);
    ServedSameProfiles(s.routing, request, step.calls);
    ServedEnabledCounted(s.routing, request, step.calls);
    if AllSymmetric(s.routing) {
      ServedExclusive(s.routing, request, step.calls);
    }
    if NoConflicts(s.routing) {
      ServedCountedEnabled(s.routing, request, step.calls);
    }
  }

  lemma {:induction false} RunKeepsSound(s: System, steps: seq<Step>)
    requires Sound(s) && CanRun(s, steps) && forall step :: step in steps ==> Succeeding(step.calls)
    ensures Sound(After(s, steps)) && SameProfiles(s.routing, After(s, steps).routing)
  {
    if steps != [] {
      var n := |steps| - 1;
      assert steps[n] in steps;
      RunKeepsSound(s, steps[..n]);
      StepKeepsSound(After(s, steps[..n]), steps[n]);
    }
  }

  /** Nothing connected and nothing on, as at the start. */
  lemma StartIsSound(s: System)
    requires s.routing.refcounts == map[] && forall c :: c in s.routing.cards ==> s.routing.cards[c].enabled == {}
    requires forall i :: 0 <= i < |s.streams| ==> s.streams[i] == Stream([], Idle)
    ensures Sound(s)
  {
    forall k ensures Total(s.streams, k) == 0 {
      NoStreamsHold(s.streams, k);
    }
  }

  lemma {:induction false} NoStreamsHold(streams: seq<Stream>, k: string)
    requires forall i :: 0 <= i < |streams| ==> streams[i] == Stream([], Idle)
    ensures Total(streams, k) == 0
  {
    if streams != [] {
      NoStreamsHold(streams[1..], k);
    }
  }

  /**
   * What acquiring e does to a counted device that is on: it goes off exactly when e is counted
   * for the first time, was off, and lists the device as conflicting.
   */
  lemma AcquireKeepsOnIff(r: Routing, e: Endpoint, calls: Calls, c: int, d: string)
    requires Succeeding(calls) && e.device != "" && c in r.cards && d in r.cards[c].enabled
    ensures d !in Acquire(r, e, calls).cards[c].enabled <==>
      e.card == c && Refcount(r, Key(e)) == 0 && e.device !in r.cards[c].enabled &&
      d in Conflicts(r.cards[c].devices, e.device) && d != e.device
  {
  }

  /** What releasing e does to a device that is on: it goes off exactly when it was the last hold of it. */
  lemma ReleaseKeepsOnIff(r: Routing, e: Endpoint, calls: Calls, c: int, d: string)
    requires Succeeding(calls) && d != "" && c in r.cards && d in r.cards[c].enabled
    ensures d !in Release(r, e, calls).cards[c].enabled <==>
      e == Endpoint(c, d) && Refcount(r, Key(e)) == 1
  {
  }

  /** The step takes an endpoint nobody holds, and its device lists d of the same card as conflicting. */
  predicate Evicts(s: System, step: Step, c: int, d: string)
    requires CanStep(s, step) && c in s.routing.cards
  {
    var request := Asks(s.streams[step.stream], step.action);
    request.Acquires? && request.e.card == c && request.e.device != "" &&
    Refcount(s.routing, Key(request.e)) == 0 && d in Conflicts(s.routing.cards[c].devices, request.e.device)
  }

  /** The key is held at every moment of the run. */
  ghost predicate HeldThroughout(s: System, steps: seq<Step>, k: string) {
    Refcount(After(s, steps).routing, k) > 0 && (steps != [] ==> HeldThroughout(s, steps[..|steps| - 1], k))
  }

  ghost predicate NeverEvicted(s: System, steps: seq<Step>, c: int, d: string)
    requires CanRun(s, steps)
  {
    steps == [] ||
    (NeverEvicted(s, steps[..|steps| - 1], c, d) &&
     var before := After(s, steps[..|steps| - 1]);
     c in before.routing.cards && !Evicts(before, steps[|steps| - 1], c, d))
  }

  lemma HeldStep(s: System, step: Step, c: int, d: string)
    requires Sound(s) && CanStep(s, step) && Succeeding(step.calls) && c in s.routing.cards && d != ""
    requires Refcount(s.routing, Key(Endpoint(c, d))) > 0 && Refcount(Next(s, step).routing, Key(Endpoint(c, d))) > 0
    ensures c in Next(s, step).routing.cards
    ensures d in Next(s, step).routing.cards[c].enabled <==>
      d in s.routing.cards[c].enabled && !Evicts(s, step, c, d)
  {
    var request, r, me := Asks(s.streams[step.stream], step.action), s.routing, Endpoint(c, d);
    if !request.Nothing? && Key(request.e) == Key(me) {
      KeyInjective(request.e, me);
      ServedCounts(r, request, step.calls, Key(me));
    } else if request.Acquires? && d in r.cards[c].enabled && request.e.device != "" {
      AcquireKeepsOnIff(r, request.e, step.calls, c, d);
      assert request.e.card == c && request.e.device in r.cards[c].enabled ==> request.e == Endpoint(c, request.e.device);
    } else if request.Releases? && d in r.cards[c].enabled {
      ReleaseKeepsOnIff(r, request.e, step.calls, c, d);
    }
  }

  /**
   * A device that is on, and held all along, is on at the end of a run if and only if nobody took an
   * endpoint nobody held whose device conflicts with it. What is taken or released besides never matters.
   */
  lemma {:induction false} HeldStaysOnIff(s: System, steps: seq<Step>, c: int, d: string)
    requires Sound(s) && CanRun(s, steps) && forall step :: step in steps ==> Succeeding(step.calls)
    requires c in s.routing.cards && d != "" && d in s.routing.cards[c].enabled
    requires HeldThroughout(s, steps, Key(Endpoint(c, d)))
    ensures c in After(s, steps).routing.cards
    ensures d in After(s, steps).routing.cards[c].enabled <==> NeverEvicted(s, steps, c, d)
  {
    if steps != [] {
      var n := |steps| - 1;
      assert steps[n] in steps;
      HeldStaysOnIff(s, steps[..n], c, d);
      RunKeepsSound(s, steps[..n]);
      HeldStep(After(s, steps[..n]), steps[n], c, d);
    }
  }

  /** A device held by one stream is off after another stream took a conflicting one, and stays off. */
  lemma CountedMayBeOff(calls: Calls)
    requires Succeeding(calls)
    ensures
      var devices := [UcmDevice("Speaker", ["Headphones"]), UcmDevice("Headphones", ["Speaker"])];
      var speaker, phones := Endpoint(0, "Speaker"), Endpoint(0, "Headphones");
      var both := Acquire(Acquire(Routing(map[], map[0 := Card(devices, {})]), speaker, calls), phones, calls);
      var after := Release(both, phones, calls);
      Refcount(both, Key(speaker)) == 1 && "Speaker" !in both.cards[0].enabled &&
      Refcount(after, Key(speaker)) == 1 && after.cards[0].enabled == {}
  {
    var devices := [UcmDevice("Speaker", ["Headphones"]), UcmDevice("Headphones", ["Speaker"])];
    var speaker, phones := Endpoint(0, "Speaker"), Endpoint(0, "Headphones");
    assert speaker != phones;
    if Key(speaker) == Key(phones) {
      KeyInjective(speaker, phones);
    }
    assert Conflicts(devices, "Speaker") == ["Headphones"];
    assert Conflicts(devices, "Headphones") == Conflicts(devices[1..], "Headphones") == ["Speaker"];
  }
}
