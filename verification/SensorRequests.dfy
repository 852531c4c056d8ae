/**
 * What the sensors do, told from the requests of a run and not from what is stored of them
 * (interfaces/sensors/mainline/SensorManager.cpp).
 */
module SensorRequests {
  import opened Common
  import opened Sensors

  // --- What one request stores ---------------------------------------------------------

  /** Within the limits there are, in nanoseconds. */
  predicate Allowed(info: Info, period: int) {
    (info.minDelayUs > 0 ==> period >= info.minDelayUs * 1000) && (info.maxDelayUs > 0 ==> period <= info.maxDelayUs * 1000)
  }

  /** The clamped period is allowed, and lies between the one asked for and any other that is. */
  lemma ClampIsNearest(info: Info, period: int)
    requires info.minDelayUs > 0 && info.maxDelayUs > 0 ==> info.minDelayUs <= info.maxDelayUs
    ensures
      var p := ClampSamplingPeriodNs(info, period);
      Allowed(info, p) && forall q :: Allowed(info, q) ==> period <= p <= q || q <= p <= period
  {
  }

  /** A valid Batch stores the clamped period and the latency at its sensor, and nothing else anywhere. */
  lemma BatchStores(s: State, op: Op, answers: Answers)
    requires op.Batch? && OfHardware(s, op) && !Invalid(s, op)
    ensures
      var t := Next(s, op, answers).0;
      t.composites == s.composites && t.hardware.Keys == s.hardware.Keys &&
      (forall h :: h in s.hardware && h != op.handle ==> t.hardware[h] == s.hardware[h]) &&
      var hw, p := s.hardware[op.handle], ClampSamplingPeriodNs(s.hardware[op.handle].info, op.period);
      t.hardware[op.handle] == hw.(clientPeriod := p, clientLatency := op.latency, backend := t.hardware[op.handle].backend)
  {
  }

  /** While the client has the sensor off, its rate is only stored; composites keep the rates they are made with. */
  lemma BatchLeavesBackend(s: State, op: Op, answers: Answers)
    requires op.Batch?
    ensures
      var (t, ret) := Next(s, op, answers);
      (FindComposite(s.composites, op.handle).Some? ==> (t, ret) == (s, 0)) &&
      (OfHardware(s, op) && !Invalid(s, op) && !s.hardware[op.handle].clientActive ==>
         ret == 0 && t.hardware[op.handle].backend == s.hardware[op.handle].backend)
  {
  }

  /** With calls that succeed, the sensor of a client nobody competes with runs at just that rate from then on. */
  lemma BatchRuns(s: State, op: Op, answers: Answers)
    requires Consistent(s) && ClampedOp(s, op) && Succeeding(answers)
    requires op.Batch? && OfHardware(s, op) && !Invalid(s, op)
    requires s.hardware[op.handle].clientActive && s.hardware[op.handle].compositePeriods == map[]
    ensures
      var (t, ret) := Next(s, op, answers);
      ret == 0 && op.handle in t.hardware && t.hardware[op.handle].backend ==
        Backend(true, ClampSamplingPeriodNs(s.hardware[op.handle].info, op.period), op.latency)
  {
    RecordedArePositive(s);
    InSyncKept(s, op, answers);
    BatchStores(s, op, answers);
    var hw := Next(s, op, answers).0.hardware[op.handle];
    assert hw.compositePeriods.Keys == {};
    assert DesiredPeriod(hw) == hw.clientPeriod;
  }

  /** Invalid requests change nothing and say so; other errors of a hardware operation are the backend's. */
  lemma HardwareStatus(s: State, op: Op, answers: Answers)
    requires OfHardware(s, op)
    ensures
      var (t, ret) := Next(s, op, answers);
      (Invalid(s, op) ==> (t, ret) == (s, -EINVAL)) &&
      (!Invalid(s, op) ==> ret == 0 || ret == answers(0).batch || ret == answers(0).activate) &&
      (Succeeding(answers) && !Invalid(s, op) ==> ret == 0)
  {
  }

  /** With calls that succeed a composite is refused nothing but inputs that do not exist. */
  lemma CompositeStatus(s: State, handle: int, enabled: bool, answers: Answers, i: nat)
    requires FindComposite(s.composites, handle) == Some(i) && Succeeding(answers)
    ensures Next(s, Activate(handle, enabled), answers).1 == 0 <==>
      s.composites[i].active == enabled || forall h :: h in s.composites[i].inputs ==> h in s.hardware
  {
    var c := s.composites[i];
    if c.active != enabled {
      EachSucceeds(MarkInputs(s.hardware, c.inputs, c, enabled), c.inputs, |c.inputs|, answers);
      assert c.inputs[..|c.inputs|] == c.inputs;
    }
  }

  lemma {:induction false} EachSucceeds(hardware: map<int, Hardware>, handles: seq<int>, n: nat, answers: Answers)
    requires n <= |handles| && Succeeding(answers)
    ensures ApplyEach(hardware, handles, n, answers).1 == 0 <==> forall h :: h in handles[..n] ==> h in hardware
  {
    if n > 0 {
      EachSucceeds(hardware, handles, n - 1, answers);
      assert handles[..n] == handles[..n - 1] + [handles[n - 1]];
    }
  }

  // --- What was asked for in a run -----------------------------------------------------

  /** The status the last step answered. */
  ghost function StatusOf(s: State, steps: seq<Step>): int
    requires steps != []
  {
    var step := steps[|steps| - 1];
    Next(After(s, steps[..|steps| - 1]), step.op, step.answers).1
  }

  /** The client has the sensor on: the last request to switch it, unless that was refused. */
  ghost predicate ClientAsks(s: State, steps: seq<Step>, h: int)
    requires h in s.hardware
  {
    if steps == [] then s.hardware[h].clientActive else
      var op := steps[|steps| - 1].op;
      if op.DeactivateAll? then false
      else if op.Activate? && op.handle == h && OfHardware(s, op) then op.enabled && StatusOf(s, steps) == 0
      else ClientAsks(s, steps[..|steps| - 1], h)
  }

  /** The last valid rate request for the sensor, clamped; the one it started with if there was none. */
  ghost function RateAsked(s: State, steps: seq<Step>, h: int): (int, int)
    requires h in s.hardware
  {
    if steps == [] then (s.hardware[h].clientPeriod, s.hardware[h].clientLatency) else
      var op := steps[|steps| - 1].op;
      if op.Batch? && op.handle == h && OfHardware(s, op) && !Invalid(s, op)
      then (ClampSamplingPeriodNs(s.hardware[h].info, op.period), op.latency)
      else RateAsked(s, steps[..|steps| - 1], h)
  }

  /** The composite is on: the last request to switch it, which is never refused. */
  ghost predicate CompositeAsks(s: State, steps: seq<Step>, i: nat)
    requires i < |s.composites|
  {
    if steps == [] then s.composites[i].active else
      var op := steps[|steps| - 1].op;
      if op.DeactivateAll? then false
      else if op.Activate? && FindComposite(s.composites, op.handle) == Some(i) then op.enabled
      else CompositeAsks(s, steps[..|steps| - 1], i)
  }

  lemma {:induction false} SameFound(a: seq<Composite>, b: seq<Composite>, handle: int)
    requires |a| == |b| && forall i :: 0 <= i < |a| ==> a[i].handle == b[i].handle
    ensures FindComposite(a, handle) == FindComposite(b, handle)
  {
    if a != [] {
      SameFound(a[..|a| - 1], b[..|b| - 1], handle);
    }
  }

  /** The stored requests are those of the run. */
  ghost predicate Stored(s: State, steps: seq<Step>, h: int)
    requires h in s.hardware
  {
    var t := After(s, steps);
    h in t.hardware &&
    t.hardware[h].clientActive == ClientAsks(s, steps, h) && t.hardware[h].info == s.hardware[h].info &&
    (t.hardware[h].clientPeriod, t.hardware[h].clientLatency) == RateAsked(s, steps, h)
  }

  ghost predicate CompositesStored(s: State, steps: seq<Step>) {
    var t := After(s, steps);
    |t.composites| == |s.composites| &&
    forall i :: 0 <= i < |s.composites| ==> t.composites[i] == s.composites[i].(active := CompositeAsks(s, steps, i))
  }

  ghost predicate SameKeys(s: State, t: State) { t.hardware.Keys == s.hardware.Keys }

  /** What an operation does to the client's part of one sensor. */
  lemma ClientStep(s: State, op: Op, answers: Answers, h: int)
    requires h in s.hardware
    ensures
      var (t, ret) := Next(s, op, answers);
      SameKeys(s, t) && t.hardware[h].info == s.hardware[h].info &&
      t.hardware[h].clientActive ==
        (if op.DeactivateAll? then false
         else if op.Activate? && op.handle == h && OfHardware(s, op) then op.enabled && ret == 0
         else s.hardware[h].clientActive) &&
      (t.hardware[h].clientPeriod, t.hardware[h].clientLatency) ==
        if op.Batch? && op.handle == h && OfHardware(s, op) && !Invalid(s, op)
        then (ClampSamplingPeriodNs(s.hardware[h].info, op.period), op.latency)
        else (s.hardware[h].clientPeriod, s.hardware[h].clientLatency)
  {
    match op
    case DeactivateAll =>
      var handles := ActiveHandles(s.hardware, s.hardware.Keys);
      ApplyEachKeepsRequests(DropAll(s.hardware), handles, |handles|, answers);
    case Batch(_, _, _) =>
    case Activate(handle, enabled) =>
      match FindComposite(s.composites, handle)
      case None =>
      case Some(i) =>
        var c := s.composites[i];
        ApplyEachKeepsRequests(MarkInputs(s.hardware, c.inputs, c, enabled), c.inputs, |c.inputs|, answers);
  }

  /** What an operation does to the composites. */
  lemma CompositeStep(s: State, op: Op, answers: Answers, i: nat)
    requires i < |s.composites|
    ensures
      var t := Next(s, op, answers).0;
      |t.composites| == |s.composites| &&
      t.composites[i] == s.composites[i].(active :=
        if op.DeactivateAll? then false
        else if op.Activate? && FindComposite(s.composites, op.handle) == Some(i) then op.enabled
        else s.composites[i].active)
  {
  }

  lemma {:induction false} CompositesTold(s: State, steps: seq<Step>)
    ensures CompositesStored(s, steps)
  {
    if steps != [] {
      var before, step := steps[..|steps| - 1], steps[|steps| - 1];
      CompositesTold(s, before);
      var t := After(s, before);
      if step.op.Activate? {
        SameFound(s.composites, t.composites, step.op.handle);
      }
      forall i | 0 <= i < |s.composites|
        ensures |After(s, steps).composites| == |s.composites|
        ensures After(s, steps).composites[i] == s.composites[i].(active := CompositeAsks(s, steps, i))
      {
        CompositeStep(t, step.op, step.answers, i);
      }
      assert |After(s, steps).composites| == |s.composites| by {
        SameCount(t, step.op, step.answers);
      }
    }
  }

  lemma SameCount(s: State, op: Op, answers: Answers)
    ensures |Next(s, op, answers).0.composites| == |s.composites|
  {
  }

  lemma {:induction false} ClientTold(s: State, steps: seq<Step>, h: int)
    requires h in s.hardware
    ensures Stored(s, steps, h)
  {
    if steps != [] {
      var before, step := steps[..|steps| - 1], steps[|steps| - 1];
      ClientTold(s, before, h);
      var t := After(s, before);
      CompositesTold(s, before);
      if !step.op.DeactivateAll? {
        SameFound(s.composites, t.composites, step.op.handle);
      }
      ClientStep(t, step.op, step.answers, h);
    }
  }

  // --- What the backend does -----------------------------------------------------------

  /** The composite was asked for and consumes the sensor. */
  ghost predicate CompositeNeeds(s: State, steps: seq<Step>, i: nat, h: int)
    requires i < |s.composites|
  {
    CompositeAsks(s, steps, i) && h in s.composites[i].inputs
  }

  ghost predicate RunNeeds(s: State, steps: seq<Step>, h: int)
    requires h in s.hardware
  {
    ClientAsks(s, steps, h) || exists i :: 0 <= i < |s.composites| && CompositeNeeds(s, steps, i, h)
  }

  /** A period somebody asks for: the client, or a composite that is on. */
  ghost predicate RunAsks(s: State, steps: seq<Step>, h: int, p: int)
    requires h in s.hardware
  {
    (ClientAsks(s, steps, h) && p == RateAsked(s, steps, h).0) ||
    exists i :: 0 <= i < |s.composites| && CompositeNeeds(s, steps, i, h) &&
      p == ClampSamplingPeriodNs(s.hardware[h].info, s.composites[i].period)
  }

  lemma NeedsTold(s: State, steps: seq<Step>, h: int, p: int)
    requires h in s.hardware && Stored(s, steps, h) && CompositesStored(s, steps)
    ensures Needed(After(s, steps), h) <==> RunNeeds(s, steps, h)
    ensures Asked(After(s, steps), h, p) <==> RunAsks(s, steps, h, p)
  {
    var t := After(s, steps);
    forall i | 0 <= i < |s.composites|
      ensures t.composites[i].active && h in t.composites[i].inputs <==> CompositeNeeds(s, steps, i, h)
      ensures t.composites[i].period == s.composites[i].period
    {
      assert t.composites[i] == s.composites[i].(active := CompositeAsks(s, steps, i));
    }
  }

  /**
   * From registration on, whatever the requests: a sensor is on if and only if the client or a composite
   * has it on by the last request about it; then it runs at the shortest period those ask for, and with
   * the client's latency or none.
   */
  lemma SensorRunsAsRequested(s: State, steps: seq<Step>, h: int)
    requires Registered(s) && AllTame(s, steps) && h in s.hardware
    ensures
      var t := After(s, steps);
      h in t.hardware &&
      var b := t.hardware[h].backend;
      (b.active <==> RunNeeds(s, steps, h)) &&
      (b.active ==>
         RunAsks(s, steps, h, b.period) && (forall p :: RunAsks(s, steps, h, p) ==> b.period <= p) &&
         b.latency == if ClientAsks(s, steps, h) then RateAsked(s, steps, h).1 else 0)
  {
    ClientTold(s, steps, h);
    CompositesTold(s, steps);
    SensorRunsFromStart(s, steps, h);
    NeedsTold(s, steps, h, 0);
    forall p ensures Asked(After(s, steps), h, p) <==> RunAsks(s, steps, h, p) {
      NeedsTold(s, steps, h, p);
    }
  }
}
