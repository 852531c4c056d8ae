/**
 * Arbitration between the framework's and the composite sensors' requests
 * (interfaces/sensors/mainline/SensorManager.cpp).
 */
module Sensors {
  import opened Common

  const EINVAL := 22

  datatype Info = Info(minDelayUs: int, maxDelayUs: int)

  function ClampSamplingPeriodNs(info: Info, period: int): int {
    var lowest, highest := info.minDelayUs * 1000, info.maxDelayUs * 1000;
    var p := if lowest > 0 && period < lowest then lowest else period;
    if highest > 0 && p > highest then highest else p
  }

  datatype Hardware = Hardware(
    info: Info,
    clientActive: bool, clientPeriod: int, clientLatency: int,
    compositePeriods: map<int, int>,
    backend: Backend)

  /** What the backend currently does. */
  datatype Backend = Backend(active: bool, period: int, latency: int)

  datatype Composite = Composite(handle: int, inputs: seq<int>, period: int, active: bool)

  datatype State = State(hardware: map<int, Hardware>, composites: seq<Composite>)

  /** What the backend would answer to a Batch and to an Activate call; 0 is success. */
  datatype Answer = Answer(batch: int, activate: int)

  type Answers = nat -> Answer

  // --- Requests ------------------------------------------------------------------------

  function Faster(soFar: int, p: int): int { if soFar == 0 then p else Min(soFar, p) }

  /** The fold over the composite periods, in key order. */
  ghost function Fastest(info: Info, periods: map<int, int>, keys: set<int>, start: int): int
    requires keys <= periods.Keys
    decreases |keys|
  {
    if keys == {} then start else
      var k := Least(keys);
      Fastest(info, periods, keys - {k}, Faster(start, ClampSamplingPeriodNs(info, periods[k])))
  }

  predicate Wanted(hw: Hardware) { hw.clientActive || hw.compositePeriods != map[] }

  ghost function DesiredPeriod(hw: Hardware): int {
    var start := if hw.clientActive then hw.clientPeriod else 0;
    var fastest := Fastest(hw.info, hw.compositePeriods, hw.compositePeriods.Keys, start);
    if fastest == 0 then hw.clientPeriod else fastest
  }

  function DesiredLatency(hw: Hardware): int { if hw.clientActive then hw.clientLatency else 0 }

  /** Somebody's request: the client's, or a composite's after clamping. */
  ghost predicate Requested(hw: Hardware, p: int) {
    (hw.clientActive && p == hw.clientPeriod) ||
    exists c :: c in hw.compositePeriods && p == ClampSamplingPeriodNs(hw.info, hw.compositePeriods[c])
  }

  ghost predicate PositivePeriods(hw: Hardware) {
    hw.clientPeriod > 0 &&
    forall c :: c in hw.compositePeriods ==> ClampSamplingPeriodNs(hw.info, hw.compositePeriods[c]) > 0
  }

  ghost predicate AllPositive(hardware: map<int, Hardware>) {
    forall h :: h in hardware ==> PositivePeriods(hardware[h])
  }

  lemma {:induction false} FastestIsLeast(info: Info, periods: map<int, int>, keys: set<int>, start: int)
    requires keys <= periods.Keys && start >= 0
    requires forall c :: c in keys ==> ClampSamplingPeriodNs(info, periods[c]) > 0
    ensures
      var r := Fastest(info, periods, keys, start);
      (start > 0 || keys != {} ==> r > 0) && (start > 0 ==> r <= start) &&
      (forall c :: c in keys ==> r <= ClampSamplingPeriodNs(info, periods[c])) &&
      (r == start || exists c :: c in keys && r == ClampSamplingPeriodNs(info, periods[c]))
    decreases |keys|
  {
    if keys != {} {
      var k := Least(keys);
      FastestIsLeast(info, periods, keys - {k}, Faster(start, ClampSamplingPeriodNs(info, periods[k])));
    }
  }

  /** With positive periods the desired period is the minimum of the requests. */
  lemma DesiredIsMinimum(hw: Hardware)
    requires PositivePeriods(hw) && Wanted(hw)
    ensures Requested(hw, DesiredPeriod(hw))
    ensures forall p :: Requested(hw, p) ==> DesiredPeriod(hw) <= p
  {
    var start := if hw.clientActive then hw.clientPeriod else 0;
    FastestIsLeast(hw.info, hw.compositePeriods, hw.compositePeriods.Keys, start);
    if !hw.clientActive {
      assert hw.compositePeriods.Keys != {};
    }
  }

  lemma {:induction false} FastestOfZeros(info: Info, periods: map<int, int>, keys: set<int>)
    requires keys <= periods.Keys && forall c :: c in keys ==> ClampSamplingPeriodNs(info, periods[c]) == 0
    ensures Fastest(info, periods, keys, 0) == 0
    decreases |keys|
  {
    if keys != {} {
      FastestOfZeros(info, periods, keys - {Least(keys)});
    }
  }

  /** If nobody names a rate the client's last one is used, even when the client has the sensor off. */
  lemma NoRateIsClients(hw: Hardware)
    requires hw.clientActive ==> hw.clientPeriod == 0
    requires forall c :: c in hw.compositePeriods ==> ClampSamplingPeriodNs(hw.info, hw.compositePeriods[c]) == 0
    ensures DesiredPeriod(hw) == hw.clientPeriod
  {
    FastestOfZeros(hw.info, hw.compositePeriods, hw.compositePeriods.Keys);
  }

  // --- Applying the requests to the backend --------------------------------------------

  ghost predicate NeedBatch(hw: Hardware) {
    Wanted(hw) && (DesiredPeriod(hw) != hw.backend.period || DesiredLatency(hw) != hw.backend.latency)
  }

  predicate NeedActivate(hw: Hardware) { Wanted(hw) != hw.backend.active }

  ghost function Applied(hw: Hardware, answer: Answer): Hardware {
    var b := if NeedBatch(hw) && answer.batch == 0
             then hw.backend.(period := DesiredPeriod(hw), latency := DesiredLatency(hw)) else hw.backend;
    hw.(backend := if NeedActivate(hw) && answer.activate == 0 then b.(active := Wanted(hw)) else b)
  }

  /** The status ApplyHardwareState returns: an Activate call hides what Batch answered. */
  ghost function Status(hw: Hardware, answer: Answer): int {
    if NeedActivate(hw) then answer.activate
    else if NeedBatch(hw) then answer.batch else 0
  }

  /** Active in the backend exactly when somebody needs it. */
  predicate Following(hw: Hardware) { hw.backend.active == Wanted(hw) }

  /** The backend does what is requested, at the requested rate. */
  ghost predicate InSync(hw: Hardware) {
    Following(hw) &&
    (hw.backend.active ==>
       hw.backend.period == DesiredPeriod(hw) && hw.backend.latency == DesiredLatency(hw))
  }

  /** Applying reads the requests only: it never changes them. */
  lemma AppliedKeepsRequests(hw: Hardware, answer: Answer)
    ensures
      var after := Applied(hw, answer);
      DesiredPeriod(after) == DesiredPeriod(hw) && DesiredLatency(after) == DesiredLatency(hw) &&
      Wanted(after) == Wanted(hw)
  {
    assert Applied(hw, answer).compositePeriods == hw.compositePeriods;
  }

  /** Exactly when the backend ends up in step: every call that was needed succeeded. */
  lemma AppliedInSync(hw: Hardware, answer: Answer)
    ensures InSync(Applied(hw, answer)) <==>
      (NeedBatch(hw) ==> answer.batch == 0) && (NeedActivate(hw) ==> answer.activate == 0)
    ensures Following(Applied(hw, answer)) <==> (NeedActivate(hw) ==> answer.activate == 0)
  {
    AppliedKeepsRequests(hw, answer);
  }

  /** Taking back a request whose application failed leaves a sensor that was in step in step. */
  lemma RollbackInSync(hw: Hardware, answer: Answer)
    requires InSync(hw) && !hw.clientActive
    requires Status(hw.(clientActive := true), answer) != 0
    ensures InSync(Applied(hw.(clientActive := true), answer).(clientActive := false))
  {
    var tried := hw.(clientActive := true);
    var after := Applied(tried, answer).(clientActive := false);
    assert after == hw.(backend := after.backend);
    assert DesiredPeriod(after) == DesiredPeriod(hw);
  }

  // --- Operations on the whole state ---------------------------------------------------

  ghost function ApplyHardware(hardware: map<int, Hardware>, handle: int, answer: Answer)
    : (map<int, Hardware>, int)
  {
    if handle in hardware
    then (hardware[handle := Applied(hardware[handle], answer)], Status(hardware[handle], answer))
    else (hardware, -EINVAL)
  }

  /** Applies handles[i..] in order; the last error wins. */
  ghost function ApplyEach(hardware: map<int, Hardware>, handles: seq<int>, n: nat, answers: Answers)
    : (r: (map<int, Hardware>, int))
    requires n <= |handles|
    ensures r.0.Keys == hardware.Keys
  {
    if n == 0 then (hardware, 0) else
      var (before, ret) := ApplyEach(hardware, handles, n - 1, answers);
      var (after, r) := ApplyHardware(before, handles[n - 1], answers(n - 1));
      (after, if r != 0 then r else ret)
  }

  function FindComposite(composites: seq<Composite>, handle: int): (r: Option<nat>)
    ensures r.Some? ==> r.value < |composites| && composites[r.value].handle == handle
    ensures r.None? ==> forall i :: 0 <= i < |composites| ==> composites[i].handle != handle
  {
    if composites == [] then None
    else if composites[|composites| - 1].handle == handle &&
            FindComposite(composites[..|composites| - 1], handle).None?
    then Some(|composites| - 1)
    else FindComposite(composites[..|composites| - 1], handle)
  }

  function Mark(hw: Hardware, c: Composite, enabled: bool): Hardware {
    hw.(compositePeriods :=
      if enabled then hw.compositePeriods[c.handle := c.period] else hw.compositePeriods - {c.handle})
  }

  function MarkInputs(hardware: map<int, Hardware>, inputs: seq<int>, c: Composite, enabled: bool)
    : (r: map<int, Hardware>)
    ensures r.Keys == hardware.Keys
  {
    map h | h in hardware :: if h in inputs then Mark(hardware[h], c, enabled) else hardware[h]
  }

  datatype Op =
    | Activate(handle: int, enabled: bool)
    | Batch(handle: int, period: int, latency: int)
    | DeactivateAll

  ghost function ActivateComposite(s: State, i: nat, enabled: bool, answers: Answers): (State, int)
    requires i < |s.composites|
  {
    var c := s.composites[i];
    if c.active == enabled then (s, 0) else
      var marked := MarkInputs(s.hardware, c.inputs, c, enabled);
      var (hardware, ret) := ApplyEach(marked, c.inputs, |c.inputs|, answers);
      (State(hardware, s.composites[i := c.(active := enabled)]), ret)
  }

  ghost function ActivateHardware(s: State, handle: int, enabled: bool, answer: Answer): (State, int) {
    if handle !in s.hardware then (s, -EINVAL)
    else if s.hardware[handle].clientActive == enabled then (s, 0)
    else
      var requested := s.hardware[handle].(clientActive := enabled);
      var after, ret := Applied(requested, answer), Status(requested, answer);
      var kept := if ret != 0 && enabled then after.(clientActive := false) else after;
      (s.(hardware := s.hardware[handle := kept]), ret)
  }

  ghost function BatchHardware(s: State, handle: int, period: int, latency: int, answer: Answer): (State, int) {
    if handle !in s.hardware || period < 0 || latency < 0 then (s, -EINVAL)
    else
      var hw := s.hardware[handle];
      var requested := hw.(clientPeriod := ClampSamplingPeriodNs(hw.info, period), clientLatency := latency);
      if hw.clientActive
      then (s.(hardware := s.hardware[handle := Applied(requested, answer)]), Status(requested, answer))
      else (s.(hardware := s.hardware[handle := requested]), 0)
  }

  /** Handles whose backend is on, in key order. */
  ghost function ActiveHandles(hardware: map<int, Hardware>, keys: set<int>): (r: seq<int>)
    requires keys <= hardware.Keys
    ensures forall h :: h in r <==> h in keys && hardware[h].backend.active
    decreases |keys|
  {
    if keys == {} then [] else
      var k := Least(keys);
      (if hardware[k].backend.active then [k] else []) + ActiveHandles(hardware, keys - {k})
  }

  function Dropped(hw: Hardware): Hardware { hw.(clientActive := false, compositePeriods := map[]) }

  function DropAll(hardware: map<int, Hardware>): map<int, Hardware> {
    map h | h in hardware :: Dropped(hardware[h])
  }

  function Idle(composites: seq<Composite>): (r: seq<Composite>)
    ensures |r| == |composites|
    ensures forall i :: 0 <= i < |r| ==> r[i] == composites[i].(active := false)
  {
    if composites == [] then []
    else Idle(composites[..|composites| - 1]) + [composites[|composites| - 1].(active := false)]
  }

  ghost function DeactivateEverything(s: State, answers: Answers): State {
    var handles := ActiveHandles(s.hardware, s.hardware.Keys);
    State(ApplyEach(DropAll(s.hardware), handles, |handles|, answers).0, Idle(s.composites))
  }

  ghost function Next(s: State, op: Op, answers: Answers): (State, int) {
    match op
    case Activate(handle, enabled) => (
      match FindComposite(s.composites, handle)
      case Some(i) => ActivateComposite(s, i, enabled, answers)
      case None => ActivateHardware(s, handle, enabled, answers(0)))
    case Batch(handle, period, latency) =>
      if FindComposite(s.composites, handle).Some? then (s, 0)
      else BatchHardware(s, handle, period, latency, answers(0))
    case DeactivateAll => (DeactivateEverything(s, answers), 0)
  }

  // --- Invariants ----------------------------------------------------------------------

  ghost predicate Distinctly(composites: seq<Composite>) {
    forall i, j :: 0 <= i < j < |composites| ==> composites[i].handle != composites[j].handle
  }

  /** The composite with this handle is active, takes this sensor's events and asks for this period. */
  predicate Feeds(c: Composite, h: int, handle: int, period: int) {
    c.handle == handle && c.active && h in c.inputs && c.period == period
  }

  /** A composite's request is recorded at a sensor exactly while it is active and consumes it. */
  ghost predicate Recorded(s: State) {
    Distinctly(s.composites) &&
    forall h :: h in s.hardware ==>
      (forall c :: c in s.hardware[h].compositePeriods ==>
         exists i :: 0 <= i < |s.composites| && Feeds(s.composites[i], h, c, s.hardware[h].compositePeriods[c])) &&
      (forall i :: 0 <= i < |s.composites| && s.composites[i].active && h in s.composites[i].inputs ==>
         s.composites[i].handle in s.hardware[h].compositePeriods)
  }

  ghost predicate AllInSync(hardware: map<int, Hardware>) {
    forall h :: h in hardware ==> InSync(hardware[h])
  }

  ghost predicate AllFollowing(hardware: map<int, Hardware>) {
    forall h :: h in hardware ==> Following(hardware[h])
  }

  ghost predicate Succeeding(answers: Answers) {
    forall i: nat :: answers(i) == Answer(0, 0)
  }

  ghost predicate Activating(answers: Answers) {
    forall i: nat :: answers(i).activate == 0
  }

  /** Applying a list brings each listed sensor in step and leaves the others alone. */
  lemma {:induction false} ApplyEachInSync(hardware: map<int, Hardware>, handles: seq<int>, n: nat, answers: Answers)
    requires n <= |handles| && Succeeding(answers)
    requires forall h :: h in hardware && h !in handles ==> InSync(hardware[h])
    ensures
      var after := ApplyEach(hardware, handles, n, answers).0;
      forall h :: h in hardware && (h !in handles || h in handles[..n]) ==> InSync(after[h])
  {
    if n > 0 {
      ApplyEachInSync(hardware, handles, n - 1, answers);
      var before := ApplyEach(hardware, handles, n - 1, answers).0;
      var h := handles[n - 1];
      assert handles[..n] == handles[..n - 1] + [h];
      if h in before {
        AppliedInSync(before[h], answers(n - 1));
      }
    }
  }

  lemma {:induction false} ApplyEachFollowing(hardware: map<int, Hardware>, handles: seq<int>, n: nat, answers: Answers)
    requires n <= |handles| && Activating(answers)
    requires forall h :: h in hardware && h !in handles ==> Following(hardware[h])
    ensures
      var after := ApplyEach(hardware, handles, n, answers).0;
      forall h :: h in hardware && (h !in handles || h in handles[..n]) ==> Following(after[h])
  {
    if n > 0 {
      ApplyEachFollowing(hardware, handles, n - 1, answers);
      var before := ApplyEach(hardware, handles, n - 1, answers).0;
      var h := handles[n - 1];
      assert handles[..n] == handles[..n - 1] + [h];
      if h in before {
        AppliedInSync(before[h], answers(n - 1));
      }
    }
  }

  /** What the backend answers never touches a request. */
  lemma {:induction false} ApplyEachKeepsRequests(hardware: map<int, Hardware>, handles: seq<int>, n: nat, answers: Answers)
    requires n <= |handles|
    ensures
      var after := ApplyEach(hardware, handles, n, answers).0;
      forall h :: h in hardware ==> hardware[h] == after[h].(backend := hardware[h].backend)
  {
    if n > 0 {
      ApplyEachKeepsRequests(hardware, handles, n - 1, answers);
    }
  }

  // --- What every operation keeps ------------------------------------------------------

  /** A composite's request stays recorded as long as it should, whatever the backend answers. */
  lemma MarkedRecorded(s: State, i: nat, enabled: bool)
    requires Recorded(s) && i < |s.composites| && s.composites[i].active != enabled
    ensures
      var c := s.composites[i];
      Recorded(State(MarkInputs(s.hardware, c.inputs, c, enabled), s.composites[i := c.(active := enabled)]))
  {
    var c := s.composites[i];
    var after := State(MarkInputs(s.hardware, c.inputs, c, enabled), s.composites[i := c.(active := enabled)]);
    forall h | h in after.hardware
      ensures forall k :: k in after.hardware[h].compositePeriods ==>
                exists j :: 0 <= j < |after.composites| &&
                  Feeds(after.composites[j], h, k, after.hardware[h].compositePeriods[k])
    {
      forall k | k in after.hardware[h].compositePeriods
        ensures exists j :: 0 <= j < |after.composites| &&
                  Feeds(after.composites[j], h, k, after.hardware[h].compositePeriods[k])
      {
        if k == c.handle && h in c.inputs {
          assert Feeds(after.composites[i], h, k, after.hardware[h].compositePeriods[k]);
        } else {
          var j :| 0 <= j < |s.composites| && Feeds(s.composites[j], h, k, s.hardware[h].compositePeriods[k]);
          assert Feeds(after.composites[j], h, k, after.hardware[h].compositePeriods[k]);
        }
      }
    }
  }

  lemma RecordedApplied(s: State, handles: seq<int>, n: nat, answers: Answers)
    requires Recorded(s) && n <= |handles|
    ensures Recorded(s.(hardware := ApplyEach(s.hardware, handles, n, answers).0))
  {
    ApplyEachKeepsRequests(s.hardware, handles, n, answers);
  }

  lemma RecordedKept(s: State, op: Op, answers: Answers)
    requires Recorded(s)
    ensures Recorded(Next(s, op, answers).0)
  {
    match op
    case DeactivateAll =>
      var handles := ActiveHandles(s.hardware, s.hardware.Keys);
      var dropped := State(DropAll(s.hardware), Idle(s.composites));
      RecordedApplied(dropped, handles, |handles|, answers);
    case Batch(_, _, _) =>
    case Activate(handle, enabled) =>
      match FindComposite(s.composites, handle)
      case None =>
      case Some(i) =>
        var c := s.composites[i];
        if c.active != enabled {
          MarkedRecorded(s, i, enabled);
          var marked := State(MarkInputs(s.hardware, c.inputs, c, enabled), s.composites[i := c.(active := enabled)]);
          RecordedApplied(marked, c.inputs, |c.inputs|, answers);
        }
  }

  /** An inactive client's new request does not concern a sensor that composites drive. */
  lemma QuietBatch(hw: Hardware, period: int, latency: int)
    requires InSync(hw) && PositivePeriods(hw) && !hw.clientActive
    ensures InSync(hw.(clientPeriod := period, clientLatency := latency))
  {
    FastestIsLeast(hw.info, hw.compositePeriods, hw.compositePeriods.Keys, 0);
    if Wanted(hw) {
      assert hw.compositePeriods.Keys != {};
    }
  }

  lemma InSyncKept(s: State, op: Op, answers: Answers)
    requires AllInSync(s.hardware) && AllPositive(s.hardware) && Succeeding(answers)
    ensures AllInSync(Next(s, op, answers).0.hardware)
  {
    match op
    case DeactivateAll =>
      var handles := ActiveHandles(s.hardware, s.hardware.Keys);
      ApplyEachInSync(DropAll(s.hardware), handles, |handles|, answers);
      assert handles[..|handles|] == handles;
    case Batch(handle, period, latency) =>
      if handle in s.hardware {
        var hw := s.hardware[handle];
        var p := ClampSamplingPeriodNs(hw.info, period);
        AppliedInSync(hw.(clientPeriod := p, clientLatency := latency), answers(0));
        if !hw.clientActive {
          QuietBatch(hw, p, latency);
        }
      }
    case Activate(handle, enabled) =>
      match FindComposite(s.composites, handle)
      case None =>
        if handle in s.hardware {
          AppliedInSync(s.hardware[handle].(clientActive := enabled), answers(0));
        }
      case Some(i) =>
        var c := s.composites[i];
        if c.active != enabled {
          ApplyEachInSync(MarkInputs(s.hardware, c.inputs, c, enabled), c.inputs, |c.inputs|, answers);
          assert c.inputs[..|c.inputs|] == c.inputs;
        }
  }

  /** A hardware enable that reports an error leaves every sensor in step, whatever was answered. */
  lemma FailedEnableKeeps(s: State, handle: int, answers: Answers)
    requires AllInSync(s.hardware) && FindComposite(s.composites, handle).None?
    requires Next(s, Activate(handle, true), answers).1 != 0
    ensures AllInSync(Next(s, Activate(handle, true), answers).0.hardware)
  {
    if handle in s.hardware && !s.hardware[handle].clientActive {
      RollbackInSync(s.hardware[handle], answers(0));
    }
  }

  // --- What a status tells -------------------------------------------------------------

  predicate OfHardware(s: State, op: Op) {
    !op.DeactivateAll? && FindComposite(s.composites, op.handle).None?
  }

  /** Rejected before anything is asked of the backend. */
  predicate Invalid(s: State, op: Op)
    requires OfHardware(s, op)
  {
    op.handle !in s.hardware || (op.Batch? && (op.period < 0 || op.latency < 0))
  }

  predicate IsEnable(op: Op) { op.Activate? && op.enabled }

  /** Batch fails, and the Activate behind it then works. */
  ghost predicate Hides(hw: Hardware, answer: Answer) {
    NeedBatch(hw) && answer.batch != 0 && NeedActivate(hw) && answer.activate == 0
  }

  /** All calls the backend needs to get in step succeed. */
  ghost predicate Succeeds(hw: Hardware, answer: Answer) {
    (NeedBatch(hw) ==> answer.batch == 0) && (NeedActivate(hw) ==> answer.activate == 0)
  }

  /** Only the sensor named can get out of step. */
  lemma OnlyItsSensor(s: State, op: Op, answers: Answers)
    requires AllInSync(s.hardware) && OfHardware(s, op)
    ensures
      var after := Next(s, op, answers).0.hardware;
      AllInSync(after) <==> op.handle in s.hardware ==> op.handle in after && InSync(after[op.handle])
  {
  }

  lemma EnableStatus(s: State, handle: int, answers: Answers)
    requires AllInSync(s.hardware) && OfHardware(s, Activate(handle, true))
    ensures
      var (after, ret) := Next(s, Activate(handle, true), answers);
      (ret != 0 ==> AllInSync(after.hardware)) &&
      (ret == 0 && !AllInSync(after.hardware) <==>
         handle in s.hardware && !Wanted(s.hardware[handle]) &&
         NeedBatch(s.hardware[handle].(clientActive := true)) && answers(0).batch != 0 && answers(0).activate == 0)
  {
    OnlyItsSensor(s, Activate(handle, true), answers);
    if handle in s.hardware {
      AppliedInSync(s.hardware[handle].(clientActive := true), answers(0));
    }
    if Next(s, Activate(handle, true), answers).1 != 0 {
      FailedEnableKeeps(s, handle, answers);
    }
  }

  lemma DisableStatus(s: State, handle: int, answers: Answers)
    requires AllInSync(s.hardware) && OfHardware(s, Activate(handle, false)) && handle in s.hardware
    ensures
      var (after, ret) := Next(s, Activate(handle, false), answers);
      AllInSync(after.hardware) <==> ret == 0
  {
    OnlyItsSensor(s, Activate(handle, false), answers);
    AppliedInSync(s.hardware[handle].(clientActive := false), answers(0));
  }

  lemma BatchStatus(s: State, op: Op, answers: Answers)
    requires AllInSync(s.hardware) && AllPositive(s.hardware) && op.Batch? && OfHardware(s, op) && !Invalid(s, op)
    ensures
      var (after, ret) := Next(s, op, answers);
      AllInSync(after.hardware) <==> ret == 0
  {
    OnlyItsSensor(s, op, answers);
    var hw := s.hardware[op.handle];
    var p := ClampSamplingPeriodNs(hw.info, op.period);
    if hw.clientActive {
      AppliedInSync(hw.(clientPeriod := p, clientLatency := op.latency), answers(0));
    } else {
      QuietBatch(hw, p, op.latency);
    }
  }

  /**
   * From sensors in step, an operation on a hardware sensor answers 0 and leaves one out of step if and
   * only if it is the enable of a sensor nobody needed, with a Batch call that fails and an Activate
   * call that works. Batch and disable never hide anything.
   */
  lemma ZeroStatusHidesIff(s: State, op: Op, answers: Answers)
    requires AllInSync(s.hardware) && AllPositive(s.hardware) && OfHardware(s, op)
    ensures
      var (after, ret) := Next(s, op, answers);
      ret == 0 && !AllInSync(after.hardware) <==>
        IsEnable(op) && op.handle in s.hardware && !Wanted(s.hardware[op.handle]) &&
        NeedBatch(s.hardware[op.handle].(clientActive := true)) && answers(0).batch != 0 && answers(0).activate == 0
  {
    if IsEnable(op) {
      EnableStatus(s, op.handle, answers);
    } else if !Invalid(s, op) {
      if op.Batch? {
        BatchStatus(s, op, answers);
      } else {
        DisableStatus(s, op.handle, answers);
      }
    }
  }

  /** One that answers an error leaves all sensors in step if and only if it was invalid or an enable. */
  lemma ErrorKeepsIff(s: State, op: Op, answers: Answers)
    requires AllInSync(s.hardware) && AllPositive(s.hardware) && OfHardware(s, op)
    requires Next(s, op, answers).1 != 0
    ensures AllInSync(Next(s, op, answers).0.hardware) <==> Invalid(s, op) || IsEnable(op)
  {
    if IsEnable(op) {
      EnableStatus(s, op.handle, answers);
    } else if !Invalid(s, op) {
      if op.Batch? {
        BatchStatus(s, op, answers);
      } else {
        DisableStatus(s, op.handle, answers);
      }
    }
  }

  /** Sensor h has had its turn, the only one, or has not been touched yet. */
  ghost predicate TakesTurn(hardware: map<int, Hardware>, after: map<int, Hardware>, handles: seq<int>, n: nat,
                            answers: Answers, h: int)
    requires h in hardware && h in after && n <= |handles|
  {
    (forall k :: 0 <= k < n && handles[k] == h ==> after[h] == Applied(hardware[h], answers(k))) &&
    (h !in handles[..n] ==> after[h] == hardware[h])
  }

  /** Each sensor of a list without repetition is applied once; the others stay. */
  lemma {:induction false} AppliedOnce(hardware: map<int, Hardware>, handles: seq<int>, n: nat, answers: Answers, h: int)
    requires n <= |handles| && Distinct(handles) && h in hardware
    ensures TakesTurn(hardware, ApplyEach(hardware, handles, n, answers).0, handles, n, answers, h)
  {
    if n > 0 {
      AppliedOnce(hardware, handles, n - 1, answers, h);
      assert handles[..n] == handles[..n - 1] + [handles[n - 1]];
    }
  }

  ghost predicate AnswersZero(hardware: map<int, Hardware>, handle: int, answer: Answer) {
    handle in hardware && Status(hardware[handle], answer) == 0
  }

  lemma {:induction false} EachAnswersZero(hardware: map<int, Hardware>, handles: seq<int>, n: nat, answers: Answers)
    requires n <= |handles| && Distinct(handles)
    ensures ApplyEach(hardware, handles, n, answers).1 == 0 <==>
      forall k :: 0 <= k < n ==> AnswersZero(hardware, handles[k], answers(k))
  {
    if n > 0 {
      EachAnswersZero(hardware, handles, n - 1, answers);
      if handles[n - 1] in hardware {
        AppliedOnce(hardware, handles, n - 1, answers, handles[n - 1]);
      }
    }
  }

  /** What a composite switched on or off asks of its inputs. */
  function Marked(s: State, i: nat, enabled: bool): map<int, Hardware>
    requires i < |s.composites|
  {
    MarkInputs(s.hardware, s.composites[i].inputs, s.composites[i], enabled)
  }

  /** Input k exists, and the backend calls it needs do that to it. */
  ghost predicate HiddenInput(s: State, i: nat, enabled: bool, answers: Answers, k: nat)
    requires i < |s.composites| && k < |s.composites[i].inputs|
  {
    var h := s.composites[i].inputs[k];
    h in s.hardware && Hides(Marked(s, i, enabled)[h], answers(k))
  }

  ghost predicate ServedInput(s: State, i: nat, enabled: bool, answers: Answers, k: nat)
    requires i < |s.composites| && k < |s.composites[i].inputs|
  {
    var h := s.composites[i].inputs[k];
    h in s.hardware ==> Succeeds(Marked(s, i, enabled)[h], answers(k))
  }

  lemma InputInSync(s: State, i: nat, enabled: bool, answers: Answers, k: nat)
    requires i < |s.composites| && Distinct(s.composites[i].inputs) && k < |s.composites[i].inputs|
    requires s.composites[i].active != enabled && s.composites[i].inputs[k] in s.hardware
    ensures
      var h, after := s.composites[i].inputs[k], ActivateComposite(s, i, enabled, answers).0.hardware;
      h in after && (InSync(after[h]) <==> ServedInput(s, i, enabled, answers, k))
  {
    var inputs, marked := s.composites[i].inputs, Marked(s, i, enabled);
    AppliedOnce(marked, inputs, |inputs|, answers, inputs[k]);
    AppliedInSync(marked[inputs[k]], answers(k));
  }

  lemma OtherInSync(s: State, i: nat, enabled: bool, answers: Answers, h: int)
    requires i < |s.composites| && Distinct(s.composites[i].inputs) && h in s.hardware
    requires h !in s.composites[i].inputs
    ensures
      var after := ActivateComposite(s, i, enabled, answers).0.hardware;
      h in after && after[h] == s.hardware[h]
  {
    var inputs := s.composites[i].inputs;
    AppliedOnce(Marked(s, i, enabled), inputs, |inputs|, answers, h);
    assert inputs[..|inputs|] == inputs;
  }

  /** From sensors in step, switching a composite leaves them so if and only if every call its inputs need succeeds. */
  lemma CompositeInSyncIff(s: State, i: nat, enabled: bool, answers: Answers)
    requires AllInSync(s.hardware) && i < |s.composites| && Distinct(s.composites[i].inputs)
    requires s.composites[i].active != enabled
    ensures AllInSync(ActivateComposite(s, i, enabled, answers).0.hardware) <==>
      forall k :: 0 <= k < |s.composites[i].inputs| ==> ServedInput(s, i, enabled, answers, k)
  {
    var inputs, after := s.composites[i].inputs, ActivateComposite(s, i, enabled, answers).0.hardware;
    if AllInSync(after) {
      forall k | 0 <= k < |inputs| ensures ServedInput(s, i, enabled, answers, k) {
        if inputs[k] in s.hardware {
          InputInSync(s, i, enabled, answers, k);
        }
      }
    }
    if forall k :: 0 <= k < |inputs| ==> ServedInput(s, i, enabled, answers, k) {
      forall h | h in after ensures InSync(after[h]) {
        if h in inputs {
          var k :| 0 <= k < |inputs| && inputs[k] == h;
          InputInSync(s, i, enabled, answers, k);
        } else {
          OtherInSync(s, i, enabled, answers, h);
        }
      }
    }
  }

  /**
   * Switching a composite answers 0 and leaves a sensor out of step if and only if its inputs exist and
   * all answer 0, and for one of them a Batch call fails and an Activate call works.
   */
  lemma ZeroStatusOfCompositeIff(s: State, handle: int, enabled: bool, answers: Answers, i: nat)
    requires AllInSync(s.hardware) && FindComposite(s.composites, handle) == Some(i)
    requires Distinct(s.composites[i].inputs)
    ensures
      var (after, ret) := Next(s, Activate(handle, enabled), answers);
      var inputs := s.composites[i].inputs;
      ret == 0 && !AllInSync(after.hardware) <==>
        s.composites[i].active != enabled &&
        (forall k :: 0 <= k < |inputs| ==> AnswersZero(Marked(s, i, enabled), inputs[k], answers(k))) &&
        exists k :: 0 <= k < |inputs| && HiddenInput(s, i, enabled, answers, k)
  {
    var inputs := s.composites[i].inputs;
    if s.composites[i].active != enabled {
      CompositeInSyncIff(s, i, enabled, answers);
      EachAnswersZero(Marked(s, i, enabled), inputs, |inputs|, answers);
      forall k | 0 <= k < |inputs| && AnswersZero(Marked(s, i, enabled), inputs[k], answers(k))
        ensures ServedInput(s, i, enabled, answers, k) <==> !HiddenInput(s, i, enabled, answers, k)
      {
      }
    }
  }

  /** A first enable at another rate than the sensor has, for which Batch fails, answers 0. */
  lemma EnableHides()
    ensures
      var idle := Hardware(Info(0, 0), false, 5, 0, map[], Backend(false, 7, 0));
      var (after, ret) := Next(State(map[1 := idle], []), Activate(1, true), i => Answer(-5, 0));
      InSync(idle) && ret == 0 && 1 in after.hardware && after.hardware[1].backend == Backend(true, 7, 0) &&
      DesiredPeriod(after.hardware[1]) == 5 && !InSync(after.hardware[1])
  {
    var on := Hardware(Info(0, 0), true, 5, 0, map[], Backend(false, 7, 0));
    assert DesiredPeriod(on) == 5;
  }

  /** Which sensors are on does not depend on any Batch call. */
  lemma FollowingKept(s: State, op: Op, answers: Answers)
    requires AllFollowing(s.hardware) && Activating(answers)
    ensures AllFollowing(Next(s, op, answers).0.hardware)
  {
    match op
    case DeactivateAll =>
      var handles := ActiveHandles(s.hardware, s.hardware.Keys);
      ApplyEachFollowing(DropAll(s.hardware), handles, |handles|, answers);
      assert handles[..|handles|] == handles;
    case Batch(handle, period, latency) =>
      if handle in s.hardware {
        var hw := s.hardware[handle];
        AppliedInSync(hw.(clientPeriod := ClampSamplingPeriodNs(hw.info, period), clientLatency := latency), answers(0));
      }
    case Activate(handle, enabled) =>
      match FindComposite(s.composites, handle)
      case None =>
        if handle in s.hardware {
          AppliedInSync(s.hardware[handle].(clientActive := enabled), answers(0));
        }
      case Some(i) =>
        var c := s.composites[i];
        if c.active != enabled {
          ApplyEachFollowing(MarkInputs(s.hardware, c.inputs, c, enabled), c.inputs, |c.inputs|, answers);
          assert c.inputs[..|c.inputs|] == c.inputs;
        }
  }

  // --- Runs ----------------------------------------------------------------------------

  /** Periods stay positive after clamping: the ones composites ask for, and the client's. */
  ghost predicate Clamped(s: State) {
    (forall h :: h in s.hardware ==> s.hardware[h].clientPeriod > 0) &&
    (forall h, i :: h in s.hardware && 0 <= i < |s.composites| && h in s.composites[i].inputs ==>
       ClampSamplingPeriodNs(s.hardware[h].info, s.composites[i].period) > 0)
  }

  ghost predicate ClampedOp(s: State, op: Op) {
    op.Batch? && op.handle in s.hardware ==>
      ClampSamplingPeriodNs(s.hardware[op.handle].info, op.period) > 0
  }

  lemma RecordedArePositive(s: State)
    requires Recorded(s) && Clamped(s)
    ensures AllPositive(s.hardware)
  {
  }

  ghost predicate SameDevices(s: State, t: State) {
    s.hardware.Keys == t.hardware.Keys && |s.composites| == |t.composites| &&
    (forall h :: h in s.hardware ==> t.hardware[h].info == s.hardware[h].info) &&
    (forall i :: 0 <= i < |s.composites| ==>
       t.composites[i] == s.composites[i].(active := t.composites[i].active))
  }

  lemma ClampedKept(s: State, op: Op, answers: Answers)
    requires Clamped(s) && ClampedOp(s, op)
    ensures SameDevices(s, Next(s, op, answers).0) && Clamped(Next(s, op, answers).0)
  {
    match op
    case DeactivateAll =>
      var handles := ActiveHandles(s.hardware, s.hardware.Keys);
      ApplyEachKeepsRequests(DropAll(s.hardware), handles, |handles|, answers);
    case Batch(_, _, _) =>
    case Activate(handle, enabled) =>
      match FindComposite(s.composites, handle)
      case None =>
      case Some(i) =>
        var c := s.composites[i];
        ApplyEachKeepsRequests(MarkInputs(s.hardware, c.inputs, c, enabled), c.inputs, |c.inputs|, answers);
  }

  datatype Step = Step(op: Op, answers: Answers)

  /** All backend calls of the step succeed, or it is a hardware enable that reports an error. */
  ghost predicate Tame(s: State, step: Step) {
    ClampedOp(s, step.op) &&
    (Succeeding(step.answers) ||
     (step.op.Activate? && step.op.enabled && FindComposite(s.composites, step.op.handle).None? &&
      Next(s, step.op, step.answers).1 != 0))
  }

  ghost function After(s: State, steps: seq<Step>): State {
    if steps == [] then s else
      var before := After(s, steps[..|steps| - 1]);
      var step := steps[|steps| - 1];
      Next(before, step.op, step.answers).0
  }

  ghost predicate AllTame(s: State, steps: seq<Step>) {
    forall i :: 0 <= i < |steps| ==> Tame(After(s, steps[..i]), steps[i])
  }

  ghost predicate Consistent(s: State) {
    AllInSync(s.hardware) && Recorded(s) && Clamped(s)
  }

  /** As the sensors are registered: nothing on, nothing asked for, handles distinct and periods in range. */
  ghost predicate Registered(s: State) {
    Distinctly(s.composites) && Clamped(s) &&
    (forall i :: 0 <= i < |s.composites| ==> !s.composites[i].active) &&
    forall h :: h in s.hardware ==>
      !s.hardware[h].clientActive && s.hardware[h].compositePeriods == map[] && !s.hardware[h].backend.active
  }

  lemma RegisteredConsistent(s: State)
    requires Registered(s)
    ensures Consistent(s)
  {
  }

  lemma StepKeepsConsistent(s: State, step: Step)
    requires Consistent(s) && Tame(s, step)
    ensures Consistent(Next(s, step.op, step.answers).0)
  {
    RecordedArePositive(s);
    RecordedKept(s, step.op, step.answers);
    ClampedKept(s, step.op, step.answers);
    if Succeeding(step.answers) {
      InSyncKept(s, step.op, step.answers);
    } else {
      FailedEnableKeeps(s, step.op.handle, step.answers);
    }
  }

  lemma {:induction false} RunKeepsConsistent(s: State, steps: seq<Step>)
    requires Consistent(s) && AllTame(s, steps)
    ensures Consistent(After(s, steps))
  {
    if steps != [] {
      var n := |steps| - 1;
      TameBefore(s, steps);
      RunKeepsConsistent(s, steps[..n]);
      LastKeepsConsistent(After(s, steps[..n]), steps[n], After(s, steps));
    }
  }

  lemma TameBefore(s: State, steps: seq<Step>)
    requires AllTame(s, steps) && steps != []
    ensures AllTame(s, steps[..|steps| - 1]) && Tame(After(s, steps[..|steps| - 1]), steps[|steps| - 1])
  {
    var n := |steps| - 1;
    forall i | 0 <= i < n ensures Tame(After(s, steps[..n][..i]), steps[..n][i]) {
      assert steps[..n][..i] == steps[..i];
      assert Tame(After(s, steps[..i]), steps[i]);
    }
  }

  lemma LastKeepsConsistent(s: State, step: Step, after: State)
    requires Consistent(s) && Tame(s, step) && after == Next(s, step.op, step.answers).0
    ensures Consistent(after)
  {
    StepKeepsConsistent(s, step);
  }

  /** Somebody needs the sensor: the client, or an active composite that consumes it. */
  ghost predicate Needed(s: State, h: int)
    requires h in s.hardware
  {
    s.hardware[h].clientActive ||
    exists i :: 0 <= i < |s.composites| && s.composites[i].active && h in s.composites[i].inputs
  }

  /** A period somebody who needs the sensor asked for. */
  ghost predicate Asked(s: State, h: int, p: int)
    requires h in s.hardware
  {
    (s.hardware[h].clientActive && p == s.hardware[h].clientPeriod) ||
    exists i :: 0 <= i < |s.composites| && s.composites[i].active && h in s.composites[i].inputs &&
      p == ClampSamplingPeriodNs(s.hardware[h].info, s.composites[i].period)
  }

  lemma RequestedIsAsked(s: State, h: int, p: int)
    requires Recorded(s) && h in s.hardware
    ensures Requested(s.hardware[h], p) <==> Asked(s, h, p)
  {
    var hw := s.hardware[h];
    if Requested(hw, p) && !(hw.clientActive && p == hw.clientPeriod) {
      var c :| c in hw.compositePeriods && p == ClampSamplingPeriodNs(hw.info, hw.compositePeriods[c]);
      var i :| 0 <= i < |s.composites| && Feeds(s.composites[i], h, c, hw.compositePeriods[c]);
    }
    if Asked(s, h, p) && !(hw.clientActive && p == hw.clientPeriod) {
      var i :| 0 <= i < |s.composites| && s.composites[i].active && h in s.composites[i].inputs &&
        p == ClampSamplingPeriodNs(hw.info, s.composites[i].period);
      RecordedPeriod(s, h, i);
    }
  }

  lemma RecordedPeriod(s: State, h: int, i: nat)
    requires Recorded(s) && h in s.hardware && i < |s.composites|
    requires s.composites[i].active && h in s.composites[i].inputs
    ensures
      var c := s.composites[i];
      c.handle in s.hardware[h].compositePeriods && s.hardware[h].compositePeriods[c.handle] == c.period
  {
    var c := s.composites[i].handle;
    var j :| 0 <= j < |s.composites| && Feeds(s.composites[j], h, c, s.hardware[h].compositePeriods[c]);
    assert s.composites[j].handle == s.composites[i].handle;
  }

  /**
   * Whatever the framework asked for: a sensor is on in the backend exactly when somebody needs
   * it, and runs at the smallest period anybody who needs it asked for.
   */
  lemma SensorRunsAsAsked(s: State, steps: seq<Step>, h: int)
    requires Consistent(s) && AllTame(s, steps) && h in After(s, steps).hardware
    ensures
      var t := After(s, steps);
      var b := t.hardware[h].backend;
      (b.active <==> Needed(t, h)) &&
      (b.active ==> Asked(t, h, b.period) && forall p :: Asked(t, h, p) ==> b.period <= p)
  {
    RunKeepsConsistent(s, steps);
    var t := After(s, steps);
    var hw := t.hardware[h];
    RecordedArePositive(t);
    forall p ensures Requested(hw, p) <==> Asked(t, h, p) {
      RequestedIsAsked(t, h, p);
    }
    if Wanted(hw) {
      DesiredIsMinimum(hw);
    }
    if exists i :: 0 <= i < |t.composites| && t.composites[i].active && h in t.composites[i].inputs {
      var i :| 0 <= i < |t.composites| && t.composites[i].active && h in t.composites[i].inputs;
      RecordedPeriod(t, h, i);
    }
  }

  /** The same from registration on. */
  lemma SensorRunsFromStart(s: State, steps: seq<Step>, h: int)
    requires Registered(s) && AllTame(s, steps) && h in After(s, steps).hardware
    ensures Consistent(After(s, steps))
    ensures
      var t := After(s, steps);
      var b := t.hardware[h].backend;
      (b.active <==> Needed(t, h)) &&
      (b.active ==> Asked(t, h, b.period) && forall p :: Asked(t, h, p) ==> b.period <= p)
  {
    RegisteredConsistent(s);
    RunKeepsConsistent(s, steps);
    SensorRunsAsAsked(s, steps, h);
  }

  /**
   * A client's disable that fails is never retried: the sensor nobody needs stays on, and
   * disabling it again answers 0 without asking the backend.
   */
  lemma FailedDisableSticks(s: State, handle: int, answers: Answers, later: Answers)
    requires handle in s.hardware && FindComposite(s.composites, handle).None?
    requires InSync(s.hardware[handle]) && s.hardware[handle].clientActive
    requires s.hardware[handle].compositePeriods == map[] && answers(0).activate != 0
    ensures
      var (t, ret) := Next(s, Activate(handle, false), answers);
      ret == answers(0).activate && t.hardware[handle].backend.active && !Wanted(t.hardware[handle]) &&
      Next(t, Activate(handle, false), later) == (t, 0)
  {
  }
}
