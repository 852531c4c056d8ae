/**
 * The control methods themselves (interfaces/sensors/mainline/SensorManager.cpp): each one, called
 * with control_mutex_ held, does what Sensors.Next says.
 */
module SensorManager {
  import opened Common
  import opened Sensors

  class SensorManager {
    var hardware: map<int, Hardware>
    var composites: seq<Composite>

    function View(): State
      reads this
    {
      State(hardware, composites)
    }

    /** The period loop of ApplyHardwareState, in key order. */
    method ComputePeriod(hw: Hardware) returns (period: int)
      ensures period == DesiredPeriod(hw)
    {
      period := if hw.clientActive then hw.clientPeriod else 0;
      ghost var start := period;
      var keys := hw.compositePeriods.Keys;
      while keys != {}
        invariant keys <= hw.compositePeriods.Keys
        invariant Fastest(hw.info, hw.compositePeriods, keys, period) ==
          Fastest(hw.info, hw.compositePeriods, hw.compositePeriods.Keys, start)
        decreases |keys|
      {
        ghost var least := Least(keys);
        assert IsLeast(keys, least);
        var k :| k in keys && forall j :: j in keys ==> k <= j;
        assert k == least;
        var p := ClampSamplingPeriodNs(hw.info, hw.compositePeriods[k]);
        period := if period == 0 then p else Min(period, p);
        keys := keys - {k};
      }
      if period == 0 {
        period := hw.clientPeriod;
      }
    }

    method ApplyHardwareState(handle: int, answer: Answer) returns (ret: int)
      modifies this`hardware
      ensures (hardware, ret) == ApplyHardware(old(hardware), handle, answer)
    {
      if handle !in hardware {
        return -EINVAL;
      }
      var hw := hardware[handle];
      var desiredActive := hw.clientActive || hw.compositePeriods != map[];
      var desiredPeriod := ComputePeriod(hw);
      var desiredLatency := if hw.clientActive then hw.clientLatency else 0;
      var needBatch := desiredActive &&
        (desiredPeriod != hw.backend.period || desiredLatency != hw.backend.latency);
      var needActivate := desiredActive != hw.backend.active;

      ret := 0;
      if needBatch {
        ret := answer.batch;
        if ret == 0 {
          hw := hw.(backend := hw.backend.(period := desiredPeriod, latency := desiredLatency));
          hardware := hardware[handle := hw];
        }
      }
      if needActivate {
        ret := answer.activate;
        if ret == 0 {
          hw := hw.(backend := hw.backend.(active := desiredActive));
          hardware := hardware[handle := hw];
        }
      }
      assert hardware == old(hardware)[handle := hw];
    }

    /** The loop over the inputs of a composite that is being switched. */
    method MarkInputs(c: Composite, enabled: bool)
      modifies this`hardware
      ensures hardware == Sensors.MarkInputs(old(hardware), c.inputs, c, enabled)
    {
      var i := 0;
      while i < |c.inputs|
        invariant 0 <= i <= |c.inputs|
        invariant hardware == Sensors.MarkInputs(old(hardware), c.inputs[..i], c, enabled)
      {
        var input := c.inputs[i];
        if input in hardware {
          var hw := hardware[input];
          if enabled {
            hardware := hardware[input := hw.(compositePeriods := hw.compositePeriods[c.handle := c.period])];
          } else {
            hardware := hardware[input := hw.(compositePeriods := hw.compositePeriods - {c.handle})];
          }
        }
        MarkedOnceMore(old(hardware), c.inputs, i, c, enabled);
        i := i + 1;
      }
      assert c.inputs[..i] == c.inputs;
    }

    /** The loop that applies a list of sensors; the last error is returned. */
    method ApplyAll(handles: seq<int>, answers: Answers) returns (ret: int)
      modifies this`hardware
      ensures (hardware, ret) == ApplyEach(old(hardware), handles, |handles|, answers)
    {
      ret := 0;
      var i := 0;
      while i < |handles|
        invariant 0 <= i <= |handles|
        invariant (hardware, ret) == ApplyEach(old(hardware), handles, i, answers)
      {
        var r := ApplyHardwareState(handles[i], answers(i));
        if r != 0 {
          ret := r;
        }
        i := i + 1;
      }
    }

    method ActivateComposite(i: nat, enabled: bool, answers: Answers) returns (ret: int)
      requires i < |composites|
      modifies this
      ensures (View(), ret) == Sensors.ActivateComposite(old(View()), i, enabled, answers)
    {
      var c := composites[i];
      if c.active == enabled {
        return 0;
      }
      composites := composites[i := c.(active := enabled)];
      MarkInputs(c, enabled);
      ret := ApplyAll(c.inputs, answers);
    }

    method Activate(handle: int, enabled: bool, answers: Answers) returns (ret: int)
      modifies this
      ensures (View(), ret) == Next(old(View()), Op.Activate(handle, enabled), answers)
    {
      match FindComposite(composites, handle) {
        case Some(i) =>
          ret := ActivateComposite(i, enabled, answers);
          return;
        case None =>
      }
      if handle !in hardware {
        return -EINVAL;
      }
      if hardware[handle].clientActive == enabled {
        return 0;
      }
      hardware := hardware[handle := hardware[handle].(clientActive := enabled)];
      ret := ApplyHardwareState(handle, answers(0));
      if ret != 0 && enabled {
        hardware := hardware[handle := hardware[handle].(clientActive := false)];
      }
      assert hardware == old(hardware)[handle := hardware[handle]];
    }

    method Batch(handle: int, period: int, latency: int, answers: Answers) returns (ret: int)
      modifies this
      ensures (View(), ret) == Next(old(View()), Op.Batch(handle, period, latency), answers)
    {
      if FindComposite(composites, handle).Some? {
        return 0;
      }
      if handle !in hardware {
        return -EINVAL;
      }
      if period < 0 || latency < 0 {
        return -EINVAL;
      }
      var hw := hardware[handle];
      hw := hw.(clientPeriod := ClampSamplingPeriodNs(hw.info, period), clientLatency := latency);
      hardware := hardware[handle := hw];
      if hw.clientActive {
        ret := ApplyHardwareState(handle, answers(0));
      } else {
        ret := 0;
      }
      assert hardware == old(hardware)[handle := hardware[handle]];
    }

    /** The loop that drops every request and notes which sensors are on, in key order. */
    method DropRequests() returns (handles: seq<int>)
      modifies this`hardware
      ensures hardware == DropAll(old(hardware))
      ensures handles == ActiveHandles(old(hardware), old(hardware).Keys)
    {
      handles := [];
      var keys := hardware.Keys;
      assert [] + ActiveHandles(hardware, keys) == ActiveHandles(hardware, keys);
      while keys != {}
        invariant keys <= old(hardware).Keys == hardware.Keys
        invariant forall h :: h in hardware ==>
          hardware[h] == if h in keys then old(hardware)[h] else Dropped(old(hardware)[h])
        invariant handles + ActiveHandles(old(hardware), keys) ==
          ActiveHandles(old(hardware), old(hardware).Keys)
        decreases |keys|
      {
        assert IsLeast(keys, Least(keys));
        var k :| k in keys && forall j :: j in keys ==> k <= j;
        var hw := hardware[k];
        hardware := hardware[k := hw.(clientActive := false, compositePeriods := map[])];
        NextActive(handles, old(hardware), keys, k);
        if hw.backend.active {
          handles := handles + [k];
        }
        keys := keys - {k};
      }
    }

    method DeactivateAll(answers: Answers)
      modifies this
      ensures View() == Next(old(View()), Op.DeactivateAll, answers).0
    {
      var i := 0;
      while i < |composites|
        invariant 0 <= i <= |composites| == |old(composites)|
        invariant hardware == old(hardware)
        invariant forall j :: 0 <= j < |composites| ==>
          composites[j] == if j < i then old(composites)[j].(active := false) else old(composites)[j]
      {
        if composites[i].active {
          composites := composites[i := composites[i].(active := false)];
        }
        i := i + 1;
      }
      assert composites == Idle(old(composites));
      var handles := DropRequests();
      var _ := ApplyAll(handles, answers);
    }
  }

  /** One more key of the ordered walk over the sensors that are on. */
  lemma NextActive(handles: seq<int>, hardware: map<int, Hardware>, keys: set<int>, k: int)
    requires keys <= hardware.Keys && IsLeast(keys, k)
    ensures handles + ActiveHandles(hardware, keys) ==
      (if hardware[k].backend.active then handles + [k] else handles) + ActiveHandles(hardware, keys - {k})
  {
    assert k == Least(keys);
  }

  /** Marking one more input, again or for the first time, is marking the longer list. */
  lemma MarkedOnceMore(hardware: map<int, Hardware>, inputs: seq<int>, i: nat, c: Composite, enabled: bool)
    requires i < |inputs|
    ensures
      var marked := Sensors.MarkInputs(hardware, inputs[..i], c, enabled);
      Sensors.MarkInputs(hardware, inputs[..i + 1], c, enabled) ==
        if inputs[i] in marked then marked[inputs[i] := Mark(marked[inputs[i]], c, enabled)] else marked
  {
    assert inputs[..i + 1] == inputs[..i] + [inputs[i]];
    var marked := Sensors.MarkInputs(hardware, inputs[..i], c, enabled);
    if inputs[i] in hardware {
      MarkTwice(hardware[inputs[i]], c, enabled);
    }
  }

  lemma MarkTwice(hw: Hardware, c: Composite, enabled: bool)
    ensures Mark(Mark(hw, c, enabled), c, enabled) == Mark(hw, c, enabled)
  {
    assert Mark(Mark(hw, c, enabled), c, enabled).compositePeriods == Mark(hw, c, enabled).compositePeriods;
  }
}
