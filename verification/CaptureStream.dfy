/**
 * Getting one usable frame from the device, with a budget of bad and one of stale frames
 * (interfaces/camera/mainline/session/CaptureStream.cpp).
 */
module CaptureStream {
  import opened Common

  /** Bad frames skipped after the first attempt, and frames from before the flash that are put back. */
  const MAX_SKIPPED := 4
  const MAX_STALE := 30

  /** What queueing a buffer back answers. */
  datatype Queued = Accepted | Refused | NoDevice

  /** What the device delivers next: an error, or a buffer, whether it converts, and how it is queued back. */
  datatype Delivery =
    | Failed(code: int)
    | Delivered(buffer: nat, timestamp: int, converts: bool, queued: Queued)

  datatype Result = Usable(frame: nat) | DeviceError(code: int) | Gone | NoUsableFrame

  type Device = nat -> Delivery

  /** A frame that starts too early, while there is patience for it. */
  predicate Stale(d: Delivery, notBefore: int, stale: nat)
    requires d.Delivered?
  {
    0 < d.timestamp < notBefore && stale < MAX_STALE
  }

  /** Frame by frame: which one is used, after how many; n frames were taken, of them some bad and some stale. */
  function Capture(device: Device, notBefore: int, n: nat, bad: nat, stale: nat): (Result, nat)
    decreases MAX_SKIPPED + 1 - bad, MAX_STALE - stale
  {
    if bad > MAX_SKIPPED then (NoUsableFrame, n) else
      var d := device(n);
      if d.Failed? then (DeviceError(d.code), n)
      else if d.queued == NoDevice then (Gone, n + 1)
      else if Stale(d, notBefore, stale) then Capture(device, notBefore, n + 1, bad, stale + 1)
      else if d.converts then (Usable(n), n + 1)
      else Capture(device, notBefore, n + 1, bad + 1, stale)
  }

  /** How many of the first n frames come too early. */
  function Early(device: Device, notBefore: int, n: nat): nat {
    if n == 0 then 0 else
      Early(device, notBefore, n - 1) +
      if device(n - 1).Delivered? && 0 < device(n - 1).timestamp < notBefore then 1 else 0
  }

  /** The frames before n that were taken did not end the search: each is stale or bad, within the budgets. */
  ghost predicate Passed(device: Device, notBefore: int, n: nat, bad: nat, stale: nat) {
    bad <= MAX_SKIPPED + 1 && stale == Min(MAX_STALE, Early(device, notBefore, n)) && n == bad + stale &&
    forall k :: 0 <= k < n ==> device(k).Delivered? && device(k).queued != NoDevice
  }

  /**
   * What is returned: a usable frame converts and starts late enough, unless the patience for early
   * ones was used up before it; and there is none only after five bad frames.
   */
  lemma {:induction false} CaptureOutcome(device: Device, notBefore: int, n: nat, bad: nat, stale: nat)
    requires Passed(device, notBefore, n, bad, stale)
    ensures
      var (result, taken) := Capture(device, notBefore, n, bad, stale);
      n <= taken <= MAX_SKIPPED + 1 + MAX_STALE &&
      (forall k :: 0 <= k < taken ==> device(k).Delivered?) &&
      match result
      case Usable(f) =>
        f == taken - 1 && device(f).converts && device(f).queued != NoDevice &&
        (device(f).timestamp <= 0 || device(f).timestamp >= notBefore || Early(device, notBefore, f) >= MAX_STALE)
      case DeviceError(code) => device(taken) == Failed(code)
      case Gone => taken > 0 && device(taken - 1).queued == NoDevice
      case NoUsableFrame => taken - Min(MAX_STALE, Early(device, notBefore, taken)) == MAX_SKIPPED + 1
    decreases MAX_SKIPPED + 1 - bad, MAX_STALE - stale
  {
    if bad <= MAX_SKIPPED && device(n).Delivered? && device(n).queued != NoDevice {
      if Stale(device(n), notBefore, stale) {
        CaptureOutcome(device, notBefore, n + 1, bad, stale + 1);
      } else if !device(n).converts {
        CaptureOutcome(device, notBefore, n + 1, bad + 1, stale);
      }
    }
  }

  /** From the first frame on. */
  lemma CaptureEnds(device: Device, notBefore: int)
    ensures
      var (result, taken) := Capture(device, notBefore, 0, 0, 0);
      taken <= MAX_SKIPPED + 1 + MAX_STALE &&
      (result.Usable? ==>
         result.frame == taken - 1 && device(result.frame).Delivered? && device(result.frame).converts &&
         (device(result.frame).timestamp <= 0 || device(result.frame).timestamp >= notBefore ||
          Early(device, notBefore, result.frame) >= MAX_STALE))
  {
    CaptureOutcome(device, notBefore, 0, 0, 0);
    var (result, taken) := Capture(device, notBefore, 0, 0, 0);
    if result.Usable? {
      assert device(taken - 1).Delivered?;
    }
  }

  /** The buffers of the first n frames, in order. */
  function Buffers(device: Device, n: nat): seq<nat>
    requires forall k :: 0 <= k < n ==> device(k).Delivered?
  {
    if n == 0 then [] else Buffers(device, n - 1) + [device(n - 1).buffer]
  }

  /** One buffer for each frame. */
  lemma {:induction false} BuffersInOrder(device: Device, n: nat)
    requires forall k :: 0 <= k < n ==> device(k).Delivered?
    ensures |Buffers(device, n)| == n && forall k :: 0 <= k < n ==> Buffers(device, n)[k] == device(k).buffer
  {
    if n > 0 {
      BuffersInOrder(device, n - 1);
    }
  }

  /** The device side: frames are taken in order, and every one is queued back, or tried to be. */
  class VideoDevice {
    ghost const deliveries: Device
    var taken: nat
    ghost var requeued: seq<nat>

    constructor (ghost deliveries: Device)
      ensures this.deliveries == deliveries && taken == 0 && requeued == []
    {
      this.deliveries := deliveries;
      taken, requeued := 0, [];
    }

    method DequeueFrame(delivery: Delivery)
      requires delivery == deliveries(taken)
      modifies this
      ensures taken == old(taken) + (if delivery.Failed? then 0 else 1) && requeued == old(requeued)
    {
      if delivery.Delivered? {
        taken := taken + 1;
      }
    }

    method QueueFrame(buffer: nat)
      modifies this
      ensures requeued == old(requeued) + [buffer] && taken == old(taken)
    {
      requeued := requeued + [buffer];
    }
  }

  /** The loop; on every way out each frame taken has been queued back once, in order. */
  method CaptureFrame(device: VideoDevice, deliveries: Device, notBefore: int) returns (result: Result)
    requires device.deliveries == deliveries && device.taken == 0 && device.requeued == []
    modifies device
    ensures (result, device.taken) == Capture(deliveries, notBefore, 0, 0, 0)
    ensures forall k :: 0 <= k < device.taken ==> deliveries(k).Delivered?
    ensures device.requeued == Buffers(deliveries, device.taken)
  {
    var attempt, stale := 0, 0;
    while attempt <= MAX_SKIPPED
      invariant 0 <= attempt <= MAX_SKIPPED + 1 && 0 <= stale <= MAX_STALE
      invariant forall k :: 0 <= k < device.taken ==> deliveries(k).Delivered?
      invariant device.requeued == Buffers(deliveries, device.taken)
      invariant Capture(deliveries, notBefore, device.taken, attempt, stale) == Capture(deliveries, notBefore, 0, 0, 0)
      decreases MAX_SKIPPED + 1 - attempt, MAX_STALE - stale
    {
      var d := deliveries(device.taken);
      device.DequeueFrame(d);
      if d.Failed? {
        return DeviceError(d.code);
      }
      var early := 0 < d.timestamp < notBefore && stale < MAX_STALE;
      device.QueueFrame(d.buffer);
      if d.queued == NoDevice {
        return Gone;
      }
      if early {
        stale := stale + 1;
        continue;
      }
      if d.converts {
        return Usable(device.taken - 1);
      }
      attempt := attempt + 1;
    }
    result := NoUsableFrame;
  }
}
