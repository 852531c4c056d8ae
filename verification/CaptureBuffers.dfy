/**
 * The buffers of a request between its preparation and its answer: which steps of the session free
 * them (interfaces/camera/mainline/session/CameraDeviceSession.cpp).
 */
module CaptureBuffers {
  import opened CaptureSession
  import opened Common

  /** The step frees the buffer cached under the key. */
  predicate Frees(s: State, step: Step, key: CacheKey) {
    match step
    case Check(_, drops) => key in drops && !s.gate.closed && !s.gate.stopping
    case CloseEnd(_) => true
    case Configure(wanted) =>
      wanted.Some? && key.0 !in wanted.value && !s.gate.closed && !s.gate.stopping && s.queue == [] && !s.gate.busy
    case _ => false
  }

  ghost predicate NeverFreed(s: State, steps: seq<Step>, key: CacheKey)
    requires Runs(s, steps)
    decreases |steps|
  {
    steps == [] || (!Frees(s, steps[0], key) && NeverFreed(Next(s, steps[0]), steps[1..], key))
  }

  ghost predicate Cached(l: Ledger, key: CacheKey, handle: nat) { key in l.cache && l.cache[key] == handle }

  /** The handle was given back; it was imported before, so that is for good. */
  ghost predicate Gone(l: Ledger, handle: nat) { handle < l.imported && handle in l.freed }

  lemma FreeOne(l: Ledger, keys: set<CacheKey>, key: CacheKey, handle: nat)
    requires Balanced(l) && keys <= l.cache.Keys && Cached(l, key, handle)
    ensures if key in keys then Gone(Free(l, keys), handle) else Cached(Free(l, keys), key, handle)
  {
    if key in keys {
      assert handle in HandlesOf(l.cache, keys);
    }
  }

  lemma DropOneFrees(l: Ledger, drop: CacheKey, key: CacheKey, handle: nat)
    requires Balanced(l)
    ensures Gone(l, handle) ==> Gone(DropOne(l, drop), handle)
    ensures Cached(l, key, handle) ==>
      if drop == key then Gone(DropOne(l, drop), handle) else Cached(DropOne(l, drop), key, handle)
  {
    if drop in l.cache && Cached(l, key, handle) {
      FreeOne(l, {drop}, key, handle);
    }
  }

  lemma OneMore(drops: seq<CacheKey>, n: nat, key: CacheKey)
    requires 0 < n <= |drops|
    ensures key in drops[..n] <==> key in drops[..n - 1] || key == drops[n - 1]
  {
    assert drops[..n] == drops[..n - 1] + [drops[n - 1]];
  }

  lemma {:induction false} DropFrees(l: Ledger, drops: seq<CacheKey>, n: nat, key: CacheKey, handle: nat)
    requires n <= |drops| && Balanced(l)
    ensures Gone(l, handle) ==> Gone(Drop(l, drops, n), handle)
    ensures Cached(l, key, handle) ==>
      if key in drops[..n] then Gone(Drop(l, drops, n), handle) else Cached(Drop(l, drops, n), key, handle)
  {
    if n > 0 {
      var d := Drop(l, drops, n - 1);
      DropFrees(l, drops, n - 1, key, handle);
      DropBalanced(l, drops, n - 1);
      OneMore(drops, n, key);
      DropOneFrees(d, drops[n - 1], key, handle);
    }
  }

  lemma {:induction false} GatherKeeps(streams: set<int>, l: Ledger, args: seq<OutputArg>, n: nat, key: CacheKey, handle: nat)
    requires n <= |args|
    ensures Cached(l, key, handle) ==> Cached(Gather(streams, l, args, n).ledger, key, handle)
    ensures Gone(l, handle) ==> Gone(Gather(streams, l, args, n).ledger, handle)
  {
    if n > 0 {
      GatherKeeps(streams, l, args, n - 1, key, handle);
    }
  }

  lemma StepFrees(s: State, step: Step, key: CacheKey, handle: nat)
    requires Inv(s) && Enabled(s, step) && Cached(s.store.ledger, key, handle)
    ensures
      var l := Next(s, step).store.ledger;
      if Frees(s, step, key) then Gone(l, handle) else Cached(l, key, handle)
  {
    match step
    case Check(_, drops) =>
      DropFrees(s.store.ledger, drops, |drops|, key, handle);
      assert drops[..|drops|] == drops;
    case Prepare(_, request) =>
      GatherKeeps(s.store.streams, s.store.ledger, request.outputs, |request.outputs|, key, handle);
    case CloseEnd(_) =>
      FreeOne(s.store.ledger, s.store.ledger.cache.Keys, key, handle);
    case Configure(wanted) =>
      if wanted.Some? {
        var stale := set k | k in s.store.ledger.cache && k.0 !in wanted.value;
        FreeOne(s.store.ledger, stale, key, handle);
      }
    case _ =>
  }

  lemma StepStaysGone(s: State, step: Step, handle: nat)
    requires Inv(s) && Enabled(s, step) && Gone(s.store.ledger, handle)
    ensures Gone(Next(s, step).store.ledger, handle)
  {
    match step
    case Check(_, drops) => DropFrees(s.store.ledger, drops, |drops|, (0, 0), handle);
    case Prepare(_, request) =>
      GatherKeeps(s.store.streams, s.store.ledger, request.outputs, |request.outputs|, (0, 0), handle);
    case _ =>
  }

  lemma {:induction false} RunStaysGone(s: State, steps: seq<Step>, handle: nat)
    requires Inv(s) && Runs(s, steps) && Gone(s.store.ledger, handle)
    ensures Gone(After(s, steps).store.ledger, handle)
    decreases |steps|
  {
    if steps != [] {
      StepKeepsInv(s, steps[0]);
      StepStaysGone(s, steps[0], handle);
      RunStaysGone(Next(s, steps[0]), steps[1..], handle);
    }
  }

  /** A cached buffer is given back in a run exactly when some step frees it; else it is where it was. */
  lemma {:induction false} GoneIffFreed(s: State, steps: seq<Step>, key: CacheKey, handle: nat)
    requires Inv(s) && Runs(s, steps) && Cached(s.store.ledger, key, handle)
    ensures
      var l := After(s, steps).store.ledger;
      if NeverFreed(s, steps, key) then Cached(l, key, handle) && !Gone(l, handle) else Gone(l, handle)
    decreases |steps|
  {
    if steps != [] {
      StepKeepsInv(s, steps[0]);
      StepFrees(s, steps[0], key, handle);
      if Frees(s, steps[0], key) {
        RunStaysGone(Next(s, steps[0]), steps[1..], handle);
      } else {
        GoneIffFreed(Next(s, steps[0]), steps[1..], key, handle);
      }
    }
  }

  // --- Requests ------------------------------------------------------------------------

  function KeyOf(o: Output): CacheKey { (o.stream, o.buffer) }

  ghost predicate AllCached(l: Ledger, outputs: seq<Output>) {
    forall o :: o in outputs ==> Cached(l, KeyOf(o), o.handle)
  }

  lemma {:induction false} GatherCaches(streams: set<int>, l: Ledger, args: seq<OutputArg>, n: nat)
    requires n <= |args|
    ensures AllCached(Gather(streams, l, args, n).ledger, Gather(streams, l, args, n).outputs)
  {
    if n > 0 {
      GatherCaches(streams, l, args, n - 1);
    }
  }

  /** Every buffer of the request is still imported. */
  ghost predicate Usable(l: Ledger, p: Pending) { forall o :: o in p.outputs ==> !Gone(l, o.handle) }

  /**
   * From its preparation to any later moment: all buffers of a request are still imported if and only
   * if no step freed one of them.
   */
  lemma UsableIffNeverFreed(s: State, thread: nat, request: Request, steps: seq<Step>)
    requires Inv(s) && Enabled(s, Prepare(thread, request)) && Runs(Next(s, Prepare(thread, request)), steps)
    requires PrepareRequest(s.store, request).1.Some?
    ensures
      var ready, p := Next(s, Prepare(thread, request)), PrepareRequest(s.store, request).1.value;
      Usable(After(ready, steps).store.ledger, p) <==>
        forall o :: o in p.outputs ==> NeverFreed(ready, steps, KeyOf(o))
  {
    var ready, p := Next(s, Prepare(thread, request)), PrepareRequest(s.store, request).1.value;
    StepKeepsInv(s, Prepare(thread, request));
    GatherCaches(s.store.streams, s.store.ledger, request.outputs, |request.outputs|);
    forall o | o in p.outputs
      ensures !Gone(After(ready, steps).store.ledger, o.handle) <==> NeverFreed(ready, steps, KeyOf(o))
    {
      GoneIffFreed(ready, steps, KeyOf(o), o.handle);
    }
  }

  /** While a request the worker will still answer is queued or in flight, only a Check frees buffers. */
  lemma OnlyCheckFrees(s: State, step: Step, key: CacheKey)
    requires Inv(s) && Enabled(s, step) && InFlight(s.worker) + s.queue != [] && !s.worker.Exited?
    ensures Frees(s, step, key) <==> step.Check? && key in step.drops && !s.gate.stopping
  {
  }

  /** Nothing but the caller keeps a Check from naming a buffer that is in flight. */
  lemma FreedInFlight() returns (steps: seq<Step>)
    ensures Runs(INITIAL, steps)
    ensures
      var t := After(INITIAL, steps);
      t.worker.Holding? && !t.worker.discard && !Usable(t.store.ledger, t.worker.request)
  {
    var request := Request(7, false, Given(0), [OutputArg(3, 1, true, true)]);
    steps := [Configure(Some({3})), Check(0, []), Prepare(0, request), Push(0), Check(1, [(3, 1)]), Take];
    var s1 := Next(INITIAL, steps[0]);
    var s2 := Next(s1, steps[1]);
    assert s2 == s1.(callers := map[0 := Checked]);
    assert Gather(s2.store.streams, s2.store.ledger, request.outputs, 1).outputs == [Output(3, 1, 0)];
    var s3 := Next(s2, steps[2]);
    var s4 := Next(s3, steps[3]);
    assert Cached(s4.store.ledger, (3, 1), 0);
    var s5 := Next(s4, steps[4]);
    assert Gone(s5.store.ledger, 0) by {
      assert Drop(s4.store.ledger, [(3, 1)], 1) == DropOne(Drop(s4.store.ledger, [(3, 1)], 0), (3, 1));
    }
    var s6 := Next(s5, steps[5]);
    assert s6.worker.request.outputs == [Output(3, 1, 0)];
    assert Output(3, 1, 0) in s6.worker.request.outputs;
    assert Runs(s5, steps[5..]) && After(s5, steps[5..]) == s6 by { assert steps[5..][1..] == []; }
    assert Runs(s4, steps[4..]) && After(s4, steps[4..]) == s6 by { assert steps[4..][1..] == steps[5..]; }
    assert Runs(s3, steps[3..]) && After(s3, steps[3..]) == s6 by { assert steps[3..][1..] == steps[4..]; }
    assert Runs(s2, steps[2..]) && After(s2, steps[2..]) == s6 by { assert steps[2..][1..] == steps[3..]; }
    assert Runs(s1, steps[1..]) && After(s1, steps[1..]) == s6 by { assert steps[1..][1..] == steps[2..]; }
  }
}
