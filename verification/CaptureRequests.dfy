/**
 * Which requests a session takes, and what it makes of them: the settings they run with and the buffers
 * they are written to (Prepare of interfaces/camera/mainline/session/CameraDeviceSession.cpp).
 */
module CaptureRequests {
  import opened CaptureBuffers
  import opened CaptureSession
  import opened Common

  function KeyAt(args: seq<OutputArg>, i: nat): CacheKey
    requires i < |args|
  {
    (args[i].stream, args[i].buffer)
  }

  /** The buffer at j comes with a handle, and that can be imported. */
  predicate Imports(args: seq<OutputArg>, j: nat, key: CacheKey) {
    j < |args| && KeyAt(args, j) == key && args[j].carriesHandle && args[j].importSucceeds
  }

  /** The buffer is for a stream there is, and was imported before the request or by it up to here. */
  ghost predicate Known(streams: set<int>, l: Ledger, args: seq<OutputArg>, i: nat)
    requires i < |args|
  {
    args[i].stream in streams && (KeyAt(args, i) in l.cache || exists j :: 0 <= j <= i && Imports(args, j, KeyAt(args, i)))
  }

  ghost predicate AllKnown(streams: set<int>, l: Ledger, args: seq<OutputArg>, n: nat)
    requires n <= |args|
  {
    forall i :: 0 <= i < n ==> Known(streams, l, args, i)
  }

  /** Every buffer is there once, in order, and newly imported unless it was cached. */
  ghost predicate Made(l: Ledger, args: seq<OutputArg>, n: nat, outputs: seq<Output>)
    requires n <= |args|
  {
    |outputs| == n && forall i :: 0 <= i < n ==>
      outputs[i].stream == args[i].stream && outputs[i].buffer == args[i].buffer &&
      if KeyAt(args, i) in l.cache then outputs[i].handle == l.cache[KeyAt(args, i)] else outputs[i].handle >= l.imported
  }

  /** Cached are the old buffers and those of the request so far. */
  ghost predicate Holds(l: Ledger, args: seq<OutputArg>, n: nat, cache: map<CacheKey, nat>)
    requires n <= |args|
  {
    forall key :: key in cache <==> key in l.cache || exists j :: 0 <= j < n && KeyAt(args, j) == key
  }

  /** A buffer seen before was imported by one of those seen before. */
  lemma SeenIsImported(streams: set<int>, l: Ledger, args: seq<OutputArg>, n: nat)
    requires n < |args| && AllKnown(streams, l, args, n) && args[n].stream in streams
    requires exists j :: 0 <= j < n && KeyAt(args, j) == KeyAt(args, n)
    ensures Known(streams, l, args, n)
  {
    var j :| 0 <= j < n && KeyAt(args, j) == KeyAt(args, n);
    assert Known(streams, l, args, j);
  }

  /** Old buffers keep their handles, new ones get new handles. */
  ghost predicate Grown(l: Ledger, after: Ledger) {
    l.imported <= after.imported && l.cache.Keys <= after.cache.Keys && forall key :: key in after.cache ==>
      if key in l.cache then after.cache[key] == l.cache[key] else after.cache[key] >= l.imported
  }

  /** One more buffer. */
  lemma OneMoreKnown(streams: set<int>, l: Ledger, args: seq<OutputArg>, n: nat, g: Gathered)
    requires n < |args| && g.ok && AllKnown(streams, l, args, n) && Holds(l, args, n, g.ledger.cache)
    ensures GatherOne(streams, g, args[n]).ok <==> Known(streams, l, args, n)
  {
    if args[n].stream in streams && KeyAt(args, n) in g.ledger.cache && KeyAt(args, n) !in l.cache {
      SeenIsImported(streams, l, args, n);
    }
    if args[n].carriesHandle && args[n].importSucceeds {
      assert Imports(args, n, KeyAt(args, n));
    }
    if KeyAt(args, n) !in g.ledger.cache && Known(streams, l, args, n) {
      var j :| 0 <= j <= n && Imports(args, j, KeyAt(args, n));
      assert j == n;
    }
  }

  lemma OneMoreHeld(streams: set<int>, l: Ledger, args: seq<OutputArg>, n: nat, g: Gathered)
    requires n < |args| && Holds(l, args, n, g.ledger.cache)
    requires GatherOne(streams, g, args[n]).ok
    ensures Holds(l, args, n + 1, GatherOne(streams, g, args[n]).ledger.cache)
  {
    var cache := GatherOne(streams, g, args[n]).ledger.cache;
    forall key ensures key in cache <==> key in l.cache || exists j :: 0 <= j < n + 1 && KeyAt(args, j) == key {
      if key == KeyAt(args, n) {
        assert key in cache;
      }
    }
  }

  lemma OneMoreMade(streams: set<int>, l: Ledger, args: seq<OutputArg>, n: nat, g: Gathered)
    requires n < |args| && Made(l, args, n, g.outputs) && Grown(l, g.ledger)
    requires KeyAt(args, n) in l.cache ==> KeyAt(args, n) in g.ledger.cache
    requires GatherOne(streams, g, args[n]).ok
    ensures Made(l, args, n + 1, GatherOne(streams, g, args[n]).outputs)
  {
  }

  ghost predicate GatheredRight(streams: set<int>, l: Ledger, args: seq<OutputArg>, n: nat, g: Gathered)
    requires n <= |args|
  {
    Grown(l, g.ledger) && (g.ok <==> AllKnown(streams, l, args, n)) &&
    (g.ok ==> Made(l, args, n, g.outputs) && Holds(l, args, n, g.ledger.cache))
  }

  lemma OneMoreRight(streams: set<int>, l: Ledger, args: seq<OutputArg>, n: nat, g: Gathered)
    requires n < |args| && GatheredRight(streams, l, args, n, g)
    ensures GatheredRight(streams, l, args, n + 1, if g.ok then GatherOne(streams, g, args[n]) else g)
  {
    if g.ok {
      OneMoreKnown(streams, l, args, n, g);
      if GatherOne(streams, g, args[n]).ok {
        OneMoreHeld(streams, l, args, n, g);
        OneMoreMade(streams, l, args, n, g);
      }
    }
  }

  /** The loop over the buffers ends well exactly if each of them is known. */
  lemma {:induction false} GatherIff(streams: set<int>, l: Ledger, args: seq<OutputArg>, n: nat)
    requires n <= |args|
    ensures GatheredRight(streams, l, args, n, Gather(streams, l, args, n))
  {
    if n > 0 {
      GatherIff(streams, l, args, n - 1);
      OneMoreRight(streams, l, args, n - 1, Gather(streams, l, args, n - 1));
    }
  }

  // --- Requests ------------------------------------------------------------------------

  /** What comes with the settings of a request, if it gets as far as that. */
  predicate BringsSettings(request: Request) {
    !request.reprocessing && request.outputs != [] && request.settings.Given?
  }

  /** A request is taken only for outputs, with settings of its own or of an earlier one, and all buffers known. */
  ghost predicate Takeable(store: Store, request: Request) {
    !request.reprocessing && request.outputs != [] &&
    (request.settings.Given? || (request.settings.NoSettings? && store.lastSettings.Some?)) &&
    AllKnown(store.streams, store.ledger, request.outputs, |request.outputs|)
  }

  /** The request as it will be captured: its frame, its settings, its buffers. */
  ghost predicate Prepared(store: Store, request: Request, p: Pending) {
    p.frame == request.frame &&
    (if request.settings.Given? then p.settings == request.settings.settings else Some(p.settings) == store.lastSettings) &&
    Made(store.ledger, request.outputs, |request.outputs|, p.outputs)
  }

  lemma PreparedIff(store: Store, request: Request)
    ensures
      var (after, pending) := PrepareRequest(store, request);
      (pending.Some? <==> Takeable(store, request)) && (pending.Some? ==> Prepared(store, request, pending.value)) &&
      after.streams == store.streams &&
      after.lastSettings == if BringsSettings(request) then Some(request.settings.settings) else store.lastSettings
  {
    GatherIff(store.streams, store.ledger, request.outputs, |request.outputs|);
  }

  /** Buffers of one key share a handle, and no others do. */
  lemma OneHandlePerBuffer(store: Store, request: Request, i: nat, j: nat)
    requires Balanced(store.ledger) && PrepareRequest(store, request).1.Some?
    requires forall key :: key in store.ledger.cache ==> key.0 in store.streams
    requires i < |request.outputs| && j < |request.outputs|
    ensures
      var outputs := PrepareRequest(store, request).1.value.outputs;
      |outputs| == |request.outputs| &&
      (outputs[i].handle == outputs[j].handle <==> KeyAt(request.outputs, i) == KeyAt(request.outputs, j))
  {
    var n := |request.outputs|;
    var outputs := PrepareRequest(store, request).1.value.outputs;
    PreparedIff(store, request);
    GatherBalanced(store.streams, store.ledger, request.outputs, n);
    GatherCaches(store.streams, store.ledger, request.outputs, n);
    assert outputs[i] in outputs && outputs[j] in outputs;
  }

  /** The settings last brought by a request, whether that one was taken or not. */
  function LastBrought(last: Option<nat>, steps: seq<Step>): Option<nat>
    decreases |steps|
  {
    if steps == [] then last
    else if steps[0].Prepare? && BringsSettings(steps[0].request) then LastBrought(Some(steps[0].request.settings.settings), steps[1..])
    else LastBrought(last, steps[1..])
  }

  lemma {:induction false} SettingsTold(s: State, steps: seq<Step>)
    requires Runs(s, steps)
    ensures After(s, steps).store.lastSettings == LastBrought(s.store.lastSettings, steps)
    decreases |steps|
  {
    if steps != [] {
      if steps[0].Prepare? {
        PreparedIff(s.store, steps[0].request);
      }
      SettingsTold(Next(s, steps[0]), steps[1..]);
    }
  }

  /** In every run: when a request is taken, and which settings it then runs with. */
  lemma RunPrepares(steps: seq<Step>, thread: nat, request: Request)
    requires Runs(INITIAL, steps) && Enabled(After(INITIAL, steps), Prepare(thread, request))
    ensures
      var s := After(INITIAL, steps);
      var t := Next(s, Prepare(thread, request));
      (thread in t.callers <==> Takeable(s.store, request)) &&
      (thread in t.callers ==>
         t.callers[thread].Ready? && Prepared(s.store, request, t.callers[thread].pending) &&
         Some(t.callers[thread].pending.settings) ==
           if request.settings.Given? then Some(request.settings.settings) else LastBrought(None, steps))
  {
    PreparedIff(After(INITIAL, steps).store, request);
    SettingsTold(INITIAL, steps);
  }

  // --- From Prepare to the queue -------------------------------------------------------

  /** The requests a thread had taken, in order, and those it pushed. */
  ghost function TakenFrom(s: State, steps: seq<Step>, thread: nat): seq<Pending>
    requires Runs(s, steps)
    decreases |steps|
  {
    if steps == [] then []
    else
      var step := steps[0];
      (if step.Prepare? && step.thread == thread && PrepareRequest(s.store, step.request).1.Some?
       then [PrepareRequest(s.store, step.request).1.value] else []) + TakenFrom(Next(s, step), steps[1..], thread)
  }

  ghost function PushedBy(s: State, steps: seq<Step>, thread: nat): seq<Pending>
    requires Runs(s, steps)
    decreases |steps|
  {
    if steps == [] then []
    else
      (if steps[0].Push? && steps[0].thread == thread then [s.callers[thread].pending] else []) +
      PushedBy(Next(s, steps[0]), steps[1..], thread)
  }

  function InHand(s: State, thread: nat): seq<Pending> {
    if thread in s.callers && s.callers[thread].Ready? then [s.callers[thread].pending] else []
  }

  lemma StepHands(s: State, step: Step, thread: nat)
    requires Enabled(s, step)
    ensures
      InHand(s, thread) + TakenFrom(s, [step], thread) == PushedBy(s, [step], thread) + InHand(Next(s, step), thread)
  {
    assert [step][1..] == [];
    assert Runs(Next(s, step), []);
  }

  lemma FirstStep(s: State, steps: seq<Step>, thread: nat)
    requires steps != [] && Runs(s, steps)
    ensures TakenFrom(s, steps, thread) == TakenFrom(s, [steps[0]], thread) + TakenFrom(Next(s, steps[0]), steps[1..], thread)
    ensures PushedBy(s, steps, thread) == PushedBy(s, [steps[0]], thread) + PushedBy(Next(s, steps[0]), steps[1..], thread)
  {
    assert [steps[0]][1..] == [];
  }

  lemma Chained<T>(a: seq<T>, b: seq<T>, c: seq<T>, d: seq<T>, e: seq<T>, f: seq<T>, g: seq<T>)
    requires a + b == c + d && d + e == f + g
    ensures a + (b + e) == (c + f) + g
  {
    assert a + (b + e) == (a + b) + e;
    assert (c + d) + e == c + (d + e);
    assert c + (f + g) == (c + f) + g;
  }

  /** Every thread pushes the requests it had taken, each once and in order; at most one is still to be pushed. */
  lemma {:induction false} PushedInOrder(s: State, steps: seq<Step>, thread: nat)
    requires Runs(s, steps)
    ensures
      InHand(s, thread) + TakenFrom(s, steps, thread) == PushedBy(s, steps, thread) + InHand(After(s, steps), thread)
    decreases |steps|
  {
    if steps != [] {
      var t := Next(s, steps[0]);
      StepHands(s, steps[0], thread);
      FirstStep(s, steps, thread);
      PushedInOrder(t, steps[1..], thread);
      Chained(InHand(s, thread), TakenFrom(s, [steps[0]], thread), PushedBy(s, [steps[0]], thread), InHand(t, thread),
              TakenFrom(t, steps[1..], thread), PushedBy(t, steps[1..], thread), InHand(After(s, steps), thread));
    }
  }
}
