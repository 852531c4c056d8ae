/**
 * The lock-held regions of CameraDeviceSession as they update its fields
 * (interfaces/camera/mainline/session/CameraDeviceSession.cpp), each proved to
 * take exactly its step of the state machine.
 */
module SessionRegions {
  import opened Common
  import opened CaptureSession

  class CameraDeviceSession {
    var closed: bool
    var stopping: bool
    var flushing: bool
    var busy: bool
    var queue: seq<Pending>
    var streams: set<int>
    var bufferCache: map<CacheKey, nat>
    var lastSettings: Option<nat>
    var deviceLost: bool
    // Handles GraphicBuffers gave out, and where every thread is.
    var imported: nat
    ghost var freed: multiset<nat>
    ghost var worker: Worker
    ghost var callers: map<nat, Caller>
    ghost var flushers: map<nat, nat>
    ghost var closers: set<nat>
    ghost var accepted: seq<Pending>
    ghost var answers: seq<Answer>

    ghost function Books(): Ledger
      reads this
    {
      Ledger(bufferCache, imported, freed)
    }

    ghost function View(): State
      reads this
    {
      State(Gate(closed, stopping, flushing, busy), queue, Store(streams, Books(), lastSettings), worker, deviceLost,
            callers, flushers, closers, accepted, answers)
    }

    constructor ()
      ensures View() == INITIAL
    {
      closed, stopping, flushing, busy, deviceLost := false, false, false, false, false;
      queue, streams, bufferCache, lastSettings, imported := [], {}, map[], None, 0;
      freed, worker, callers, flushers, closers := multiset{}, Waiting, map[], map[], {};
      accepted, answers := [], [];
    }

    /** FreeBuffersLocked. */
    method FreeBuffersLocked(drops: seq<CacheKey>)
      modifies this`bufferCache, this`freed
      ensures Books() == Drop(old(Books()), drops, |drops|)
    {
      ghost var before := Books();
      for i := 0 to |drops|
        invariant Books() == Drop(before, drops, i)
      {
        if drops[i] !in bufferCache { continue; }
        FreeCached({drops[i]});
      }
    }

    /** Frees the cached buffers of the keys, one after the other. */
    method FreeCached(keys: set<CacheKey>)
      requires keys <= bufferCache.Keys
      requires OneHandleEach(bufferCache, keys)
      modifies this`bufferCache, this`freed
      ensures Books() == Free(old(Books()), keys)
    {
      ghost var cache, start, gone := bufferCache, freed, {};
      var left := keys;
      while left != {}
        invariant gone + left == keys && gone !! left
        invariant bufferCache == cache - gone
        invariant freed == start + multiset(HandlesOf(cache, gone))
        decreases left
      {
        var key :| key in left;
        HandlesOneMore(cache, keys, gone, key);
        freed := freed + multiset{bufferCache[key]};
        bufferCache := bufferCache - {key};
        gone := gone + {key};
        left := left - {key};
      }
      assert gone == keys;
    }

    /** The region of processCaptureRequest that checks for a closing session. */
    method Check(ghost thread: nat, drops: seq<CacheKey>) returns (ok: bool)
      requires Enabled(View(), Step.Check(thread, drops))
      modifies this
      ensures View() == Next(old(View()), Step.Check(thread, drops))
      ensures ok <==> !old(closed) && !old(stopping)
    {
      if closed || stopping { return false; }
      FreeBuffersLocked(drops);
      callers := callers[thread := Checked];
      return true;
    }

    /** The output loop of Prepare. */
    method GatherOutputs(args: seq<OutputArg>) returns (ok: bool, outputs: seq<Output>)
      modifies this`bufferCache, this`imported
      ensures var g := Gather(streams, old(Books()), args, |args|);
              ok == g.ok && Books() == g.ledger && (ok ==> outputs == g.outputs)
    {
      ghost var before := Books();
      outputs := [];
      for i := 0 to |args|
        invariant freed == old(freed)
        invariant Gathered(true, Books(), outputs) == Gather(streams, before, args, i)
      {
        var arg := args[i];
        var key := (arg.stream, arg.buffer);
        if arg.stream !in streams {
          GatherStops(streams, before, args, i + 1);
          return false, outputs;
        }
        if key !in bufferCache {
          if !arg.carriesHandle || !arg.importSucceeds {
            GatherStops(streams, before, args, i + 1);
            return false, outputs;
          }
          bufferCache := bufferCache[key := imported];
          imported := imported + 1;
        }
        outputs := outputs + [Output(arg.stream, arg.buffer, bufferCache[key])];
      }
      ok := true;
    }

    /** The settings a request runs with, which later requests without any inherit. */
    method ResolveSettings(arg: SettingsArg) returns (settings: Option<nat>)
      requires !arg.UnreadableQueue?
      modifies this`lastSettings
      ensures settings == EffectiveSettings(old(lastSettings), arg)
      ensures lastSettings == if settings.Some? then settings else old(lastSettings)
    {
      if arg.Malformed? { return None; }
      if arg.Given? { lastSettings := Some(arg.settings); }
      return lastSettings;
    }

    /** Prepare: None when the request is rejected. */
    method PrepareRequest(request: Request) returns (pending: Option<Pending>)
      modifies this`lastSettings, this`bufferCache, this`imported
      ensures (Store(streams, Books(), lastSettings), pending) == CaptureSession.PrepareRequest(old(View()).store, request)
    {
      if request.reprocessing || request.outputs == [] || request.settings.UnreadableQueue? { return None; }
      var settings := ResolveSettings(request.settings);
      if settings.None? { return None; }
      var ok, outputs := GatherOutputs(request.outputs);
      if !ok { return None; }
      pending := Some(Pending(request.frame, settings.value, outputs));
    }

    method Prepare(ghost thread: nat, request: Request) returns (pending: Option<Pending>)
      requires Enabled(View(), Step.Prepare(thread, request))
      modifies this
      ensures View() == Next(old(View()), Step.Prepare(thread, request))
      ensures pending.None? <==> thread !in callers
      ensures pending.Some? ==> callers[thread] == Ready(pending.value)
    {
      pending := PrepareRequest(request);
      callers := if pending.Some? then callers[thread := Ready(pending.value)] else callers - {thread};
    }

    /** The region of processCaptureRequest that queues a prepared request. */
    method Push(ghost thread: nat, pending: Pending)
      requires Enabled(View(), Step.Push(thread)) && callers[thread] == Ready(pending)
      modifies this
      ensures View() == Next(old(View()), Step.Push(thread))
    {
      queue := queue + [pending];
      accepted := accepted + [pending];
      callers := callers[thread := Checked];
    }

    /** The head of the worker's loop: the next request, or None to leave. */
    method Take() returns (request: Option<Pending>, discard: bool)
      requires Enabled(View(), Step.Take) || Enabled(View(), Step.Exit)
      modifies this
      ensures request.None? <==> Enabled(old(View()), Step.Exit)
      ensures View() == Next(old(View()), if request.None? then Step.Exit else Step.Take)
      ensures request.Some? ==> worker == Holding(request.value, discard)
    {
      if queue == [] {
        worker := Exited;
        return None, false;
      }
      request, discard := Some(queue[0]), flushing || stopping;
      worker := Holding(queue[0], discard);
      queue := queue[1..];
      busy := true;
    }

    /** Process and Fail: what the worker does with the request it took. */
    method Answer(request: Pending, discard: bool, outcome: Outcome) returns (answer: Answer)
      requires Enabled(View(), Step.Reply(outcome)) && worker == Holding(request, discard)
      modifies this
      ensures View() == Next(old(View()), Step.Reply(outcome))
      ensures answers == old(answers) + [answer]
    {
      if discard || deviceLost {
        answer := Fail(request, false);
      } else if outcome.CaptureFailed? {
        if outcome.gone { deviceLost := true; }
        answer := Fail(request, outcome.gone);
      } else {
        var buffers: seq<Returned> := [];
        var errors: seq<Notice> := [];
        for i := 0 to |request.outputs|
          invariant buffers == ReturnAll(request.outputs, outcome.written, i)
          invariant errors == BufferErrors(request.frame, request.outputs, outcome.written, i)
        {
          var output, ok := request.outputs[i], outcome.written[i];
          if !ok { errors := errors + [BufferError(request.frame, output.stream)]; }
          buffers := buffers + [Returned(output.stream, output.buffer, ok)];
        }
        answer := CaptureSession.Answer.Answer(request.frame, true, [Shutter(request.frame)] + errors, buffers);
      }
      answers := answers + [answer];
      worker := Replied;
    }

    /** The tail of the worker's loop. */
    method Settle()
      requires Enabled(View(), Step.Settle)
      modifies this
      ensures View() == Next(old(View()), Step.Settle)
    {
      busy := false;
      worker := Waiting;
    }

    /** flush() up to its wait; false when there is nothing to wait for. */
    method FlushBegin(ghost thread: nat) returns (waits: bool)
      requires Enabled(View(), Step.FlushBegin(thread))
      modifies this
      ensures View() == Next(old(View()), Step.FlushBegin(thread)) && (waits <==> !closed)
    {
      if closed { return false; }
      flushing := true;
      flushers := flushers[thread := |accepted|];
      return true;
    }

    method FlushEnd(ghost thread: nat)
      requires Enabled(View(), Step.FlushEnd(thread))
      modifies this
      ensures View() == Next(old(View()), Step.FlushEnd(thread))
    {
      flushing := false;
      flushers := flushers - {thread};
    }

    /** close() up to joining the worker; false when the session is closed already. */
    method CloseBegin(ghost thread: nat) returns (joins: bool)
      requires Enabled(View(), Step.CloseBegin(thread))
      modifies this
      ensures View() == Next(old(View()), Step.CloseBegin(thread)) && (joins <==> !closed)
    {
      if closed { return false; }
      stopping := true;
      closers := closers + {thread};
      return true;
    }

    method CloseEnd(ghost thread: nat)
      requires OneHandleEach(bufferCache, bufferCache.Keys) && Enabled(View(), Step.CloseEnd(thread))
      modifies this
      ensures View() == Next(old(View()), Step.CloseEnd(thread))
    {
      FreeCached(bufferCache.Keys);
      streams := {};
      closed := true;
      closers := closers - {thread};
    }

    /** The region of configureStreams; `wanted` is None when no mode serves the streams. */
    method Configure(wanted: Option<set<int>>) returns (ok: bool)
      requires OneHandleEach(bufferCache, bufferCache.Keys)
      modifies this
      ensures View() == Next(old(View()), Step.Configure(wanted))
      ensures ok <==> wanted.Some? && !closed && !stopping && queue == [] && !busy
    {
      if wanted.None? { return false; }
      if closed || stopping { return false; }
      if queue != [] || busy { return false; }
      var stale := set key | key in bufferCache && key.0 !in wanted.value;
      FreeCached(stale);
      streams := wanted.value;
      return true;
    }
  }

  /** Fail: every buffer comes back with an error. */
  method Fail(request: Pending, gone: bool) returns (answer: Answer)
    ensures answer == Failed(request, gone)
  {
    var notices := (if gone then [DeviceError] else []) + [RequestError(request.frame)];
    var written := seq(|request.outputs|, i => false);
    var buffers: seq<Returned> := [];
    for i := 0 to |request.outputs|
      invariant buffers == ReturnAll(request.outputs, written, i)
    {
      buffers := buffers + [Returned(request.outputs[i].stream, request.outputs[i].buffer, false)];
    }
    answer := CaptureSession.Answer.Answer(request.frame, false, notices, buffers);
  }

  ghost predicate OneHandleEach(cache: map<CacheKey, nat>, keys: set<CacheKey>)
    requires keys <= cache.Keys
  {
    forall k1, k2 :: k1 in keys && k2 in keys && k1 != k2 ==> cache[k1] != cache[k2]
  }

  lemma HandlesOneMore(cache: map<CacheKey, nat>, all: set<CacheKey>, keys: set<CacheKey>, key: CacheKey)
    requires all <= cache.Keys && OneHandleEach(cache, all)
    requires keys <= all && key in all && key !in keys
    ensures multiset(HandlesOf(cache, keys + {key})) == multiset(HandlesOf(cache, keys)) + multiset{cache[key]}
    ensures cache - (keys + {key}) == (cache - keys) - {key}
  {
    var done := HandlesOf(cache, keys);
    assert HandlesOf(cache, keys + {key}) == done + {cache[key]};
  }

  /** Nothing is gathered past a bad buffer. */
  lemma {:induction false} GatherStops(streams: set<int>, l: Ledger, args: seq<OutputArg>, n: nat)
    requires n <= |args| && !Gather(streams, l, args, n).ok
    ensures Gather(streams, l, args, |args|) == Gather(streams, l, args, n)
    decreases |args| - n
  {
    if n < |args| { GatherStops(streams, l, args, n + 1); }
  }
}
