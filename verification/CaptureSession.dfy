/**
 * The camera capture session as a state machine, one step per region its lock
 * protects: binder threads submitting, flushing, closing and configuring, and
 * the worker (interfaces/camera/mainline/session/CameraDeviceSession.cpp).
 */
module CaptureSession {
  import opened Common

  /** One output buffer of a request as the framework sends it. */
  datatype OutputArg = OutputArg(stream: int, buffer: int, carriesHandle: bool, importSucceeds: bool)

  datatype SettingsArg = NoSettings | UnreadableQueue | Malformed | Given(settings: nat)

  datatype Request = Request(frame: int, reprocessing: bool, settings: SettingsArg, outputs: seq<OutputArg>)

  datatype Output = Output(stream: int, buffer: int, handle: nat)

  datatype Pending = Pending(frame: int, settings: nat, outputs: seq<Output>)

  datatype Notice = Shutter(frame: int) | RequestError(frame: int) | BufferError(frame: int, stream: int) | DeviceError

  datatype Returned = Returned(stream: int, buffer: int, ok: bool)

  /** The capture result of a request, with what was notified for it. */
  datatype Answer = Answer(frame: int, complete: bool, notices: seq<Notice>, buffers: seq<Returned>)

  /** What the device and the output writers did for one request. */
  datatype Outcome = CaptureFailed(gone: bool) | Captured(written: seq<bool>)

  datatype Worker = Waiting | Holding(request: Pending, discard: bool) | Replied | Exited

  /** A thread inside processCaptureRequest. */
  datatype Caller = Checked | Ready(pending: Pending)

  type CacheKey = (int, int)

  /** The buffers imported so far: the cached ones, and how often each was freed. */
  datatype Ledger = Ledger(cache: map<CacheKey, nat>, imported: nat, freed: multiset<nat>)

  datatype Gate = Gate(closed: bool, stopping: bool, flushing: bool, busy: bool)

  datatype Store = Store(streams: set<int>, ledger: Ledger, lastSettings: Option<nat>)

  datatype State = State(
    gate: Gate, queue: seq<Pending>, store: Store, worker: Worker, deviceLost: bool,
    callers: map<nat, Caller>, flushers: map<nat, nat>, closers: set<nat>,
    accepted: seq<Pending>, answers: seq<Answer>)

  datatype Step =
    | Check(thread: nat, drops: seq<CacheKey>)
    | Prepare(thread: nat, request: Request)
    | Push(thread: nat)
    | Leave(thread: nat)
    | Take
    | Reply(outcome: Outcome)
    | Settle
    | Exit
    | FlushBegin(thread: nat)
    | FlushEnd(thread: nat)
    | CloseBegin(thread: nat)
    | CloseEnd(thread: nat)
    | Configure(wanted: Option<set<int>>)

  const INITIAL := State(
    Gate(false, false, false, false), [], Store({}, Ledger(map[], 0, multiset{}), None), Waiting, false,
    map[], map[], {}, [], [])

  // --- The regions, as values ---------------------------------------------------

  /** FreeBuffersLocked. */
  function Drop(l: Ledger, drops: seq<CacheKey>, n: nat): Ledger
    requires n <= |drops|
  {
    if n == 0 then l else DropOne(Drop(l, drops, n - 1), drops[n - 1])
  }

  function DropOne(l: Ledger, key: CacheKey): Ledger {
    if key in l.cache then Free(l, {key}) else l
  }

  function HandlesOf(cache: map<CacheKey, nat>, keys: set<CacheKey>): set<nat>
    requires keys <= cache.Keys
  {
    set key | key in keys :: cache[key]
  }

  /** Freeing the cached buffers of the keys, of which no two share a handle. */
  function Free(l: Ledger, keys: set<CacheKey>): Ledger
    requires keys <= l.cache.Keys
  {
    Ledger(l.cache - keys, l.imported, l.freed + multiset(HandlesOf(l.cache, keys)))
  }

  datatype Gathered = Gathered(ok: bool, ledger: Ledger, outputs: seq<Output>)

  /** The output loop of Prepare over the first `n` buffers; it stops at the first bad one. */
  function Gather(streams: set<int>, l: Ledger, args: seq<OutputArg>, n: nat): Gathered
    requires n <= |args|
  {
    if n == 0 then Gathered(true, l, [])
    else
      var g := Gather(streams, l, args, n - 1);
      if !g.ok then g else GatherOne(streams, g, args[n - 1])
  }

  function GatherOne(streams: set<int>, g: Gathered, arg: OutputArg): Gathered {
    var key := (arg.stream, arg.buffer);
    if arg.stream !in streams then g.(ok := false)
    else if key in g.ledger.cache then
      g.(outputs := g.outputs + [Output(arg.stream, arg.buffer, g.ledger.cache[key])])
    else if !arg.carriesHandle || !arg.importSucceeds then g.(ok := false)
    else
      var handle := g.ledger.imported;
      Gathered(true, g.ledger.(cache := g.ledger.cache[key := handle], imported := handle + 1),
               g.outputs + [Output(arg.stream, arg.buffer, handle)])
  }

  /** The settings a request runs with; those of the last request when it brings none. */
  function EffectiveSettings(last: Option<nat>, arg: SettingsArg): Option<nat> {
    match arg
    case Given(v) => Some(v)
    case NoSettings => last
    case _ => None
  }

  /** Prepare: what it leaves behind, and the pending request unless it is rejected. */
  function PrepareRequest(store: Store, request: Request): (Store, Option<Pending>) {
    if request.reprocessing || request.outputs == [] || request.settings.UnreadableQueue? then (store, None)
    else
      match EffectiveSettings(store.lastSettings, request.settings)
      case None => (store, None)
      case Some(settings) =>
        var g := Gather(store.streams, store.ledger, request.outputs, |request.outputs|);
        (Store(store.streams, g.ledger, Some(settings)),
         if g.ok then Some(Pending(request.frame, settings, g.outputs)) else None)
  }

  function ReturnAll(outputs: seq<Output>, written: seq<bool>, n: nat): seq<Returned>
    requires n <= |outputs| == |written|
  {
    if n == 0 then []
    else ReturnAll(outputs, written, n - 1) + [Returned(outputs[n - 1].stream, outputs[n - 1].buffer, written[n - 1])]
  }

  function BufferErrors(frame: int, outputs: seq<Output>, written: seq<bool>, n: nat): seq<Notice>
    requires n <= |outputs| == |written|
  {
    if n == 0 then []
    else BufferErrors(frame, outputs, written, n - 1) +
         if written[n - 1] then [] else [BufferError(frame, outputs[n - 1].stream)]
  }

  function Failed(p: Pending, gone: bool): Answer {
    Answer(p.frame, false, (if gone then [DeviceError] else []) + [RequestError(p.frame)],
           ReturnAll(p.outputs, seq(|p.outputs|, i => false), |p.outputs|))
  }

  function AnswerTo(p: Pending, discard: bool, lost: bool, outcome: Outcome): Answer
    requires discard || lost || outcome.CaptureFailed? || |outcome.written| == |p.outputs|
  {
    if discard || lost then Failed(p, false)
    else
      match outcome
      case CaptureFailed(gone) => Failed(p, gone)
      case Captured(written) =>
        Answer(p.frame, true, [Shutter(p.frame)] + BufferErrors(p.frame, p.outputs, written, |p.outputs|),
               ReturnAll(p.outputs, written, |p.outputs|))
  }

  /** Whether the thread is where the step starts, and what it waits for holds. */
  predicate Enabled(s: State, step: Step) {
    match step
    case Check(t, _) => t !in s.callers
    case Prepare(t, _) => t in s.callers && s.callers[t] == Checked
    case Push(t) => t in s.callers && s.callers[t].Ready?
    case Leave(t) => t in s.callers && s.callers[t] == Checked
    case Take => s.worker.Waiting? && s.queue != []
    case Reply(outcome) =>
      s.worker.Holding? &&
      (s.worker.discard || s.deviceLost || outcome.CaptureFailed? || |outcome.written| == |s.worker.request.outputs|)
    case Settle => s.worker.Replied?
    case Exit => s.worker.Waiting? && s.gate.stopping && s.queue == []
    case FlushBegin(t) => t !in s.flushers
    case FlushEnd(t) => t in s.flushers && s.queue == [] && !s.gate.busy
    case CloseBegin(t) => t !in s.closers
    case CloseEnd(t) => t in s.closers && s.worker.Exited?
    case Configure(_) => true
  }

  function Next(s: State, step: Step): State
    requires Enabled(s, step)
  {
    match step
    case Check(t, drops) =>
      if s.gate.closed || s.gate.stopping then s
      else s.(store := s.store.(ledger := Drop(s.store.ledger, drops, |drops|)), callers := s.callers[t := Checked])
    case Prepare(t, request) =>
      var (store, pending) := PrepareRequest(s.store, request);
      s.(store := store,
         callers := if pending.Some? then s.callers[t := Ready(pending.value)] else s.callers - {t})
    case Push(t) =>
      var p := s.callers[t].pending;
      s.(queue := s.queue + [p], accepted := s.accepted + [p], callers := s.callers[t := Checked])
    case Leave(t) => s.(callers := s.callers - {t})
    case Take =>
      s.(worker := Holding(s.queue[0], s.gate.flushing || s.gate.stopping), queue := s.queue[1..],
         gate := s.gate.(busy := true))
    case Reply(outcome) =>
      s.(worker := Replied, answers := s.answers + [AnswerOf(s, outcome)],
         deviceLost := s.deviceLost || (!s.worker.discard && outcome.CaptureFailed? && outcome.gone))
    case Settle => s.(worker := Waiting, gate := s.gate.(busy := false))
    case Exit => s.(worker := Exited)
    case FlushBegin(t) =>
      if s.gate.closed then s
      else s.(gate := s.gate.(flushing := true), flushers := s.flushers[t := |s.accepted|])
    case FlushEnd(t) => s.(gate := s.gate.(flushing := false), flushers := s.flushers - {t})
    case CloseBegin(t) =>
      if s.gate.closed then s
      else s.(gate := s.gate.(stopping := true), closers := s.closers + {t})
    case CloseEnd(t) =>
      s.(gate := s.gate.(closed := true), closers := s.closers - {t},
         store := s.store.(streams := {}, ledger := Free(s.store.ledger, s.store.ledger.cache.Keys)))
    case Configure(wanted) =>
      if wanted.None? || s.gate.closed || s.gate.stopping || s.queue != [] || s.gate.busy then s
      else
        var stale := set key | key in s.store.ledger.cache && key.0 !in wanted.value;
        s.(store := s.store.(streams := wanted.value, ledger := Free(s.store.ledger, stale)))
  }

  function AnswerOf(s: State, outcome: Outcome): Answer
    requires Enabled(s, Reply(outcome))
  {
    AnswerTo(s.worker.request, s.worker.discard, s.deviceLost, outcome)
  }

  // --- What holds in every reachable state ----------------------------------------

  /** The result names every output buffer of the request once, in order, and says how it went. */
  ghost predicate Fits(a: Answer, p: Pending) {
    && a.frame == p.frame
    && |a.buffers| == |p.outputs|
    && (forall i :: 0 <= i < |p.outputs| ==>
          a.buffers[i].stream == p.outputs[i].stream && a.buffers[i].buffer == p.outputs[i].buffer)
    && (a.complete ==> a.notices == [Shutter(p.frame)] + Complaints(p.frame, a.buffers))
    && (!a.complete ==> IsFailure(a))
  }

  /** One buffer error per buffer that comes back unfilled, in order. */
  function Complaints(frame: int, buffers: seq<Returned>): seq<Notice> {
    if buffers == [] then []
    else
      var last := buffers[|buffers| - 1];
      Complaints(frame, buffers[..|buffers| - 1]) + if last.ok then [] else [BufferError(frame, last.stream)]
  }

  /** The whole request failed: one request error, and every buffer comes back unfilled. */
  ghost predicate IsFailure(a: Answer) {
    && !a.complete
    && (a.notices == [RequestError(a.frame)] || a.notices == [DeviceError, RequestError(a.frame)])
    && forall b :: b in a.buffers ==> !b.ok
  }

  function InFlight(w: Worker): seq<Pending> {
    if w.Holding? then [w.request] else []
  }

  /** Accepted requests are the answered ones, then the one in flight, then the queue. */
  ghost predicate Conserved(s: State) {
    && |s.answers| <= |s.accepted|
    && (forall i :: 0 <= i < |s.answers| ==> Fits(s.answers[i], s.accepted[i]))
    && s.accepted[|s.answers|..] == InFlight(s.worker) + s.queue
  }

  /** Every imported buffer is cached or was freed, once. */
  ghost predicate Balanced(l: Ledger) {
    && (forall k1, k2 :: k1 in l.cache && k2 in l.cache && k1 != k2 ==> l.cache[k1] != l.cache[k2])
    && (forall k :: k in l.cache ==> l.cache[k] < l.imported && l.freed[l.cache[k]] == 0)
    && (forall h :: 0 <= h < l.imported ==> l.freed[h] == if h in l.cache.Values then 0 else 1)
    && (forall h :: h in l.freed ==> h < l.imported)
  }

  ghost predicate Phased(s: State) {
    && (s.gate.busy <==> s.worker.Holding? || s.worker.Replied?)
    && (s.worker.Exited? ==> s.gate.stopping)
    && (s.gate.closed ==> s.worker.Exited? && s.store.streams == {} && s.store.ledger.cache == map[])
    && (forall k :: k in s.store.ledger.cache ==> k.0 in s.store.streams)
    && (forall t :: t in s.flushers ==> s.flushers[t] <= |s.accepted|)
  }

  /** The device is reported lost at most once, when it is. */
  ghost predicate LostOnce(s: State) {
    && (s.deviceLost <==> exists i :: 0 <= i < |s.answers| && DeviceError in s.answers[i].notices)
    && (forall i, j :: 0 <= i < j < |s.answers| && DeviceError in s.answers[i].notices ==>
          IsFailure(s.answers[j]) && DeviceError !in s.answers[j].notices)
  }

  ghost predicate Inv(s: State) {
    Conserved(s) && Balanced(s.store.ledger) && Phased(s) && LostOnce(s)
  }

  lemma {:induction false} ReturnedInOrder(outputs: seq<Output>, written: seq<bool>, n: nat)
    requires n <= |outputs| == |written|
    ensures |ReturnAll(outputs, written, n)| == n
    ensures forall i :: 0 <= i < n ==>
              ReturnAll(outputs, written, n)[i] == Returned(outputs[i].stream, outputs[i].buffer, written[i])
  {
    if n > 0 { ReturnedInOrder(outputs, written, n - 1); }
  }

  lemma {:induction false} ErrorsAreComplaints(frame: int, outputs: seq<Output>, written: seq<bool>, n: nat)
    requires n <= |outputs| == |written|
    ensures BufferErrors(frame, outputs, written, n) == Complaints(frame, ReturnAll(outputs, written, n))
  {
    if n > 0 {
      ErrorsAreComplaints(frame, outputs, written, n - 1);
      var all := ReturnAll(outputs, written, n);
      assert all[..|all| - 1] == ReturnAll(outputs, written, n - 1);
    }
  }

  lemma FailedIsFailure(p: Pending, gone: bool)
    ensures Fits(Failed(p, gone), p) && IsFailure(Failed(p, gone))
    ensures DeviceError in Failed(p, gone).notices <==> gone
  {
    ReturnedInOrder(p.outputs, seq(|p.outputs|, i => false), |p.outputs|);
  }

  lemma {:induction false} ComplaintsNoDeviceError(frame: int, buffers: seq<Returned>)
    ensures DeviceError !in Complaints(frame, buffers)
  {
    if buffers != [] { ComplaintsNoDeviceError(frame, buffers[..|buffers| - 1]); }
  }

  lemma AnswerFits(p: Pending, discard: bool, lost: bool, outcome: Outcome)
    requires discard || lost || outcome.CaptureFailed? || |outcome.written| == |p.outputs|
    ensures var a := AnswerTo(p, discard, lost, outcome);
            && Fits(a, p)
            && (discard || lost || outcome.CaptureFailed? ==> IsFailure(a))
            && (DeviceError in a.notices <==> !discard && !lost && outcome.CaptureFailed? && outcome.gone)
  {
    FailedIsFailure(p, false);
    FailedIsFailure(p, true);
    if !discard && !lost && outcome.Captured? {
      ReturnedInOrder(p.outputs, outcome.written, |p.outputs|);
      ErrorsAreComplaints(p.frame, p.outputs, outcome.written, |p.outputs|);
      ComplaintsNoDeviceError(p.frame, ReturnAll(p.outputs, outcome.written, |p.outputs|));
    }
  }

  lemma {:induction false} DropBalanced(l: Ledger, drops: seq<CacheKey>, n: nat)
    requires Balanced(l) && n <= |drops|
    ensures Balanced(Drop(l, drops, n)) && Drop(l, drops, n).cache.Keys <= l.cache.Keys
  {
    if n > 0 {
      DropBalanced(l, drops, n - 1);
      DropOneBalanced(Drop(l, drops, n - 1), drops[n - 1]);
    }
  }

  lemma DropOneBalanced(l: Ledger, key: CacheKey)
    requires Balanced(l)
    ensures Balanced(DropOne(l, key)) && DropOne(l, key).cache.Keys <= l.cache.Keys
  {
    if key in l.cache {
      FreeBalanced(l, {key});
    }
  }

  /** Freeing some of the cached buffers. */
  lemma FreeBalanced(l: Ledger, keys: set<CacheKey>)
    requires Balanced(l) && keys <= l.cache.Keys
    ensures Balanced(Free(l, keys))
  {
    var after := Free(l, keys);
    var handles := HandlesOf(l.cache, keys);
    forall h | 0 <= h < l.imported
      ensures after.freed[h] == if h in after.cache.Values then 0 else 1
    {
      if h in l.cache.Values {
        var key :| key in l.cache && l.cache[key] == h;
        if key in keys {
          assert h !in after.cache.Values;
        } else {
          assert after.cache[key] == h;
          assert h !in handles;
        }
      } else {
        assert h !in after.cache.Values;
      }
    }
    forall k | k in after.cache ensures after.cache[k] < after.imported && after.freed[after.cache[k]] == 0 {
      assert after.cache[k] == l.cache[k];
      assert l.cache[k] !in handles;
    }
  }

  lemma {:induction false} GatherBalanced(streams: set<int>, l: Ledger, args: seq<OutputArg>, n: nat)
    requires Balanced(l) && n <= |args|
    requires forall k :: k in l.cache ==> k.0 in streams
    ensures var g := Gather(streams, l, args, n);
            && Balanced(g.ledger) && l.imported <= g.ledger.imported
            && (forall k :: k in g.ledger.cache ==> k.0 in streams)
            && (streams == {} ==> g.ledger == l)
  {
    if n > 0 {
      GatherBalanced(streams, l, args, n - 1);
      var g := Gather(streams, l, args, n - 1);
      if g.ok {
        var key, handle := (args[n - 1].stream, args[n - 1].buffer), g.ledger.imported;
        if key !in g.ledger.cache {
          ImportBalanced(g.ledger, key);
        }
      }
    }
  }

  lemma ImportBalanced(l: Ledger, key: CacheKey)
    requires Balanced(l) && key !in l.cache
    ensures Balanced(Ledger(l.cache[key := l.imported], l.imported + 1, l.freed))
  {
    var cache := l.cache[key := l.imported];
    assert l.imported !in l.freed;
    forall h | 0 <= h < l.imported + 1
      ensures l.freed[h] == if h in cache.Values then 0 else 1
    {
      if h == l.imported {
        assert cache[key] == h;
      } else if h in l.cache.Values {
        var k :| k in l.cache && l.cache[k] == h;
        assert cache[k] == h;
      } else {
        assert h !in cache.Values;
      }
    }
  }

  lemma StepKeepsLedger(s: State, step: Step)
    requires Inv(s) && Enabled(s, step)
    ensures Balanced(Next(s, step).store.ledger)
  {
    match step
    case Check(t, drops) => DropBalanced(s.store.ledger, drops, |drops|);
    case Prepare(t, request) => GatherBalanced(s.store.streams, s.store.ledger, request.outputs, |request.outputs|);
    case CloseEnd(t) =>
      FreeBalanced(s.store.ledger, s.store.ledger.cache.Keys);
      assert s.store.ledger.cache - s.store.ledger.cache.Keys == map[];
    case Configure(wanted) =>
      if wanted.Some? {
        FreeBalanced(s.store.ledger, set key | key in s.store.ledger.cache && key.0 !in wanted.value);
      }
    case _ =>
  }

  /** How one step changes what was accepted and answered. */
  lemma StepHistory(s: State, step: Step)
    requires Enabled(s, step)
    ensures Next(s, step).accepted == s.accepted + if step.Push? then [s.callers[step.thread].pending] else []
    ensures Next(s, step).answers == s.answers + if step.Reply? then [AnswerOf(s, step.outcome)] else []
    ensures s.worker.Exited? ==> Next(s, step).worker.Exited? && !step.Reply?
    ensures !step.Reply? ==> Next(s, step).deviceLost == s.deviceLost
    ensures s.gate.stopping ==> Next(s, step).gate.stopping
    ensures s.gate.flushing && !step.FlushEnd? ==> Next(s, step).gate.flushing
  {
    match step
    case Check(t, drops) =>
    case Prepare(t, request) =>
    case Push(t) =>
    case Leave(t) =>
    case Take =>
    case Reply(outcome) =>
    case Settle =>
    case Exit =>
    case FlushBegin(t) =>
    case FlushEnd(t) =>
    case CloseBegin(t) =>
    case CloseEnd(t) =>
    case Configure(wanted) =>
  }

  lemma StepKeepsPhase(s: State, step: Step)
    requires Inv(s) && Enabled(s, step)
    ensures Phased(Next(s, step))
  {
    match step
    case Check(t, drops) => DropBalanced(s.store.ledger, drops, |drops|);
    case Prepare(t, request) => GatherBalanced(s.store.streams, s.store.ledger, request.outputs, |request.outputs|);
    case _ =>
  }

  lemma ReplyConserves(s: State, outcome: Outcome)
    requires Inv(s) && Enabled(s, Reply(outcome))
    ensures Conserved(Next(s, Reply(outcome)))
  {
    var t, n := Next(s, Reply(outcome)), |s.answers|;
    AnswerFits(s.worker.request, s.worker.discard, s.deviceLost, outcome);
    assert s.accepted[n] == s.accepted[n..][0] == s.worker.request;
    assert t.accepted[n + 1..] == s.accepted[n..][1..] == s.queue;
    forall i | 0 <= i < n + 1 ensures Fits(t.answers[i], t.accepted[i]) {
      if i < n { assert t.answers[i] == s.answers[i]; }
    }
  }

  lemma PushConserves(s: State, thread: nat)
    requires Inv(s) && Enabled(s, Push(thread))
    ensures Conserved(Next(s, Push(thread)))
  {
    var t := Next(s, Push(thread));
    assert t.accepted[|t.answers|..] == s.accepted[|s.answers|..] + [s.callers[thread].pending];
  }

  lemma StepConserves(s: State, step: Step)
    requires Inv(s) && Enabled(s, step)
    ensures Conserved(Next(s, step))
  {
    if step.Push? {
      PushConserves(s, step.thread);
    } else if step.Reply? {
      ReplyConserves(s, step.outcome);
    } else {
      StepHistory(s, step);
      assert InFlight(Next(s, step).worker) + Next(s, step).queue == InFlight(s.worker) + s.queue;
    }
  }

  lemma StepLosesOnce(s: State, step: Step)
    requires Inv(s) && Enabled(s, step)
    ensures LostOnce(Next(s, step))
  {
    if step.Reply? {
      ReplyLosesOnce(s, step.outcome);
    } else {
      StepHistory(s, step);
    }
  }

  lemma ReplyLosesOnce(s: State, outcome: Outcome)
    requires Inv(s) && Enabled(s, Reply(outcome))
    ensures LostOnce(Next(s, Reply(outcome)))
  {
    var t, n := Next(s, Reply(outcome)), |s.answers|;
    AnswerFits(s.worker.request, s.worker.discard, s.deviceLost, outcome);
    assert forall i :: 0 <= i < n ==> t.answers[i] == s.answers[i];
    if t.deviceLost {
      if s.deviceLost {
        var i :| 0 <= i < n && DeviceError in s.answers[i].notices;
        assert DeviceError in t.answers[i].notices;
      } else {
        assert DeviceError in t.answers[n].notices;
      }
    }
  }

  lemma InitialInv()
    ensures Inv(INITIAL)
  {
  }

  lemma StepKeepsInv(s: State, step: Step)
    requires Inv(s) && Enabled(s, step)
    ensures Inv(Next(s, step))
  {
    StepKeepsLedger(s, step);
    StepKeepsPhase(s, step);
    StepConserves(s, step);
    StepLosesOnce(s, step);
  }

  // --- Whole runs -----------------------------------------------------------------

  /** The steps can be taken one after the other. */
  ghost predicate Runs(s: State, steps: seq<Step>)
    decreases |steps|
  {
    steps == [] || (Enabled(s, steps[0]) && Runs(Next(s, steps[0]), steps[1..]))
  }

  ghost function After(s: State, steps: seq<Step>): State
    requires Runs(s, steps)
    decreases |steps|
  {
    if steps == [] then s else After(Next(s, steps[0]), steps[1..])
  }

  /**
   * In every interleaving: nothing accepted is lost or answered twice, every
   * answer fits its request, and every imported buffer is accounted for.
   */
  lemma {:induction false} RunKeepsInv(s: State, steps: seq<Step>)
    requires Inv(s) && Runs(s, steps)
    ensures Inv(After(s, steps))
    decreases |steps|
  {
    if steps != [] {
      StepKeepsInv(s, steps[0]);
      RunKeepsInv(Next(s, steps[0]), steps[1..]);
    }
  }

  /** Accepted requests and answers are only ever appended to. */
  lemma {:induction false} HistoryGrows(s: State, steps: seq<Step>)
    requires Runs(s, steps)
    ensures s.accepted <= After(s, steps).accepted && s.answers <= After(s, steps).answers
    decreases |steps|
  {
    if steps != [] { HistoryGrows(Next(s, steps[0]), steps[1..]); }
  }

  /** When flush returns, everything accepted is answered, so everything accepted before it began is. */
  lemma FlushAnswersEverything(s: State, steps: seq<Step>, thread: nat)
    requires Inv(s) && Enabled(s, FlushBegin(thread)) && !s.gate.closed
    requires Runs(Next(s, FlushBegin(thread)), steps)
    requires Enabled(After(Next(s, FlushBegin(thread)), steps), FlushEnd(thread))
    ensures var t := After(Next(s, FlushBegin(thread)), steps);
            |t.answers| == |t.accepted| >= |s.accepted| &&
            forall i :: 0 <= i < |s.accepted| ==> Fits(t.answers[i], s.accepted[i])
  {
    var begun := Next(s, FlushBegin(thread));
    StepKeepsInv(s, FlushBegin(thread));
    RunKeepsInv(begun, steps);
    HistoryGrows(begun, steps);
    var t := After(begun, steps);
    assert t.accepted[|t.answers|..] == [];
  }

  /** Both of the above for a session as it is opened. */
  lemma SessionConserves(steps: seq<Step>)
    requires Runs(INITIAL, steps)
    ensures Inv(After(INITIAL, steps))
  {
    InitialInv();
    RunKeepsInv(INITIAL, steps);
  }

  lemma SessionFlushes(before: seq<Step>, steps: seq<Step>, thread: nat)
    requires Runs(INITIAL, before)
    requires Enabled(After(INITIAL, before), FlushBegin(thread)) && !After(INITIAL, before).gate.closed
    requires Runs(Next(After(INITIAL, before), FlushBegin(thread)), steps)
    requires Enabled(After(Next(After(INITIAL, before), FlushBegin(thread)), steps), FlushEnd(thread))
    ensures
      var s := After(INITIAL, before);
      var t := After(Next(s, FlushBegin(thread)), steps);
      |t.answers| == |t.accepted| >= |s.accepted| &&
      forall i :: 0 <= i < |s.accepted| ==> Fits(t.answers[i], s.accepted[i])
  {
    SessionConserves(before);
    FlushAnswersEverything(After(INITIAL, before), steps, thread);
  }

  /** When the worker leaves, nothing accepted so far is unanswered. */
  lemma ExitOnlyWhenAnswered(s: State)
    requires Inv(s) && Enabled(s, Exit)
    ensures |s.answers| == |s.accepted|
  {
    assert s.accepted[|s.answers|..] == [];
  }

  function Pushes(steps: seq<Step>): nat {
    if steps == [] then 0 else (if steps[0].Push? then 1 else 0) + Pushes(steps[1..])
  }

  /**
   * After the worker left, a request is pushed unanswered and stays so: all
   * accepted requests are answered exactly when none was pushed since.
   */
  lemma {:induction false} AnsweredUnlessPushedLate(s: State, steps: seq<Step>)
    requires Inv(s) && Enabled(s, Exit) && Runs(Next(s, Exit), steps)
    ensures var t := After(Next(s, Exit), steps);
            && t.answers == s.answers
            && |t.accepted| - |t.answers| == Pushes(steps)
            && (|t.answers| == |t.accepted| <==> forall i :: 0 <= i < |steps| ==> !steps[i].Push?)
  {
    ExitOnlyWhenAnswered(s);
    ExitedRun(Next(s, Exit), steps);
    PushesCounts(steps);
  }

  /**
   * After the worker left, a flush that waits can return exactly while nothing was pushed since; a late
   * push blocks it for good.
   */
  lemma {:induction false} FlushReturnsIff(s: State, steps: seq<Step>, thread: nat)
    requires Inv(s) && Enabled(s, Exit) && Runs(Next(s, Exit), steps)
    requires thread in After(Next(s, Exit), steps).flushers
    ensures Enabled(After(Next(s, Exit), steps), FlushEnd(thread)) <==>
      forall i :: 0 <= i < |steps| ==> !steps[i].Push?
  {
    StepKeepsInv(s, Exit);
    RunKeepsInv(Next(s, Exit), steps);
    ExitedRun(Next(s, Exit), steps);
    PushesCounts(steps);
  }

  lemma {:induction false} ExitedRun(s: State, steps: seq<Step>)
    requires s.worker.Exited? && Runs(s, steps)
    ensures After(s, steps).worker.Exited? && After(s, steps).answers == s.answers
    ensures |After(s, steps).accepted| == |s.accepted| + Pushes(steps)
    ensures |After(s, steps).queue| == |s.queue| + Pushes(steps)
    decreases |steps|
  {
    if steps != [] { ExitedRun(Next(s, steps[0]), steps[1..]); }
  }

  lemma {:induction false} PushesCounts(steps: seq<Step>)
    ensures Pushes(steps) == 0 <==> forall i :: 0 <= i < |steps| ==> !steps[i].Push?
  {
    if steps != [] {
      PushesCounts(steps[1..]);
      assert forall i :: 0 < i < |steps| ==> steps[i] == steps[1..][i - 1];
    }
  }

  /** The check of `stopping` and the push are apart: a session can close over a request nobody answers. */
  lemma LatePushHappens() returns (steps: seq<Step>)
    ensures Runs(INITIAL, steps)
    ensures After(INITIAL, steps).gate.closed
    ensures |After(INITIAL, steps).accepted| == 1 && After(INITIAL, steps).answers == []
  {
    var request := Request(7, false, Given(0), [OutputArg(3, 1, true, true)]);
    steps := [Configure(Some({3})), Check(0, []), Prepare(0, request), CloseBegin(1), Exit, Push(0), CloseEnd(1)];
    var s1 := Next(INITIAL, steps[0]);
    var s2 := Next(s1, steps[1]);
    assert s2 == s1.(callers := map[0 := Checked]);
    assert Gather(s2.store.streams, s2.store.ledger, request.outputs, 1).ok;
    var s3 := Next(s2, steps[2]);
    var s4 := Next(s3, steps[3]);
    var s5 := Next(s4, steps[4]);
    var s6 := Next(s5, steps[5]);
    var s7 := Next(s6, steps[6]);
    assert Runs(s6, steps[6..]) && After(s6, steps[6..]) == s7;
    assert Runs(s5, steps[5..]) && After(s5, steps[5..]) == s7 by { assert steps[5..][1..] == steps[6..]; }
    assert Runs(s4, steps[4..]) && After(s4, steps[4..]) == s7 by { assert steps[4..][1..] == steps[5..]; }
    assert Runs(s3, steps[3..]) && After(s3, steps[3..]) == s7 by { assert steps[3..][1..] == steps[4..]; }
    assert Runs(s2, steps[2..]) && After(s2, steps[2..]) == s7 by { assert steps[2..][1..] == steps[3..]; }
    assert Runs(s1, steps[1..]) && After(s1, steps[1..]) == s7 by { assert steps[1..][1..] == steps[2..]; }
  }

  /** Requests the worker takes are discarded from here on. */
  ghost predicate Discarding(s: State, steps: seq<Step>) {
    s.gate.stopping || (s.gate.flushing && forall i :: 0 <= i < |steps| ==> !steps[i].FlushEnd?)
  }

  /**
   * While a flush or a close is under way, every request but the one already
   * in flight comes back as a failure.
   */
  lemma {:induction false} PendingAreDiscarded(s: State, steps: seq<Step>, first: nat)
    requires Discarding(s, steps) && Runs(s, steps)
    requires first >= |s.answers| + if UndiscardedInFlight(s) then 1 else 0
    ensures forall i :: first <= i < |After(s, steps).answers| ==> IsFailure(After(s, steps).answers[i])
    decreases |steps|
  {
    if steps != [] {
      var t := Next(s, steps[0]);
      StepDiscards(s, steps[0]);
      assert forall i :: 0 <= i < |steps[1..]| ==> steps[1..][i] == steps[i + 1];
      if steps[0].Reply? && first == |s.answers| {
        assert IsFailure(t.answers[first]);
        PendingAreDiscarded(t, steps[1..], first + 1);
        HistoryGrows(t, steps[1..]);
      } else {
        PendingAreDiscarded(t, steps[1..], first);
      }
    }
  }

  predicate UndiscardedInFlight(s: State) {
    s.worker.Holding? && !s.worker.discard
  }

  lemma StepDiscards(s: State, step: Step)
    requires Enabled(s, step) && (s.gate.stopping || (s.gate.flushing && !step.FlushEnd?))
    ensures var t := Next(s, step);
            && (t.gate.stopping <== s.gate.stopping) && (t.gate.flushing || t.gate.stopping)
            && (UndiscardedInFlight(t) ==> UndiscardedInFlight(s) && !step.Reply?)
            && |t.answers| == |s.answers| + (if step.Reply? then 1 else 0)
            && (step.Reply? && !UndiscardedInFlight(s) ==> IsFailure(t.answers[|s.answers|]))
  {
    StepHistory(s, step);
    if step.Reply? {
      AnswerFits(s.worker.request, s.worker.discard, s.deviceLost, step.outcome);
    }
  }

  /** A closed session has given back every buffer it imported, and imports no more. */
  lemma {:induction false} ClosedFreesAll(s: State, steps: seq<Step>)
    requires Inv(s) && s.gate.closed && Runs(s, steps)
    ensures After(s, steps).store.ledger.imported == s.store.ledger.imported
    ensures forall h :: 0 <= h < s.store.ledger.imported ==> After(s, steps).store.ledger.freed[h] == 1
    decreases |steps|
  {
    if steps != [] {
      StepKeepsInv(s, steps[0]);
      if steps[0].Prepare? {
        GatherBalanced(s.store.streams, s.store.ledger, steps[0].request.outputs, |steps[0].request.outputs|);
      }
      ClosedFreesAll(Next(s, steps[0]), steps[1..]);
    }
  }
}
