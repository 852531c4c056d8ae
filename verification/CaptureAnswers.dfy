/**
 * What a request comes back as, told from the steps of a run: when it is complete, which of its buffers
 * are filled, and when it was taken only to be discarded
 * (interfaces/camera/mainline/session/CameraDeviceSession.cpp).
 */
module CaptureAnswers {
  import opened CaptureSession
  import opened Common

  /** The answer is complete exactly if a frame was captured for it; then it says what was written. */
  ghost predicate Tells(a: Answer, p: Pending, discard: bool, lost: bool, outcome: Outcome) {
    Fits(a, p) &&
    (a.complete <==> !discard && !lost && outcome.Captured?) &&
    (a.complete ==> |outcome.written| == |a.buffers| && forall i :: 0 <= i < |a.buffers| ==> a.buffers[i].ok == outcome.written[i]) &&
    (a.notices == [DeviceError, RequestError(p.frame)] <==> !discard && !lost && outcome.CaptureFailed? && outcome.gone)
  }

  lemma AnswerTells(p: Pending, discard: bool, lost: bool, outcome: Outcome)
    requires discard || lost || outcome.CaptureFailed? || |outcome.written| == |p.outputs|
    ensures Tells(AnswerTo(p, discard, lost, outcome), p, discard, lost, outcome)
  {
    AnswerFits(p, discard, lost, outcome);
    if !discard && !lost && outcome.Captured? {
      ReturnedInOrder(p.outputs, outcome.written, |p.outputs|);
      assert DeviceError !in AnswerTo(p, discard, lost, outcome).notices;
      assert [DeviceError, RequestError(p.frame)][0] == DeviceError;
    }
  }

  /** In every run an answer tells the outcome of its request, and keeps telling it. */
  lemma ReplyStands(before: seq<Step>, outcome: Outcome, later: seq<Step>)
    requires Runs(INITIAL, before) && Enabled(After(INITIAL, before), Reply(outcome))
    requires Runs(Next(After(INITIAL, before), Reply(outcome)), later)
    ensures
      var s := After(INITIAL, before);
      var t, n := After(Next(s, Reply(outcome)), later), |s.answers|;
      n < |t.answers| && n < |t.accepted| && t.accepted[n] == s.worker.request &&
      Tells(t.answers[n], t.accepted[n], s.worker.discard, s.deviceLost, outcome)
  {
    var s, n := After(INITIAL, before), |After(INITIAL, before).answers|;
    SessionConserves(before);
    AnswerTells(s.worker.request, s.worker.discard, s.deviceLost, outcome);
    assert s.accepted[n..][0] == s.worker.request;
    HistoryGrows(Next(s, Reply(outcome)), later);
    assert Next(s, Reply(outcome)).answers[n] == AnswerOf(s, outcome);
  }

  // --- Taken to be discarded -----------------------------------------------------------

  /** A flush has begun since the last one ended. */
  function Flushing(was: bool, steps: seq<Step>): bool
    decreases |steps|
  {
    if steps == [] then was
    else Flushing(if steps[0].FlushBegin? then true else if steps[0].FlushEnd? then false else was, steps[1..])
  }

  function Closing(was: bool, steps: seq<Step>): bool
    decreases |steps|
  {
    if steps == [] then was else Closing(was || steps[0].CloseBegin?, steps[1..])
  }

  /** Until the session is closed, the flags of its gate are those of the steps taken. */
  lemma {:induction false} GateTold(s: State, steps: seq<Step>)
    requires Runs(s, steps) && Inv(s)
    ensures
      var t := After(s, steps);
      (s.gate.closed ==> t.gate.closed) && t.gate.stopping == Closing(s.gate.stopping, steps) &&
      (!t.gate.closed ==> t.gate.flushing == Flushing(s.gate.flushing, steps))
    decreases |steps|
  {
    if steps != [] {
      GateStep(s, steps[0]);
      StepKeepsInv(s, steps[0]);
      GateTold(Next(s, steps[0]), steps[1..]);
    }
  }

  lemma GateStep(s: State, step: Step)
    requires Enabled(s, step) && (s.gate.closed ==> s.gate.stopping)
    ensures
      var t := Next(s, step);
      (s.gate.closed ==> t.gate.closed) && (t.gate.closed ==> s.gate.closed || step.CloseEnd?) &&
      t.gate.stopping == (s.gate.stopping || step.CloseBegin?) &&
      (!t.gate.closed ==>
         t.gate.flushing == if step.FlushBegin? then true else if step.FlushEnd? then false else s.gate.flushing)
  {
  }

  /** A request is taken to be discarded if and only if a close has begun, or a flush since the last one ended. */
  lemma TakeDiscardsIff(steps: seq<Step>)
    requires Runs(INITIAL, steps) && Enabled(After(INITIAL, steps), Take)
    ensures
      var s := After(INITIAL, steps);
      Next(s, Take).worker == Holding(s.queue[0], Closing(false, steps) || Flushing(false, steps))
  {
    InitialInv();
    SessionConserves(steps);
    GateTold(INITIAL, steps);
  }

  /** Until its reply the worker holds the request it took. */
  lemma {:induction false} HeldUntilReply(s: State, steps: seq<Step>)
    requires Runs(s, steps) && s.worker.Holding? && forall i :: 0 <= i < |steps| ==> !steps[i].Reply?
    ensures After(s, steps).worker == s.worker
    decreases |steps|
  {
    if steps != [] {
      assert forall i :: 0 <= i < |steps[1..]| ==> steps[1..][i] == steps[i + 1];
      HeldStep(s, steps[0]);
      HeldUntilReply(Next(s, steps[0]), steps[1..]);
    }
  }

  lemma HeldStep(s: State, step: Step)
    requires Enabled(s, step) && s.worker.Holding? && !step.Reply?
    ensures Next(s, step).worker == s.worker
  {
  }

  lemma {:induction false} RunsJoin(s: State, a: seq<Step>, b: seq<Step>)
    requires Runs(s, a) && Runs(After(s, a), b)
    ensures Runs(s, a + b) && After(s, a + b) == After(After(s, a), b)
    decreases |a|
  {
    if a == [] {
      assert a + b == b;
    } else {
      assert (a + b)[1..] == a[1..] + b;
      RunsJoin(Next(s, a[0]), a[1..], b);
    }
  }

  /**
   * The whole way of a request from the head of the queue: its answer is complete if and only if no close
   * and no flush was under way when it was taken, the device was not lost before its reply, and a frame
   * was captured.
   */
  lemma TakenAndAnswered(before: seq<Step>, waiting: seq<Step>, outcome: Outcome, later: seq<Step>)
    requires Runs(INITIAL, before) && Enabled(After(INITIAL, before), Take)
    requires Runs(Next(After(INITIAL, before), Take), waiting)
    requires forall i :: 0 <= i < |waiting| ==> !waiting[i].Reply?
    requires Enabled(After(Next(After(INITIAL, before), Take), waiting), Reply(outcome))
    requires Runs(Next(After(Next(After(INITIAL, before), Take), waiting), Reply(outcome)), later)
    ensures
      var s := After(INITIAL, before);
      var u := After(Next(s, Take), waiting);
      var t, n := After(Next(u, Reply(outcome)), later), |u.answers|;
      n < |t.answers| &&
      Tells(t.answers[n], s.queue[0], Closing(false, before) || Flushing(false, before), u.deviceLost, outcome)
  {
    var s := After(INITIAL, before);
    TakeDiscardsIff(before);
    HeldUntilReply(Next(s, Take), waiting);
    OneStep(s, Take);
    RunsJoin(s, [Take], waiting);
    RunsJoin(INITIAL, before, [Take] + waiting);
    ReplyStands(before + ([Take] + waiting), outcome, later);
  }

  lemma OneStep(s: State, step: Step)
    requires Enabled(s, step)
    ensures Runs(s, [step]) && After(s, [step]) == Next(s, step)
  {
    assert [step][1..] == [];
  }
}
