/**
 * What the session plans for a frame and reports with it, told from the requests of the run alone
 * (interfaces/camera/mainline/session/FlashControl.cpp).
 */
module FlashPlans {
  import opened Common
  import opened FlashControl

  /** The flash fires for a still capture that always has it, or for an automatic one found in the dark. */
  lemma FiresIff(frames: seq<Frame>, s: Settings)
    ensures FiresFor(frames, s) <==> s.still && (s.aeMode.AlwaysFlash? || (s.aeMode.AutoFlash? && Dark(frames)))
  {
  }

  lemma LitNow(frames: seq<Frame>)
    requires frames != []
    ensures
      var before, f := frames[..|frames| - 1], frames[|frames| - 1];
      var plan, mode := PlanOf(frames, true), f.settings.flashMode;
      (plan.lit <==> if f.settings.aeMode.OtherAe? then mode.Torch? || mode.Single?
                     else FiresFor(before, f.settings) || Ahead(frames)) &&
      (plan.keepLit <==> if f.settings.aeMode.OtherAe? then mode.Torch?
                         else Ahead(frames) && !FiresFor(before, f.settings))
  {
    var before := frames[..|frames| - 1];
    DarkIffLastReading(before);
    PreflashWasStarted(before, true);
    AheadIsPreflash(frames);
  }

  /** Without a flash nothing is lit or waited for. */
  lemma NothingWithoutFlash(frames: seq<Frame>)
    requires frames != []
    ensures PlanOf(frames, false) ==
      Plan(false, false, 0, if frames[|frames| - 1].settings.aeLock then Locked else Converged)
  {
  }

  // --- The precapture sequence ---------------------------------------------------------

  /** Started with frame k and not cancelled, started again, used up or over since. */
  ghost predicate RunsSince(frames: seq<Frame>, k: nat) {
    k < |frames| && frames[k].settings.trigger == Start &&
    (forall j :: k < j < |frames| ==> frames[j].settings.trigger == NoTrigger && frames[j].now - frames[k].now < PRECAPTURE_NS) &&
    forall j :: k <= j < |frames| ==> !FiresFor(frames[..j], frames[j].settings)
  }

  ghost predicate Sequencing(frames: seq<Frame>) { exists k :: RunsSince(frames, k) }

  lemma {:induction false} StartOf(frames: seq<Frame>, k: nat)
    requires k < |frames| && frames[k].settings.trigger == Start
    requires forall j :: k < j < |frames| ==> frames[j].settings.trigger != Start
    ensures LastStart(frames) == Some(frames[k].now)
  {
    if k < |frames| - 1 {
      StartOf(frames[..|frames| - 1], k);
    }
  }

  lemma OneMoreSince(before: seq<Frame>, f: Frame, k: nat)
    ensures RunsSince(before + [f], k) <==>
      (k == |before| && f.settings.trigger == Start && !FiresFor(before, f.settings)) ||
      (RunsSince(before, k) && f.settings.trigger == NoTrigger && f.now - before[k].now < PRECAPTURE_NS &&
       !FiresFor(before, f.settings))
  {
    var frames := before + [f];
    assert frames[..|before|] == before;
    forall j | 0 <= j < |before| ensures frames[..j] == before[..j] && frames[j] == before[j] {
    }
  }

  /** One more frame starts the sequence, or goes on with it. */
  lemma SequencingStep(before: seq<Frame>, f: Frame)
    ensures Sequencing(before + [f]) <==>
      !FiresFor(before, f.settings) &&
      (f.settings.trigger == Start ||
       (f.settings.trigger == NoTrigger && Sequencing(before) && LastStart(before).Some? &&
        f.now - LastStart(before).value < PRECAPTURE_NS))
  {
    if Sequencing(before) {
      var k: nat :| RunsSince(before, k);
      StartOf(before, k);
      OneMoreSince(before, f, k);
    }
    if Sequencing(before + [f]) {
      var k: nat :| RunsSince(before + [f], k);
      OneMoreSince(before, f, k);
      if k < |before| {
        StartOf(before, k);
      }
    }
    OneMoreSince(before, f, |before|);
  }

  lemma {:induction false} RunningIffSequencing(frames: seq<Frame>)
    ensures After(frames, true).control.precapture == Running <==> Sequencing(frames)
  {
    if frames != [] {
      var before, f := frames[..|frames| - 1], frames[|frames| - 1];
      RunningIffSequencing(before);
      RunningNow(before, f);
      assert frames == before + [f];
    }
  }

  lemma RunningNow(before: seq<Frame>, f: Frame)
    requires After(before, true).control.precapture == Running <==> Sequencing(before)
    ensures Begin(After(before, true).control, true, f.settings, f.now).0.precapture == Running <==> Sequencing(before + [f])
  {
    DarkIffLastReading(before);
    PreflashWasStarted(before, true);
    SequencingStep(before, f);
    if Sequencing(before) {
      var k: nat :| RunsSince(before, k);
      StartOf(before, k);
    }
  }

  /** The state of the exposure reported with a frame. */
  lemma ReportedState(frames: seq<Frame>)
    requires frames != []
    ensures
      var before, f, ae := frames[..|frames| - 1], frames[|frames| - 1], PlanOf(frames, true).aeState;
      (ae == Locked <==> f.settings.aeLock) &&
      (ae == Precapturing <==> !f.settings.aeLock && Sequencing(frames)) &&
      (ae == FlashRequired <==>
         !f.settings.aeLock && !Sequencing(frames) && f.settings.aeMode.AutoFlash? && Dark(before) && !f.settings.still &&
         !Ahead(frames))
  {
    var before, f := frames[..|frames| - 1], frames[|frames| - 1];
    RunningIffSequencing(before);
    RunningNow(before, f);
    assert frames == before + [f];
    DarkIffLastReading(before);
    LitNow(frames);
    FiresIff(before, f.settings);
  }
}
