/**
 * The flash of a capture session: which frames it is lit for, and for how long
 * (interfaces/camera/mainline/session/FlashControl.cpp, with the calls of
 * interfaces/camera/mainline/session/CameraDeviceSession.cpp).
 */
module FlashControl {
  import opened Common

  const PRECAPTURE_NS := 500_000_000
  const PREFLASH_TIMEOUT_NS := 3_000_000_000
  const SETTLE_NS := 150_000_000
  const DARK_LUMA := 60

  datatype AeMode = AutoFlash | AlwaysFlash | OtherAe
  datatype FlashMode = Torch | Single | OtherFlash
  datatype Trigger = Start | Cancel | NoTrigger

  datatype Settings = Settings(aeMode: AeMode, flashMode: FlashMode, trigger: Trigger, still: bool, aeLock: bool)

  datatype Precapture = Idle | Running | Done

  datatype Control = Control(precapture: Precapture, startNs: int, preflash: bool, lit: bool, litSince: int, dark: bool)

  datatype AeState = Locked | Converged | Precapturing | FlashRequired

  datatype Plan = Plan(lit: bool, keepLit: bool, notBefore: int, aeState: AeState)

  predicate UsesFlash(s: Settings) { s.aeMode == AutoFlash || s.aeMode == AlwaysFlash }

  predicate NeedsFlash(c: Control, s: Settings) { UsesFlash(s) && (s.aeMode == AutoFlash ==> c.dark) }

  /** The trigger, and what of the precapture sequence is over by now. */
  function Triggered(c: Control, s: Settings, now: int): Control {
    var t := match s.trigger
      case Start => c.(precapture := Running, startNs := now, preflash := NeedsFlash(c, s))
      case Cancel => c.(precapture := Idle, preflash := false)
      case NoTrigger => c;
    var since := now - t.startNs;
    t.(precapture := if t.precapture == Running && since >= PRECAPTURE_NS then Done else t.precapture,
       preflash := t.preflash && UsesFlash(s) && since < PRECAPTURE_NS + PREFLASH_TIMEOUT_NS)
  }

  /** Whether the frame is lit, stays lit afterwards, and has to wait for the flash to settle. */
  datatype Light = Light(lit: bool, keep: bool, wait: bool)

  function LightFor(c: Control, s: Settings): Light {
    if UsesFlash(s) then
      if s.still && NeedsFlash(c, s) then Light(true, false, true)
      else Light(c.preflash, c.preflash, false)
    else if s.flashMode == Torch then Light(true, true, false)
    else if s.flashMode == Single then Light(true, false, true)
    else Light(false, false, false)
  }

  function Begin(c: Control, available: bool, s: Settings, now: int): (Control, Plan) {
    if !available then (c, Plan(false, false, 0, if s.aeLock then Locked else Converged)) else
      var t := Triggered(c, s, now);
      var light := LightFor(t, s);
      var fired := UsesFlash(s) && light.lit && light.wait;
      var u := t.(preflash := t.preflash && !fired, precapture := if fired then Idle else t.precapture,
                  lit := light.lit, litSince := if light.lit && !c.lit then now else c.litSince);
      (u, Plan(light.lit, light.keep, if light.wait then u.litSince + SETTLE_NS else 0,
               if s.aeLock then Locked
               else if u.precapture == Running then Precapturing
               else if s.aeMode == AutoFlash && c.dark && !light.lit then FlashRequired
               else Converged))
  }

  // --- The session around it -----------------------------------------------------------

  /** A request as the worker handles it: when, whether a frame came, and its mean luma. */
  datatype Frame = Frame(settings: Settings, now: int, captured: bool, luma: int)

  /** The control, and whether the session lit the LEDs. */
  datatype Session = Session(control: Control, ledLit: bool)

  const START := Session(Control(Idle, 0, false, false, 0, false), false)

  function Process(x: Session, available: bool, f: Frame): Session {
    var (c, plan) := Begin(x.control, available, f.settings, f.now);
    var d := if plan.lit && !plan.keepLit then c.(lit := false) else c;
    var e := if f.captured && available && !d.lit && f.settings.aeMode == AutoFlash
             then d.(dark := f.luma < DARK_LUMA) else d;
    Session(e, plan.lit && plan.keepLit && available)
  }

  function After(frames: seq<Frame>, available: bool): Session {
    if frames == [] then START
    else Process(After(frames[..|frames| - 1], available), available, frames[|frames| - 1])
  }

  /** The plan for the last frame. */
  function PlanOf(frames: seq<Frame>, available: bool): Plan
    requires frames != []
  {
    Begin(After(frames[..|frames| - 1], available).control, available,
          frames[|frames| - 1].settings, frames[|frames| - 1].now).1
  }

  /** The control knows what the LEDs do; without a flash nothing is ever lit. */
  lemma {:induction false} ControlKnowsLeds(frames: seq<Frame>, available: bool)
    ensures After(frames, available).ledLit == After(frames, available).control.lit
    ensures !available ==> !After(frames, available).ledLit
    ensures frames != [] && !available ==> !PlanOf(frames, available).lit
  {
    if frames != [] {
      ControlKnowsLeds(frames[..|frames| - 1], available);
    }
  }

  /** Between requests the flash is lit only as a torch or as a pre-flash. */
  lemma LitBetweenRequests(frames: seq<Frame>, available: bool)
    requires After(frames, available).ledLit
    ensures frames != [] && PlanOf(frames, available).keepLit
    ensures
      var s := frames[|frames| - 1].settings;
      var before := After(frames[..|frames| - 1], available).control;
      if UsesFlash(s) then After(frames, available).control.preflash && !(s.still && NeedsFlash(before, s))
      else s.flashMode == Torch
  {
  }

  // --- The pre-flash -------------------------------------------------------------------

  /** When a precapture sequence was last started. */
  function LastStart(frames: seq<Frame>): Option<int> {
    if frames == [] then None
    else if frames[|frames| - 1].settings.trigger == Start then Some(frames[|frames| - 1].now)
    else LastStart(frames[..|frames| - 1])
  }

  lemma {:induction false} PreflashWasStarted(frames: seq<Frame>, available: bool)
    requires available
    ensures
      var c := After(frames, available).control;
      (LastStart(frames).Some? ==> c.startNs == LastStart(frames).value) &&
      (c.preflash ==> LastStart(frames).Some?)
  {
    if frames != [] {
      PreflashWasStarted(frames[..|frames| - 1], available);
    }
  }

  /** A frame is lit ahead only within the time of the precapture sequence and the timeout behind it. */
  lemma PreflashEnds(frames: seq<Frame>, available: bool)
    requires available && frames != [] && PlanOf(frames, available).keepLit
    requires UsesFlash(frames[|frames| - 1].settings)
    ensures
      LastStart(frames).Some? &&
      frames[|frames| - 1].now - LastStart(frames).value < PRECAPTURE_NS + PREFLASH_TIMEOUT_NS
  {
    PreflashWasStarted(frames[..|frames| - 1], available);
    PreflashWasStarted(frames, available);
  }

  /** The still capture a pre-flash was for ends it. */
  lemma StillEndsPreflash(frames: seq<Frame>, available: bool)
    requires available && frames != [] && frames[|frames| - 1].settings.still
    requires UsesFlash(frames[|frames| - 1].settings) && PlanOf(frames, available).lit && !PlanOf(frames, available).keepLit
    ensures !After(frames, available).control.preflash && !After(frames, available).ledLit
    ensures After(frames, available).control.precapture == Idle
  {
  }

  // --- Waiting for the flash -----------------------------------------------------------

  /** The last frame's flash came on with it, or was kept lit since that of an earlier one. */
  function LitSince(frames: seq<Frame>, available: bool): int
    requires frames != []
  {
    var before := frames[..|frames| - 1];
    if before != [] && PlanOf(before, available).lit && PlanOf(before, available).keepLit
    then LitSince(before, available) else frames[|frames| - 1].now
  }

  lemma {:induction false} LitSinceKept(frames: seq<Frame>, available: bool)
    requires available && frames != [] && PlanOf(frames, available).lit
    ensures
      var before := After(frames[..|frames| - 1], available).control;
      Begin(before, available, frames[|frames| - 1].settings, frames[|frames| - 1].now).0.litSince ==
        LitSince(frames, available)
  {
    var before := frames[..|frames| - 1];
    if before != [] && PlanOf(before, available).lit && PlanOf(before, available).keepLit {
      LitSinceKept(before, available);
    }
  }

  /** A frame fired for itself has to start after the flash has been on for the settling time. */
  lemma WaitsForFlash(frames: seq<Frame>, available: bool)
    requires available && frames != []
    ensures
      var plan := PlanOf(frames, available);
      if plan.lit && !plan.keepLit then plan.notBefore == LitSince(frames, available) + SETTLE_NS else plan.notBefore == 0
  {
    if PlanOf(frames, available).lit {
      LitSinceKept(frames, available);
    }
  }

  /** Still captures are lit always, or when the scene was dark; the flash mode does not matter then. */
  lemma StillIsLit(c: Control, s: Settings, now: int)
    requires UsesFlash(s) && s.still
    ensures s.aeMode == AlwaysFlash ==> Begin(c, true, s, now).1.lit
    ensures s.aeMode == AutoFlash && c.dark ==> Begin(c, true, s, now).1.lit
    ensures s.aeMode == AutoFlash && !c.dark && !c.preflash && s.trigger != Start ==> !Begin(c, true, s, now).1.lit
    ensures forall mode :: Begin(c, true, s.(flashMode := mode), now) == Begin(c, true, s, now)
  {
  }

  // --- How dark it is ------------------------------------------------------------------

  /**
   * The brightness is meant to be that of a frame without flash. A frame the flash fired for alone is
   * measured as well: it has gone off again by then. The lit frames measured are exactly the still
   * captures in automatic mode that find the scene dark.
   */
  lemma LitFrameMeasuredIff(x: Session, f: Frame)
    ensures
      var plan := Begin(x.control, true, f.settings, f.now).1;
      var measured := f.captured && !Process(x, true, f).control.lit && f.settings.aeMode == AutoFlash;
      (measured ==> Process(x, true, f).control.dark == (f.luma < DARK_LUMA)) &&
      (!measured ==> Process(x, true, f).control.dark == x.control.dark) &&
      (measured && plan.lit <==>
         f.captured && f.settings.aeMode == AutoFlash && f.settings.still && x.control.dark)
  {
  }

  // What is taken for the brightness, told from the requests alone.

  /** A brightness that was measured, and whether that frame was lit. */
  datatype Reading = Reading(luma: int, lit: bool)

  /** The measurement that counts after these frames. */
  function LastReading(frames: seq<Frame>): Option<Reading>
    decreases |frames|, 1
  {
    if frames == [] then None else
      var before, f := frames[..|frames| - 1], frames[|frames| - 1];
      if f.captured && f.settings.aeMode == AutoFlash && (Ahead(frames) ==> FiresFor(before, f.settings))
      then Some(Reading(f.luma, FiresFor(before, f.settings))) else LastReading(before)
  }

  predicate Dark(frames: seq<Frame>)
    decreases |frames|, 2
  {
    LastReading(frames).Some? && LastReading(frames).value.luma < DARK_LUMA
  }

  /** The flash fires for that one frame if it comes next. */
  predicate FiresFor(frames: seq<Frame>, s: Settings)
    decreases |frames|, 3
  {
    UsesFlash(s) && s.still && (s.aeMode == AutoFlash ==> Dark(frames))
  }

  /** The last frame falls into a pre-flash: one started in time, not cancelled, and not used up. */
  predicate Ahead(frames: seq<Frame>)
    decreases |frames|, 0
  {
    frames != [] &&
    var before, f := frames[..|frames| - 1], frames[|frames| - 1];
    UsesFlash(f.settings) &&
    match f.settings.trigger
    case Start => f.settings.aeMode == AutoFlash ==> Dark(before)
    case Cancel => false
    case NoTrigger =>
      Ahead(before) && !FiresFor(before[..|before| - 1], before[|before| - 1].settings) && LastStart(before).Some? &&
      f.now - LastStart(before).value < PRECAPTURE_NS + PREFLASH_TIMEOUT_NS
  }

  /** In every run the control knows exactly that brightness and that pre-flash. */
  lemma {:induction false} DarkIffLastReading(frames: seq<Frame>)
    ensures After(frames, true).control.dark <==> Dark(frames)
    ensures After(frames, true).control.preflash <==>
      Ahead(frames) && !FiresFor(frames[..|frames| - 1], frames[|frames| - 1].settings)
  {
    if frames != [] {
      var before, f := frames[..|frames| - 1], frames[|frames| - 1];
      DarkIffLastReading(before);
      PreflashWasStarted(before, true);
      AheadIsPreflash(frames);
      assert FiresFor(before, f.settings) <==>
        f.settings.still && NeedsFlash(After(before, true).control, f.settings);
      assert After(frames, true) == Process(After(before, true), true, f);
    }
  }

  lemma AheadIsPreflash(frames: seq<Frame>)
    requires frames != []
    requires
      var before := frames[..|frames| - 1];
      var c := After(before, true).control;
      (c.dark <==> Dark(before)) && (LastStart(before).Some? ==> c.startNs == LastStart(before).value) &&
      (c.preflash ==> LastStart(before).Some?) &&
      (c.preflash <==> Ahead(before) && !FiresFor(before[..|before| - 1], before[|before| - 1].settings))
    ensures
      var f := frames[|frames| - 1];
      Triggered(After(frames[..|frames| - 1], true).control, f.settings, f.now).preflash <==> Ahead(frames)
  {
  }

  /** In every run: a still capture in automatic mode is lit iff the last reading was dark or a pre-flash is on. */
  lemma StillLitIff(frames: seq<Frame>)
    requires frames != [] && frames[|frames| - 1].settings.still && frames[|frames| - 1].settings.aeMode == AutoFlash
    ensures PlanOf(frames, true).lit <==> Dark(frames[..|frames| - 1]) || Ahead(frames)
  {
    var before := frames[..|frames| - 1];
    DarkIffLastReading(before);
    PreflashWasStarted(before, true);
    AheadIsPreflash(frames);
  }

  /**
   * Of two still captures in automatic mode, the first of which finds the scene dark, the second is
   * lit if and only if no frame came of the first, or a dark one in spite of its flash.
   */
  lemma SecondStillLitIff(frames: seq<Frame>, first: Frame, second: Frame)
    requires first.settings.still && first.settings.aeMode == AutoFlash && Dark(frames)
    requires second.settings.still && second.settings.aeMode == AutoFlash
    ensures PlanOf(frames + [first], true).lit
    ensures PlanOf(frames + [first, second], true).lit <==> !first.captured || first.luma < DARK_LUMA
  {
    var once, twice := frames + [first], frames + [first, second];
    assert once[..|frames|] == frames && twice[..|once|] == once && once[|frames|] == first && twice[|once|] == second;
    StillLitIff(once);
    StillLitIff(twice);
    assert FiresFor(frames, first.settings);
    assert LastReading(once) == if first.captured then Some(Reading(first.luma, true)) else LastReading(frames);
    assert Dark(once) <==> !first.captured || first.luma < DARK_LUMA;
    assert Ahead(twice) ==> Dark(once);
  }

  /** The brightness meant: that of the last frame without any flash. */
  function LastUnlit(frames: seq<Frame>): Option<int> {
    if frames == [] then None else
      var before, f := frames[..|frames| - 1], frames[|frames| - 1];
      if f.captured && f.settings.aeMode == AutoFlash && !Ahead(frames) && !FiresFor(before, f.settings)
      then Some(f.luma) else LastUnlit(before)
  }

  /** Dark and bright are told as meant, unless the reading that counts is a bright one of a lit frame. */
  lemma {:induction false} DarkAsMeantIff(frames: seq<Frame>)
    ensures
      var meant := LastUnlit(frames).Some? && LastUnlit(frames).value < DARK_LUMA;
      var last := LastReading(frames);
      (last.Some? && last.value.lit ==> meant) &&
      ((After(frames, true).control.dark <==> meant) <==>
         !(last.Some? && last.value.lit && last.value.luma >= DARK_LUMA))
  {
    DarkIffLastReading(frames);
    if frames != [] {
      var before, f := frames[..|frames| - 1], frames[|frames| - 1];
      DarkAsMeantIff(before);
      DarkIffLastReading(before);
    }
  }

  /** So a second still capture in the dark may go unlit: the first, lit one counted as bright. */
  lemma SecondStillUnlit()
    ensures
      var dim := Frame(Settings(AutoFlash, OtherFlash, NoTrigger, false, false), 0, true, 10);
      var still := Frame(Settings(AutoFlash, OtherFlash, NoTrigger, true, false), 1, true, 200);
      PlanOf([dim, still], true).lit && !PlanOf([dim, still, still], true).lit
  {
    var dim := Frame(Settings(AutoFlash, OtherFlash, NoTrigger, false, false), 0, true, 10);
    var still := Frame(Settings(AutoFlash, OtherFlash, NoTrigger, true, false), 1, true, 200);
    assert [dim, still][..1] == [dim] && [dim][..0] == [] && [dim, still, still][..2] == [dim, still];
    assert After([dim], true).control.dark;
    assert !After([dim, still], true).control.dark;
  }

  // --- The class -----------------------------------------------------------------------

  class Controller {
    const available: bool
    var precapture: Precapture
    var precaptureStartNs: int
    var preflash: bool
    var lit: bool
    var litSinceNs: int
    var dark: bool

    function View(): Control
      reads this
    {
      Control(precapture, precaptureStartNs, preflash, lit, litSinceNs, dark)
    }

    constructor (available: bool)
      ensures this.available == available && View() == START.control
    {
      this.available := available;
      precapture, precaptureStartNs, preflash, lit, litSinceNs, dark := Idle, 0, false, false, 0, false;
    }

    method BeginFrame(s: Settings, now: int) returns (plan: Plan)
      modifies this
      ensures (View(), plan) == Begin(old(View()), available, s, now)
    {
      if !available {
        return Plan(false, false, 0, if s.aeLock then Locked else Converged);
      }
      ApplyTrigger(s, now);
      var autoFlash := s.aeMode == AutoFlash;
      var light := ChooseLight(s);
      if light.lit && light.wait && (autoFlash || s.aeMode == AlwaysFlash) {
        preflash, precapture := false, Idle;
      }
      if light.lit && !lit {
        litSinceNs := now;
      }
      lit := light.lit;
      var ae := if s.aeLock then Locked
        else if precapture == Running then Precapturing
        else if autoFlash && dark && !light.lit then FlashRequired else Converged;
      plan := Plan(light.lit, light.keep, if light.wait then litSinceNs + SETTLE_NS else 0, ae);
    }

    /** The trigger of a request, and the ends of the precapture sequence. */
    method ApplyTrigger(s: Settings, now: int)
      modifies this
      ensures View() == Triggered(old(View()), s, now)
    {
      var flashAe := s.aeMode == AutoFlash || s.aeMode == AlwaysFlash;
      match s.trigger {
        case Start =>
          precapture, precaptureStartNs, preflash := Running, now, flashAe && (s.aeMode == AutoFlash ==> dark);
        case Cancel =>
          precapture, preflash := Idle, false;
        case NoTrigger =>
      }
      var since := now - precaptureStartNs;
      if precapture == Running && since >= PRECAPTURE_NS {
        precapture := Done;
      }
      if preflash && (!flashAe || since >= PRECAPTURE_NS + PREFLASH_TIMEOUT_NS) {
        preflash := false;
      }
    }

    method ChooseLight(s: Settings) returns (light: Light)
      ensures light == LightFor(View(), s)
    {
      var flashAe := s.aeMode == AutoFlash || s.aeMode == AlwaysFlash;
      light := Light(false, false, false);
      if flashAe {
        if s.still && (s.aeMode == AutoFlash ==> dark) {
          light := Light(true, false, true);
        } else if preflash {
          light := Light(true, true, false);
        }
      } else if s.flashMode == Torch {
        light := Light(true, true, false);
      } else if s.flashMode == Single {
        light := Light(true, false, true);
      }
    }

    /** The flash part of processing one request; ledLit is the session's own flag. */
    method ProcessFrame(f: Frame, ledLit: bool) returns (ledLit': bool)
      requires ledLit == lit && (!available ==> !ledLit)
      modifies this
      ensures Session(View(), ledLit') == Process(Session(old(View()), ledLit), available, f)
    {
      ledLit' := ledLit;
      var plan := BeginFrame(f.settings, f.now);
      ledLit' := LightFlash(plan.lit, ledLit');
      if plan.lit && !plan.keepLit {
        ledLit' := LightFlash(false, ledLit');
        lit := false;
      }
      if f.captured && available && !lit && f.settings.aeMode == AutoFlash {
        dark := f.luma < DARK_LUMA;
      }
    }

    /** LightFlash of the session: nothing to do without a flash or when it is as wanted. */
    method LightFlash(wanted: bool, ledLit: bool) returns (ledLit': bool)
      ensures ledLit' == if available then wanted else ledLit
    {
      if !available || wanted == ledLit {
        return ledLit;
      }
      ledLit' := wanted;
    }
  }
}
