/**
 * The wake lock protocol: events written count up, acknowledgements count down, in any order
 * (interfaces/sensors/mainline/EventDispatcher.cpp).
 */
module WakeLock {
  import opened Common

  const WORD := 0x1_0000_0000

  datatype State = State(outstanding: nat, held: bool, autoRelease: int)

  /** The kernel's answers to acquire_wake_lock and release_wake_lock. */
  datatype Answer = Answer(acquired: bool, released: bool)

  datatype Event =
    | Update(written: int, handled: int, now: int, answer: Answer)
    | Reset

  /** max(0, outstanding + written - handled), stored in 32 bits. */
  function Counted(outstanding: int, written: int, handled: int): (r: nat)
    ensures r < WORD
  {
    if outstanding + written - handled < 0 then 0 else (outstanding + written - handled) % WORD
  }

  function Deadline(s: State, e: Event, timeout: nat): int
    requires e.Update?
  {
    if e.written > 0 then e.now + timeout else s.autoRelease
  }

  /** The update finds the lock held too long. */
  predicate TimesOut(s: State, e: Event, timeout: nat) {
    e.Update? && s.held && e.now > Deadline(s, e, timeout)
  }

  function Next(s: State, e: Event, timeout: nat): State {
    match e
    case Reset => State(0, false, s.autoRelease)
    case Update(written, handled, now, answer) =>
      var n := if TimesOut(s, e, timeout) then 0 else Counted(s.outstanding, written, handled);
      var held := if s.held then n > 0 || !answer.released else n > 0 && answer.acquired;
      State(n, held, Deadline(s, e, timeout))
  }

  const START := State(0, false, 0)

  function After(events: seq<Event>, timeout: nat): State {
    if events == [] then START
    else Next(After(events[..|events| - 1], timeout), events[|events| - 1], timeout)
  }

  /**
   * Only calls that succeed change whether the lock is held: one to acquire it when something is
   * outstanding, one to release it when nothing is. A reset drops it.
   */
  lemma HeldByCalls(s: State, e: Event, timeout: nat)
    ensures
      var t := Next(s, e, timeout);
      (!s.held && t.held <==> !s.held && e.Update? && t.outstanding > 0 && e.answer.acquired) &&
      (s.held && !t.held <==> s.held && (e.Reset? || (t.outstanding == 0 && e.answer.released)))
  {
  }

  // --- What is outstanding -------------------------------------------------------------

  /** What does not fit in the 32 bits of the count. */
  function Lost(outstanding: int, e: Event): int
    requires e.Update?
  {
    var n := outstanding + e.written - e.handled;
    if n < WORD then 0 else n - n % WORD
  }

  /** What each update since the last reset, or timeout, added. */
  function Deltas(events: seq<Event>, timeout: nat): seq<int> {
    if events == [] then [] else
      var before, e := events[..|events| - 1], events[|events| - 1];
      if e.Reset? || TimesOut(After(before, timeout), e, timeout) then []
      else Deltas(before, timeout) + [e.written - e.handled - Lost(After(before, timeout).outstanding, e)]
  }

  function Sum(d: seq<int>): int { if d == [] then 0 else Sum(d[..|d| - 1]) + d[|d| - 1] }

  /** n is the largest sum of a suffix; the empty suffix makes it no less than 0. */
  ghost predicate LargestSuffix(d: seq<int>, n: int) {
    (forall i :: 0 <= i <= |d| ==> Sum(d[i..]) <= n) &&
    (exists i :: 0 <= i <= |d| && Sum(d[i..]) == n)
  }

  lemma SuffixGrows(d: seq<int>, x: int, i: nat)
    requires i <= |d|
    ensures Sum((d + [x])[i..]) == Sum(d[i..]) + x
  {
    assert (d + [x])[i..] == d[i..] + [x];
    assert (d[i..] + [x])[..|d| - i] == d[i..];
  }

  lemma LargestSuffixStep(d: seq<int>, n: int, x: int)
    requires LargestSuffix(d, n)
    ensures LargestSuffix(d + [x], Max(0, n + x))
  {
    var all := d + [x];
    forall i | 0 <= i <= |all| ensures Sum(all[i..]) <= Max(0, n + x) {
      if i <= |d| {
        SuffixGrows(d, x, i);
      }
    }
    if n + x >= 0 {
      var i :| 0 <= i <= |d| && Sum(d[i..]) == n;
      SuffixGrows(d, x, i);
      assert Sum(all[i..]) == n + x;
    } else {
      assert Sum(all[|all|..]) == 0;
    }
  }

  lemma NothingOutstanding()
    ensures LargestSuffix([], 0)
  {
    assert Sum([][0..]) == 0;
  }

  /** Either the counting starts anew, or the last update is one more delta. */
  lemma OutstandingStep(events: seq<Event>, timeout: nat)
    requires events != []
    ensures
      var before, e := events[..|events| - 1], events[|events| - 1];
      if e.Reset? || TimesOut(After(before, timeout), e, timeout)
      then Deltas(events, timeout) == [] && After(events, timeout).outstanding == 0
      else
        var added := e.written - e.handled - Lost(After(before, timeout).outstanding, e);
        Deltas(events, timeout) == Deltas(before, timeout) + [added] &&
        After(events, timeout).outstanding == Max(0, After(before, timeout).outstanding + added)
  {
  }

  /**
   * However writes and acknowledgements interleave, the count is the largest suffix sum of what
   * was written less what was handled, and what 32 bits lost, since the last reset.
   */
  lemma {:induction false} OutstandingIsLargestSuffix(events: seq<Event>, timeout: nat)
    ensures LargestSuffix(Deltas(events, timeout), After(events, timeout).outstanding)
  {
    if events == [] {
      NothingOutstanding();
    } else {
      var before, e := events[..|events| - 1], events[|events| - 1];
      OutstandingIsLargestSuffix(before, timeout);
      OutstandingStep(events, timeout);
      if Deltas(events, timeout) == [] {
        NothingOutstanding();
      } else {
        LargestSuffixStep(Deltas(before, timeout), After(before, timeout).outstanding,
                          e.written - e.handled - Lost(After(before, timeout).outstanding, e));
      }
    }
  }

  /** No update finds so much outstanding that the 32 bit count would wrap. */
  predicate NeverWraps(events: seq<Event>, timeout: nat) {
    events == [] ||
    (var before, e := events[..|events| - 1], events[|events| - 1];
     NeverWraps(before, timeout) &&
     (e.Update? ==> After(before, timeout).outstanding + e.written - e.handled < WORD))
  }

  /** What was written less what was handled, of every update since the last reset or timeout. */
  function Written(events: seq<Event>, timeout: nat): seq<int> {
    if events == [] then [] else
      var before, e := events[..|events| - 1], events[|events| - 1];
      if e.Reset? || TimesOut(After(before, timeout), e, timeout) then []
      else Written(before, timeout) + [e.written - e.handled]
  }

  /** As long as the count never reaches 2^32, nothing is lost. */
  lemma {:induction false} NothingLost(events: seq<Event>, timeout: nat)
    requires NeverWraps(events, timeout)
    ensures Deltas(events, timeout) == Written(events, timeout)
    ensures LargestSuffix(Written(events, timeout), After(events, timeout).outstanding)
  {
    OutstandingIsLargestSuffix(events, timeout);
    if events != [] {
      NothingLost(events[..|events| - 1], timeout);
    }
  }

  /** One update keeps the true count exactly when that fits in 32 bits. */
  lemma CountExact(outstanding: nat, written: int, handled: int)
    ensures Counted(outstanding, written, handled) == Max(0, outstanding + written - handled) <==>
      outstanding + written - handled < WORD
  {
  }

  // --- Who holds the lock --------------------------------------------------------------

  predicate Answered(e: Event) { e.Update? ==> e.answer == Answer(true, true) }

  /**
   * One update whose kernel calls succeed brings the lock in line with the count, from any state:
   * also after earlier calls failed.
   */
  lemma HeldIffOutstanding(s: State, e: Event, timeout: nat)
    requires Answered(e)
    ensures Next(s, e, timeout).held <==> Next(s, e, timeout).outstanding > 0
  {
  }

  lemma RunHeldIffOutstanding(events: seq<Event>, timeout: nat)
    requires events != [] ==> Answered(events[|events| - 1])
    ensures After(events, timeout).held <==> After(events, timeout).outstanding > 0
  {
  }

  /** Held exactly while some suffix of the run wrote more than it handled. */
  lemma HeldIffSuffixPositive(events: seq<Event>, timeout: nat)
    requires events != [] ==> Answered(events[|events| - 1])
    ensures After(events, timeout).held <==>
      exists i :: 0 <= i <= |Deltas(events, timeout)| && Sum(Deltas(events, timeout)[i..]) > 0
  {
    OutstandingIsLargestSuffix(events, timeout);
    RunHeldIffOutstanding(events, timeout);
  }

  // --- The timeout ---------------------------------------------------------------------

  /** When events were last written. */
  function LastWrite(events: seq<Event>): Option<int> {
    if events == [] then None else
      var e := events[|events| - 1];
      if e.Update? && e.written > 0 then Some(e.now) else LastWrite(events[..|events| - 1])
  }

  lemma {:induction false} DeadlineFollowsLastWrite(events: seq<Event>, timeout: nat)
    ensures After(events, timeout).autoRelease ==
      match LastWrite(events) case None => 0 case Some(t) => t + timeout
  {
    if events != [] {
      DeadlineFollowsLastWrite(events[..|events| - 1], timeout);
    }
  }

  /** The first update without a write after the timeout leaves nothing held and nothing counted. */
  lemma TimeoutReleases(events: seq<Event>, e: Event, timeout: nat)
    requires events != [] ==> Answered(events[|events| - 1])
    requires e.Update? && Answered(e) && e.written == 0 && e.handled >= 0
    requires LastWrite(events).Some? ==> e.now > LastWrite(events).value + timeout
    requires LastWrite(events).None? ==> e.now > 0
    ensures After(events + [e], timeout).outstanding == 0 && !After(events + [e], timeout).held
  {
    assert (events + [e])[..|events|] == events;
    RunHeldIffOutstanding(events, timeout);
    DeadlineFollowsLastWrite(events, timeout);
  }

  /** Before the timeout only acknowledgements release the lock: as many as are outstanding. */
  lemma NeverReleasedEarly(events: seq<Event>, e: Event, timeout: nat)
    requires After(events, timeout).held && e.Update?
    requires e.written > 0 || (LastWrite(events).Some? && e.now <= LastWrite(events).value + timeout)
    requires !After(events + [e], timeout).held
    ensures
      var left := After(events, timeout).outstanding + e.written - e.handled;
      left <= 0 || left >= WORD
  {
    assert (events + [e])[..|events|] == events;
    DeadlineFollowsLastWrite(events, timeout);
  }

  // --- The class -----------------------------------------------------------------------

  class EventDispatcher {
    var outstandingWakeUpEvents: nat
    var hasWakeLock: bool
    var autoReleaseTime: int

    const timeoutSeconds: nat

    function View(): State
      reads this
    {
      State(outstandingWakeUpEvents, hasWakeLock, autoReleaseTime)
    }

    constructor (timeoutSeconds: nat)
      ensures View() == START && this.timeoutSeconds == timeoutSeconds
    {
      this.timeoutSeconds := timeoutSeconds;
      outstandingWakeUpEvents, hasWakeLock, autoReleaseTime := 0, false, 0;
    }

    method UpdateWakeLock(written: int, handled: int, now: int, answer: Answer)
      modifies this
      ensures View() == Next(old(View()), Update(written, handled, now, answer), timeoutSeconds)
    {
      var updated := outstandingWakeUpEvents + written - handled;
      outstandingWakeUpEvents := if updated < 0 then 0 else updated % WORD;
      if written > 0 {
        autoReleaseTime := now + timeoutSeconds;
      }
      if !hasWakeLock && outstandingWakeUpEvents > 0 {
        if answer.acquired {
          hasWakeLock := true;
        }
      } else if hasWakeLock {
        if now > autoReleaseTime {
          outstandingWakeUpEvents := 0;
        }
        if outstandingWakeUpEvents == 0 && answer.released {
          hasWakeLock := false;
        }
      }
    }

    /** The reset that Initialize and Shutdown do; a failing release is not looked at. */
    method ResetWakeLock()
      modifies this
      ensures View() == Next(old(View()), Reset, timeoutSeconds)
    {
      outstandingWakeUpEvents := 0;
      if hasWakeLock {
        hasWakeLock := false;
      }
    }
  }
}
