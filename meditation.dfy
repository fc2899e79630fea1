// The meditation timer of app/diary/space/meditation/page.tsx: a setup
// screen choosing the minutes, then a countdown that can be started,
// paused, resumed and reset, and that logs the session's minutes once when
// it ends.
//
// Times are milliseconds as `real`; the clock reading `now` is a parameter
// of each step. Each `setInterval` firing is one call of `Tick`, and each
// React effect that reacts to state is a method the caller runs after the
// state it depends on changed.

module Meditation {
  import opened Common
  import opened Countdown

  /** The minutes a URL parameter asks for: the value of `Number(...)`,
      `None` when it is not finite (an absent parameter reads as 0). */
  type Param = Option<real>

  /** The initial minutes: a finite positive parameter clamped to
      [1, 180], otherwise 10. */
  function InitialMinutes(param: Param): (m: real)
    ensures 1.0 <= m <= 180.0
    ensures param.Some? && 1.0 <= param.value <= 180.0 ==> m == param.value
    ensures param.None? || param.value <= 0.0 ==> m == 10.0
    ensures param.Some? && 0.0 < param.value < 1.0 ==> m == 1.0
  {
    if param.Some? && param.value > 0.0 then ClampNumber(param.value, 1.0, 180.0) else 10.0
  }

  function TotalMs(minutes: real): real {
    minutes * 60.0 * 1000.0
  }

  /** `progress`: the fraction of the session done, in [0, 1]; 0 when the
      total is not positive. */
  function Progress(total: real, remaining: real): (p: real)
    ensures 0.0 <= p <= 1.0
    ensures total <= 0.0 ==> p == 0.0
    ensures total > 0.0 && remaining <= 0.0 ==> p == 1.0
    ensures total > 0.0 && 0.0 <= remaining <= total ==> p * total == total - remaining
  {
    if total <= 0.0 then 0.0
    else
      assert (total - 0.0) / total == 1.0;
      ClampNumber((total - MaxReal(0.0, remaining)) / total, 0.0, 1.0)
  }

  datatype Mode = Setup | Timing

  class Timer {
    var minutes: real
    var mode: Mode
    var running: bool
    var ended: bool
    var remainingMs: real
    /** `endAtRef`: when the running countdown reaches zero; `None` while
        paused or not started. */
    var endAt: Option<real>
    /** `loggedRef`. */
    var logged: bool
    /** The minutes passed to each `meditation.logSession` call. */
    var logs: seq<real>
    /** How many sessions were logged before the last reset. */
    ghost var logsAtReset: nat

    /** The slider is only on the setup screen, which nothing returns to;
        a running countdown has an end time; a session is logged at most
        once between resets. */
    ghost predicate Valid()
      reads this
    {
      && 1.0 <= minutes <= 180.0
      && remainingMs >= 0.0
      && (mode == Setup ==> !running)
      && (running ==> endAt.Some?)
      && |logs| == logsAtReset + (if logged then 1 else 0)
    }

    constructor (param: Param)
      ensures Valid()
      ensures minutes == InitialMinutes(param) && mode == Setup
      ensures !running && !ended && remainingMs == TotalMs(minutes) && endAt.None? && !logged && logs == []
    {
      minutes := InitialMinutes(param);
      mode := Setup;
      running := false;
      ended := false;
      remainingMs := TotalMs(InitialMinutes(param));
      endAt := None;
      logged := false;
      logs := [];
      logsAtReset := 0;
    }

    /** The setup slider (`clampNumber(value, 1, 60)`), followed by the
        effect that re-syncs the countdown with the new total. */
    method SetMinutes(value: real)
      requires Valid() && mode == Setup
      modifies this
      ensures Valid()
      ensures minutes == ClampNumber(value, 1.0, 60.0) && 1.0 <= minutes <= 60.0
      ensures remainingMs == TotalMs(minutes) && !ended && endAt.None?
      ensures mode == old(mode) && running == old(running) && logged == old(logged) && logs == old(logs)
    {
      minutes := ClampNumber(value, 1.0, 60.0);
      remainingMs := TotalMs(minutes);
      ended := false;
      endAt := None;
    }

    /** `start`: nothing while running; otherwise the countdown resumes
        from the time left, keeping an end time already set. */
    method Start(now: real)
      requires Valid()
      modifies this
      ensures Valid()
      ensures old(running) ==> running == old(running) && ended == old(ended) && endAt == old(endAt) && mode == old(mode)
      ensures !old(running) ==> running && !ended && mode == Timing
      ensures !old(running) && old(endAt).None? ==> endAt == Some(now + old(remainingMs))
      ensures !old(running) && old(endAt).Some? ==> endAt == old(endAt)
      ensures remainingMs == old(remainingMs) && minutes == old(minutes) && logged == old(logged) && logs == old(logs)
    {
      if running {
        return;
      }
      ended := false;
      if endAt.None? {
        endAt := Some(now + MaxReal(0.0, remainingMs));
      }
      running := true;
      mode := Timing;
    }

    /** `pause`: nothing unless running; otherwise the time left is frozen
        and the end time cleared. */
    method Pause(now: real)
      requires Valid()
      modifies this
      ensures Valid()
      ensures !old(running) ==> running == old(running) && remainingMs == old(remainingMs) && endAt == old(endAt)
      ensures old(running) ==> !running && endAt.None? && remainingMs == MaxReal(0.0, old(endAt).value - now)
      ensures ended == old(ended) && mode == old(mode) && minutes == old(minutes) && logged == old(logged) && logs == old(logs)
    {
      if !running {
        return;
      }
      var e := endAt;
      if e.Some? {
        remainingMs := MaxReal(0.0, e.value - now);
      }
      endAt := None;
      running := false;
    }

    /** One firing of the 200 ms interval, which exists only while
        running: the time left is refreshed, and at zero the countdown
        stops and ends. */
    method Tick(now: real)
      requires Valid()
      modifies this
      ensures Valid()
      ensures !old(running) ==> running == old(running) && ended == old(ended) && remainingMs == old(remainingMs)
      ensures old(running) && old(endAt).value - now > 0.0 ==>
        running && ended == old(ended) && remainingMs == old(endAt).value - now
      ensures old(running) && old(endAt).value - now <= 0.0 ==> !running && ended && remainingMs == 0.0
      ensures endAt == old(endAt) && mode == old(mode) && minutes == old(minutes) && logged == old(logged) && logs == old(logs)
    {
      if !running {
        return;
      }
      var e := endAt;
      if e.None? {
        return;
      }
      var left := e.value - now;
      remainingMs := left;
      if left <= 0.0 {
        running := false;
        ended := true;
        remainingMs := 0.0;
      }
    }

    /** The effect that rebuilds the end time when running without one; a
        valid timer always has one while running, so there it changes
        nothing. */
    method Rehydrate(now: real)
      modifies this
      ensures running && old(endAt).None? ==> endAt == Some(now + MaxReal(0.0, remainingMs))
      ensures !(running && old(endAt).None?) ==> endAt == old(endAt)
      ensures old(Valid()) ==> endAt == old(endAt) && Valid()
      ensures running == old(running) && ended == old(ended) && remainingMs == old(remainingMs) && logged == old(logged)
      ensures minutes == old(minutes) && mode == old(mode) && logs == old(logs) && logsAtReset == old(logsAtReset)
    {
      if running && endAt.None? {
        endAt := Some(now + MaxReal(0.0, remainingMs));
      }
    }

    /** `reset`. */
    method Reset()
      requires Valid()
      modifies this
      ensures Valid()
      ensures !running && !ended && remainingMs == TotalMs(minutes) && endAt.None? && !logged
      ensures minutes == old(minutes) && mode == old(mode) && logs == old(logs)
    {
      running := false;
      ended := false;
      remainingMs := TotalMs(minutes);
      endAt := None;
      logged := false;
      logsAtReset := |logs|;
    }

    /** The effect that logs an ended session, once, for a signed-in user. */
    method LogIfEnded(user: Option<string>)
      requires Valid()
      modifies this
      ensures Valid()
      ensures ended && !old(logged) && user.Some? ==> logged && logs == old(logs) + [minutes]
      ensures !(ended && !old(logged) && user.Some?) ==> logged == old(logged) && logs == old(logs)
      ensures |logs| <= old(|logs|) + 1
      ensures running == old(running) && ended == old(ended) && remainingMs == old(remainingMs) && endAt == old(endAt)
      ensures minutes == old(minutes) && mode == old(mode)
    {
      if !ended || logged {
        return;
      }
      if user.None? {
        return;
      }
      logged := true;
      logs := logs + [minutes];
    }

    /** The progress bar of the countdown. */
    function ShownProgress(): (p: real)
      reads this
      requires Valid()
      ensures 0.0 <= p <= 1.0
      ensures remainingMs == TotalMs(minutes) ==> p == 0.0
    {
      Progress(TotalMs(minutes), remainingMs)
    }
  }
}
