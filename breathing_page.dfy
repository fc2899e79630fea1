// The breathing exercise of app/diary/space/breathing/page.tsx: the session
// length and the inhale / hold / exhale seconds (from the URL, the inputs
// or a preset), a countdown, and the loop that shows the phases of each
// breathing cycle until the time is up.
//
// Times are milliseconds as `real`; clock readings are parameters. The
// phase loop runs asynchronously in the source; here `RunLoop` is given the
// clock reading at each check of its `while` condition, and records the
// phases it shows in `shown`. The animation itself is not modelled.

module BreathingPage {
  import opened Common
  import opened Countdown

  datatype Phase = Inhale | Hold | Exhale

  /** The value of `Number(...)` of a URL parameter, `None` when it is not
      finite; an absent parameter reads as 0. */
  type Param = Option<real>

  datatype Settings = Settings(minutes: real, inhale: real, hold: real, exhale: real)

  predicate SettingsOk(s: Settings) {
    && 1.0 <= s.minutes <= 60.0
    && 1.0 <= s.inhale <= 30.0
    && 0.0 <= s.hold <= 30.0
    && 1.0 <= s.exhale <= 30.0
  }

  /** A parameter clamped to [lo, hi] when finite and at least `least`
      (strictly above it when `strict`), otherwise the default. */
  function ParamOr(p: Param, least: real, strict: bool, lo: real, hi: real, default: real): (v: real)
    requires lo <= hi && lo <= default <= hi
    ensures lo <= v <= hi
    ensures p.Some? && lo <= p.value <= hi && (if strict then p.value > least else p.value >= least) ==> v == p.value
    ensures p.None? || (if strict then p.value <= least else p.value < least) ==> v == default
  {
    if p.Some? && (if strict then p.value > least else p.value >= least) then ClampNumber(p.value, lo, hi) else default
  }

  /** The settings read from the URL: minutes in [1, 60] (3 by default),
      inhale and exhale in [1, 30] (4 by default), hold in [0, 30] (0 by
      default). */
  function InitialSettings(minutes: Param, inhale: Param, hold: Param, exhale: Param): (s: Settings)
    ensures SettingsOk(s)
    ensures minutes.None? || minutes.value <= 0.0 ==> s.minutes == 3.0
    ensures inhale.None? || inhale.value < 1.0 ==> s.inhale == 4.0
    ensures hold.None? || hold.value < 0.0 ==> s.hold == 0.0
    ensures exhale.None? || exhale.value < 1.0 ==> s.exhale == 4.0
    ensures minutes.Some? && 1.0 <= minutes.value <= 60.0 ==> s.minutes == minutes.value
    ensures inhale.Some? && 1.0 <= inhale.value <= 30.0 ==> s.inhale == inhale.value
    ensures hold.Some? && 0.0 <= hold.value <= 30.0 ==> s.hold == hold.value
    ensures exhale.Some? && 1.0 <= exhale.value <= 30.0 ==> s.exhale == exhale.value
  {
    Settings(ParamOr(minutes, 0.0, true, 1.0, 60.0, 3.0),
             ParamOr(inhale, 1.0, false, 1.0, 30.0, 4.0),
             ParamOr(hold, 0.0, false, 0.0, 30.0, 0.0),
             ParamOr(exhale, 1.0, false, 1.0, 30.0, 4.0))
  }

  datatype Preset = Box | FourSevenEight | Calm

  /** `setPreset`: the inhale, hold and exhale seconds of each preset. */
  function PresetTimes(p: Preset): (t: (real, real, real))
    ensures p == Box ==> t == (4.0, 4.0, 4.0)
    ensures p == FourSevenEight ==> t == (4.0, 7.0, 8.0)
    ensures p == Calm ==> t == (4.0, 0.0, 6.0)
    ensures 1.0 <= t.0 <= 30.0 && 0.0 <= t.1 <= 30.0 && 1.0 <= t.2 <= 30.0
  {
    match p
    case Box => (4.0, 4.0, 4.0)
    case FourSevenEight => (4.0, 7.0, 8.0)
    case Calm => (4.0, 0.0, 6.0)
  }

  /** The phases one pass of the loop shows: inhale, hold only when the
      hold time is positive, then exhale. */
  function CyclePhases(hold: real): (r: seq<Phase>)
    ensures 2 <= |r| <= 3 && r[0] == Inhale && r[|r| - 1] == Exhale
    ensures Hold in r <==> hold > 0.0
    ensures hold > 0.0 ==> r == [Inhale, Hold, Exhale]
    ensures hold <= 0.0 ==> r == [Inhale, Exhale]
  {
    if hold > 0.0 then [Inhale, Hold, Exhale] else [Inhale, Exhale]
  }

  /** `n` cycles one after another. */
  function Repeat(cycle: seq<Phase>, n: nat): (r: seq<Phase>)
    ensures |r| == n * |cycle|
  {
    if n == 0 then [] else Repeat(cycle, n - 1) + cycle
  }

  /** Position `i * |c| + j` of `n` cycles of `hold` shows phase `j` of the
      cycle: every cycle starts with an inhale, ends with an exhale and
      holds in between exactly when the hold time is positive. */
  lemma {:induction false} RepeatPhases(hold: real, n: nat, i: nat)
    requires i < n
    ensures var c := CyclePhases(hold);
      && (i + 1) * |c| <= n * |c|
      && forall j :: 0 <= j < |c| ==> Repeat(c, n)[i * |c| + j] == c[j]
  {
    var c := CyclePhases(hold);
    var r := Repeat(c, n);
    assert r == Repeat(c, n - 1) + c;
    if i < n - 1 {
      RepeatPhases(hold, n - 1, i);
      assert (i + 1) * |c| <= (n - 1) * |c|;
      forall j | 0 <= j < |c| ensures r[i * |c| + j] == c[j] {
        assert r[i * |c| + j] == Repeat(c, n - 1)[i * |c| + j];
      }
    } else {
      assert i * |c| == (n - 1) * |c|;
    }
  }

  /** The loop's condition: an end time is set and the clock is before it. */
  predicate Ahead(endAt: Option<real>, now: real) {
    endAt.Some? && now < endAt.value
  }

  function TotalMs(minutes: real): real {
    minutes * 60.0 * 1000.0
  }

  class Session {
    var settings: Settings
    var running: bool
    var ended: bool
    var phase: Phase
    var remainingMs: real
    /** `endAtRef`: when the countdown reaches zero; `None` while paused or
        not started. */
    var endAt: Option<real>
    /** The phases shown so far, oldest first. */
    ghost var shown: seq<Phase>

    ghost predicate Valid()
      reads this
    {
      SettingsOk(settings)
    }

    /** The page as mounted, after the effect that sets the time left to
        the whole session. */
    constructor (minutes: Param, inhale: Param, hold: Param, exhale: Param)
      ensures Valid()
      ensures settings == InitialSettings(minutes, inhale, hold, exhale)
      ensures !running && !ended && phase == Inhale && remainingMs == TotalMs(settings.minutes) && endAt.None? && shown == []
    {
      settings := InitialSettings(minutes, inhale, hold, exhale);
      running := false;
      ended := false;
      phase := Inhale;
      remainingMs := TotalMs(InitialSettings(minutes, inhale, hold, exhale).minutes);
      endAt := None;
      shown := [];
    }

    /** The minutes input (disabled while running), clamped to [1, 60],
        followed by the effect on `totalMs`, which resets the time left to
        the new total only when the total changes: a paused or ended
        session whose minutes stay the same keeps its time left. */
    method SetMinutes(value: real)
      requires Valid() && !running
      modifies this
      ensures Valid()
      ensures settings == old(settings).(minutes := ClampNumber(value, 1.0, 60.0))
      ensures remainingMs == if settings.minutes != old(settings.minutes) then TotalMs(settings.minutes) else old(remainingMs)
      ensures running == old(running) && ended == old(ended) && phase == old(phase) && endAt == old(endAt) && shown == old(shown)
    {
      var m := ClampNumber(value, 1.0, 60.0);
      if TotalMs(m) != TotalMs(settings.minutes) {
        remainingMs := TotalMs(m);
      }
      settings := settings.(minutes := m);
    }

    /** The inhale, hold and exhale inputs (disabled while running), each
        clamped to its range. */
    method SetTimes(inhale: real, hold: real, exhale: real)
      requires Valid() && !running
      modifies this
      ensures Valid()
      ensures settings == old(settings).(inhale := ClampNumber(inhale, 1.0, 30.0), hold := ClampNumber(hold, 0.0, 30.0),
                                         exhale := ClampNumber(exhale, 1.0, 30.0))
      ensures running == old(running) && ended == old(ended) && phase == old(phase) && remainingMs == old(remainingMs)
      ensures endAt == old(endAt) && shown == old(shown)
    {
      settings := settings.(inhale := ClampNumber(inhale, 1.0, 30.0), hold := ClampNumber(hold, 0.0, 30.0),
                            exhale := ClampNumber(exhale, 1.0, 30.0));
    }

    /** A preset button (disabled while running). */
    method SetPreset(p: Preset)
      requires Valid() && !running
      modifies this
      ensures Valid()
      ensures settings == old(settings).(inhale := PresetTimes(p).0, hold := PresetTimes(p).1, exhale := PresetTimes(p).2)
      ensures running == old(running) && ended == old(ended) && phase == old(phase) && remainingMs == old(remainingMs)
      ensures endAt == old(endAt) && shown == old(shown)
    {
      var t := PresetTimes(p);
      settings := settings.(inhale := t.0, hold := t.1, exhale := t.2);
    }

    /** `reset`. */
    method Reset()
      requires Valid()
      modifies this
      ensures Valid()
      ensures !running && !ended && phase == Inhale && remainingMs == TotalMs(settings.minutes) && endAt.None?
      ensures settings == old(settings) && shown == old(shown)
    {
      running := false;
      phase := Inhale;
      remainingMs := TotalMs(settings.minutes);
      ended := false;
      endAt := None;
    }

    /** The synchronous part of `start`: nothing while running; otherwise
        running, not ended, and an end time of now plus the time left
        unless one is already set. */
    method Start(now: real)
      requires Valid()
      modifies this
      ensures Valid()
      ensures old(running) ==> running && ended == old(ended) && endAt == old(endAt)
      ensures !old(running) ==> running && !ended
      ensures !old(running) && old(endAt).None? ==> endAt == Some(now + remainingMs)
      ensures !old(running) && old(endAt).Some? ==> endAt == old(endAt)
      ensures settings == old(settings) && phase == old(phase) && remainingMs == old(remainingMs) && shown == old(shown)
    {
      if running {
        return;
      }
      ended := false;
      running := true;
      if endAt.None? {
        endAt := Some(now + remainingMs);
      }
    }

    /** The cycles of the phase loop: while the check at clock reading
        `checks[k]` finds an end time still ahead, one cycle of phases is
        shown. Returns how many cycles ran; the loop is left when
        `cycles < |checks|`. */
    method RunCycles(checks: seq<real>) returns (cycles: nat)
      requires Valid()
      modifies this
      ensures Valid()
      ensures cycles <= |checks|
      ensures forall k :: 0 <= k < cycles ==> Ahead(endAt, checks[k])
      ensures cycles < |checks| ==> !Ahead(endAt, checks[cycles])
      ensures endAt.None? ==> cycles == 0
      ensures shown == old(shown) + Repeat(CyclePhases(settings.hold), cycles)
      ensures cycles > 0 ==> phase == Exhale
      ensures cycles == 0 ==> phase == old(phase)
      ensures settings == old(settings) && running == old(running) && ended == old(ended)
      ensures remainingMs == old(remainingMs) && endAt == old(endAt)
    {
      cycles := 0;
      while cycles < |checks| && Ahead(endAt, checks[cycles])
        invariant cycles <= |checks|
        invariant forall k :: 0 <= k < cycles ==> Ahead(endAt, checks[k])
        invariant endAt.None? ==> cycles == 0
        invariant shown == old(shown) + Repeat(CyclePhases(settings.hold), cycles)
        invariant cycles > 0 ==> phase == Exhale
        invariant cycles == 0 ==> phase == old(phase)
        invariant settings == old(settings) && running == old(running) && ended == old(ended)
        invariant remainingMs == old(remainingMs) && endAt == old(endAt)
        invariant Valid()
      {
        shown := shown + CyclePhases(settings.hold);
        phase := Exhale;
        cycles := cycles + 1;
      }
    }

    /** The phase loop as written: once a check finds no end time ahead,
        whether because time is up or because the session was paused (which
        clears the end time), the session stops and is marked ended. */
    method RunLoopAsWritten(checks: seq<real>) returns (cycles: nat)
      requires Valid()
      modifies this
      ensures Valid()
      ensures cycles <= |checks| && shown == old(shown) + Repeat(CyclePhases(settings.hold), cycles)
      ensures endAt.None? ==> cycles == 0
      ensures cycles < |checks| ==> !running && ended
      ensures cycles == |checks| ==> running == old(running) && ended == old(ended)
      ensures settings == old(settings) && remainingMs == old(remainingMs) && endAt == old(endAt)
    {
      cycles := RunCycles(checks);
      if cycles < |checks| {
        running := false;
        ended := true;
      }
    }

    /** The phase loop, ending the session only when its time is up: a
        check that finds the end time cleared by `pause` leaves the loop
        with the session paused, not ended. */
    method RunLoop(checks: seq<real>) returns (cycles: nat)
      requires Valid()
      modifies this
      ensures Valid()
      ensures cycles <= |checks| && shown == old(shown) + Repeat(CyclePhases(settings.hold), cycles)
      ensures forall k :: 0 <= k < cycles ==> Ahead(endAt, checks[k])
      ensures cycles < |checks| && endAt.Some? ==> checks[cycles] >= endAt.value && !running && ended
      ensures endAt.None? ==> cycles == 0
      ensures cycles < |checks| && endAt.None? ==> !running && ended == old(ended)
      ensures cycles == |checks| ==> running == old(running) && ended == old(ended)
      ensures settings == old(settings) && remainingMs == old(remainingMs) && endAt == old(endAt)
    {
      cycles := RunCycles(checks);
      if cycles < |checks| {
        running := false;
        if endAt.Some? {
          ended := true;
        }
      }
    }

    /** `pause`: nothing unless running; otherwise stopped, with the time
        left frozen and the end time cleared. */
    method Pause(now: real)
      requires Valid()
      modifies this
      ensures Valid()
      ensures !old(running) ==> running == old(running) && remainingMs == old(remainingMs) && endAt == old(endAt)
      ensures old(running) && old(endAt).Some? ==> remainingMs == MaxReal(0.0, old(endAt).value - now)
      ensures old(running) && old(endAt).None? ==> remainingMs == old(remainingMs)
      ensures old(running) ==> !running && endAt.None?
      ensures settings == old(settings) && ended == old(ended) && phase == old(phase) && shown == old(shown)
    {
      if !running {
        return;
      }
      running := false;
      var e := endAt;
      if e.Some? {
        remainingMs := MaxReal(0.0, e.value - now);
        endAt := None;
      }
    }

    /** One firing of the 200 ms interval while running: the time left is
        refreshed, and at zero or below the session stops and ends. */
    method Tick(now: real)
      requires Valid()
      modifies this
      ensures Valid()
      ensures !old(running) || old(endAt).None? ==> running == old(running) && ended == old(ended) && remainingMs == old(remainingMs)
      ensures old(running) && old(endAt).Some? ==> remainingMs == old(endAt).value - now
      ensures old(running) && old(endAt).Some? && old(endAt).value - now <= 0.0 ==> !running && ended
      ensures old(running) && old(endAt).Some? && old(endAt).value - now > 0.0 ==> running && ended == old(ended)
      ensures settings == old(settings) && endAt == old(endAt) && phase == old(phase) && shown == old(shown)
    {
      if !running {
        return;
      }
      var e := endAt;
      if e.None? {
        return;
      }
      var left := e.value - now;
      remainingMs := left;
      if left <= 0.0 {
        running := false;
        ended := true;
      }
    }
  }

  /** As written, pausing a session one second in and letting the loop
      make its next check marks the session ended ("Done") although
      almost all of its time is left. */
  method PausedSessionAsWritten(now: real) returns (ended: bool, remainingMs: real)
    ensures ended && remainingMs > 0.0
  {
    var s := new Session(None, None, None, None);
    s.Start(now);
    s.Pause(now + 1000.0);
    var _ := s.RunLoopAsWritten([now + 1000.0]);
    ended, remainingMs := s.ended, s.remainingMs;
  }

  /** With the corrected loop, the same steps leave the session paused. */
  method PausedSession(now: real) returns (running: bool, ended: bool, remainingMs: real)
    ensures !running && !ended && remainingMs == TotalMs(3.0) - 1000.0
  {
    var s := new Session(None, None, None, None);
    s.Start(now);
    s.Pause(now + 1000.0);
    var _ := s.RunLoop([now + 1000.0]);
    running, ended, remainingMs := s.running, s.ended, s.remainingMs;
  }
}
