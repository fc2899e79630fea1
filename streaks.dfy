// The streak engine of convex/journals.ts (`updateUserStreakForToday` and its
// `todayUtcYmd` / `yesterdayUtcYmd` helpers) over the `userStreaks` table.
//
// A day is a UTC calendar day number. The source keys days by their
// `YYYY-MM-DD` rendering and only compares keys for equality with "today" and
// "yesterday"; that rendering is one-to-one, so comparing day numbers is the
// same test. The clock is a parameter: `today` is the current UTC day and
// `now` the current timestamp in milliseconds.

module Streaks {
  import opened Common

  type UserId = string

  type Day = int

  datatype Achievement = Achievement(kind: string, unlockedAt: int, title: string, description: string)

  datatype StreakRecord = StreakRecord(
    user: UserId,
    current: nat,
    longest: nat,
    lastEntryDate: Option<Day>,
    achievements: seq<Achievement>,
    createdAt: int,
    updatedAt: int)

  /** What every stored streak record satisfies: the longest streak is at
      least the current one, and a record with a last entry day has a
      current streak of at least one. */
  predicate WellFormed(r: StreakRecord) {
    r.longest >= r.current && (r.lastEntryDate.Some? ==> r.current >= 1)
  }

  function Yesterday(today: Day): Day { today - 1 }

  function Lookup(rows: map<UserId, StreakRecord>, user: UserId): (r: Option<StreakRecord>)
    ensures r.Some? <==> user in rows
    ensures r.Some? ==> r.value == rows[user]
  {
    if user in rows then Some(rows[user]) else None
  }

  /** The record that `updateUserStreakForToday` leaves behind, given the
      user's record before the call (`None` when there is none). */
  function Credit(prior: Option<StreakRecord>, user: UserId, today: Day, now: int): (r: StreakRecord)
    requires prior.Some? ==> prior.value.user == user
    ensures r.user == user && r.updatedAt == now
    ensures r.lastEntryDate == Some(today)
    ensures prior.Some? ==> r.longest >= prior.value.longest
    ensures prior.Some? ==> r.achievements == prior.value.achievements && r.createdAt == prior.value.createdAt
    ensures prior.None? || WellFormed(prior.value) ==> WellFormed(r)
  {
    match prior
    case None =>
      StreakRecord(user, 1, 1, Some(today), [], now, now)
    case Some(s) =>
      if s.lastEntryDate == Some(today) then
        s.(updatedAt := now)
      else
        var newCurrent := if s.lastEntryDate == Some(Yesterday(today)) then s.current + 1 else 1;
        var newLongest := Max(newCurrent, s.longest);
        s.(current := newCurrent, longest := newLongest, lastEntryDate := Some(today), updatedAt := now)
  }

  /** With no record, a credit creates one with a streak of one day. */
  lemma CreditFirst(user: UserId, today: Day, now: int)
    ensures var r := Credit(None, user, today, now);
      r.current == 1 && r.longest == 1 && r.lastEntryDate == Some(today) && r.achievements == []
  {
  }

  /** A second credit on the same day changes nothing but `updatedAt`. */
  lemma CreditSameDay(prior: Option<StreakRecord>, user: UserId, today: Day, now1: int, now2: int)
    requires prior.Some? ==> prior.value.user == user
    ensures var once := Credit(prior, user, today, now1);
      Credit(Some(once), user, today, now2) == once.(updatedAt := now2)
  {
  }

  /** A credit the day after the last entry extends the streak by one; any
      other earlier last entry (or none) restarts it at one. */
  lemma CreditNextDayOrGap(s: StreakRecord, today: Day, now: int)
    requires s.lastEntryDate != Some(today)
    ensures var r := Credit(Some(s), s.user, today, now);
      && (s.lastEntryDate == Some(today - 1) ==> r.current == s.current + 1)
      && (s.lastEntryDate != Some(today - 1) ==> r.current == 1)
      && r.longest == Max(r.current, s.longest)
  {
  }

  /** Credits on a sequence of days, one call per day in order. */
  function CreditDays(prior: Option<StreakRecord>, user: UserId, days: seq<Day>, now: int): (r: Option<StreakRecord>)
    requires prior.Some? ==> prior.value.user == user
    ensures r.Some? ==> r.value.user == user
    ensures days != [] ==> r.Some?
    ensures days == [] ==> r == prior
  {
    if days == [] then prior
    else Some(Credit(CreditDays(prior, user, days[..|days| - 1], now), user, days[|days| - 1], now))
  }

  /** A record no credit has touched yet: none at all, or the zeroed record
      that user creation inserts. */
  predicate Untouched(prior: Option<StreakRecord>) {
    prior.None? || (prior.value.current == 0 && prior.value.longest == 0 && prior.value.lastEntryDate.None?)
  }

  predicate NonDecreasing(days: seq<Day>) {
    forall i, j :: 0 <= i < j < |days| ==> days[i] <= days[j]
  }

  /** `r` counts the run of consecutive credited days ending at `last`: the
      `r.current` days up to `last` are all in `days`, the day before them is
      not, and no credited day lies after `last`. */
  predicate CountsRun(r: StreakRecord, days: seq<Day>, last: Day) {
    && r.lastEntryDate == Some(last)
    && r.current >= 1
    && (forall d :: last - r.current < d <= last ==> d in days)
    && last - r.current !in days
    && (forall d :: d in days ==> d <= last)
    && r.longest >= r.current
  }

  /** The first credit of an untouched record starts a run of one day. */
  lemma CreditStartsRun(prior: Option<StreakRecord>, user: UserId, t: Day, now: int)
    requires prior.Some? ==> prior.value.user == user
    requires Untouched(prior)
    ensures CountsRun(Credit(prior, user, t, now), [t], t)
  {
    var r := Credit(prior, user, t, now);
    assert r.current == 1;
  }

  /** One more credit, on a day no earlier than the last one, keeps
      `CountsRun`. */
  lemma CreditKeepsRun(p: StreakRecord, days: seq<Day>, l: Day, t: Day, now: int)
    requires CountsRun(p, days, l) && l <= t
    ensures CountsRun(Credit(Some(p), p.user, t, now), days + [t], t)
  {
    var r := Credit(Some(p), p.user, t, now);
    var days' := days + [t];
    if t == l + 1 {
      forall d | t - r.current < d <= t
        ensures d in days'
      {
        if d < t {
          assert d in days;
        }
      }
    }
  }

  /** The streak counts consecutive days: after crediting a non-decreasing
      sequence of days (the clock never runs backwards) on a record no credit
      has touched, the last entry is the last day, the `current` days ending
      there were all credited, the day before them was not, and `longest` is
      at least `current`. */
  lemma {:induction false} CreditDaysCountsRun(prior: Option<StreakRecord>, user: UserId, days: seq<Day>, now: int)
    requires prior.Some? ==> prior.value.user == user
    requires Untouched(prior)
    requires days != [] && NonDecreasing(days)
    ensures CountsRun(CreditDays(prior, user, days, now).value, days, days[|days| - 1])
  {
    var n := |days|;
    var last := days[n - 1];
    var init := days[..n - 1];
    assert days == init + [last];
    var p := CreditDays(prior, user, init, now);
    assert CreditDays(prior, user, days, now) == Some(Credit(p, user, last, now));
    if n == 1 {
      assert p == prior && days == [last];
      CreditStartsRun(prior, user, last, now);
    } else {
      assert NonDecreasing(init) by {
        forall i, j | 0 <= i < j < |init| ensures init[i] <= init[j] {
          assert init[i] == days[i] && init[j] == days[j];
        }
      }
      CreditDaysCountsRun(prior, user, init, now);
      assert init[n - 2] == days[n - 2] <= last;
      CreditKeepsRun(p.value, init, init[n - 2], last, now);
    }
  }

  /** The `userStreaks` table: at most one record per user. */
  class StreakTable {
    var rows: map<UserId, StreakRecord>

    ghost predicate Valid()
      reads this
    {
      forall u :: u in rows ==> rows[u].user == u && WellFormed(rows[u])
    }

    constructor ()
      ensures Valid() && rows == map[]
    {
      rows := map[];
    }

    /** `updateUserStreakForToday`: credit `user` for day `today`. */
    method CreditToday(user: UserId, today: Day, now: int)
      requires Valid()
      modifies this
      ensures Valid()
      ensures rows == old(rows)[user := Credit(Lookup(old(rows), user), user, today, now)]
    {
      if user !in rows {
        rows := rows[user := StreakRecord(user, 1, 1, Some(today), [], now, now)];
        return;
      }
      var streak := rows[user];
      if streak.lastEntryDate == Some(today) {
        rows := rows[user := streak.(updatedAt := now)];
        return;
      }
      var newCurrent := 1;
      if streak.lastEntryDate == Some(Yesterday(today)) {
        newCurrent := streak.current + 1;
      }
      var newLongest := Max(newCurrent, streak.longest);
      rows := rows[user := streak.(current := newCurrent, longest := newLongest,
                                   lastEntryDate := Some(today), updatedAt := now)];
    }
  }
}
