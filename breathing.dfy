// The breathing log of convex/breathing.ts: one `breathingDaily` row per
// user and UTC date, holding the whole minutes and the number of sessions
// logged that day.
//
// Dates are the source's `YYYY-MM-DD` strings; "today" is a parameter.
// Minutes arrive as real numbers and are rounded with `Math.round`. The
// table is a sequence in creation order, so the `by_clerk_user_id` index in
// descending order is the reverse of the user's rows in the table.

module Breathing {
  import opened Common

  type UserId = string

  type Date = string

  datatype DailyRow = DailyRow(user: UserId, date: Date, minutes: int, sessions: int, createdAt: int, updatedAt: int)

  /** `Math.round`: the nearest integer, halves rounded up. */
  function Round(x: real): (r: int)
    ensures r as real <= x + 0.5 < r as real + 1.0
    ensures x >= 0.0 ==> r >= 0
  {
    (x + 0.5).Floor
  }

  /** What every stored row satisfies. */
  predicate RowOk(r: DailyRow) {
    r.minutes >= 0 && r.sessions >= 1
  }

  /** The `by_user_date` index holds at most one row per user and date. */
  predicate KeysUnique(rows: seq<DailyRow>) {
    forall a, b :: 0 <= a < b < |rows| ==> (rows[a].user, rows[a].date) != (rows[b].user, rows[b].date)
  }

  predicate TableOk(rows: seq<DailyRow>) {
    KeysUnique(rows) && forall k :: 0 <= k < |rows| ==> RowOk(rows[k])
  }

  /** The position of the row for `user` on `date`, if any. */
  function FindDay(rows: seq<DailyRow>, user: UserId, date: Date): (r: Option<nat>)
    ensures r.Some? ==> r.value < |rows| && rows[r.value].user == user && rows[r.value].date == date
    ensures r.None? ==> forall k :: 0 <= k < |rows| ==> rows[k].user != user || rows[k].date != date
  {
    if rows == [] then None
    else if rows[|rows| - 1].user == user && rows[|rows| - 1].date == date then Some(|rows| - 1)
    else FindDay(rows[..|rows| - 1], user, date)
  }

  /** The table after `upsertDaily(user, date, add)`: a new day starts at
      `max(0, round(add))` minutes and one session; an existing day gains
      `round(add)` minutes (never going below zero) and one session. No
      other row changes. */
  function Upsert(rows: seq<DailyRow>, user: UserId, date: Date, add: real, now: int): (r: seq<DailyRow>)
    ensures match FindDay(rows, user, date)
      case None =>
        r == rows + [DailyRow(user, date, Max(0, Round(add)), 1, now, now)]
      case Some(i) =>
        && |r| == |rows|
        && r[i] == rows[i].(minutes := Max(0, rows[i].minutes + Round(add)), sessions := rows[i].sessions + 1, updatedAt := now)
        && forall k :: 0 <= k < |rows| && k != i ==> r[k] == rows[k]
    ensures TableOk(rows) ==> TableOk(r)
  {
    match FindDay(rows, user, date)
    case None =>
      var r := rows + [DailyRow(user, date, Max(0, Round(add)), 1, now, now)];
      assert r[|rows|] == DailyRow(user, date, Max(0, Round(add)), 1, now, now);
      r
    case Some(i) =>
      rows[i := rows[i].(minutes := Max(0, rows[i].minutes + Round(add)), sessions := rows[i].sessions + 1, updatedAt := now)]
  }

  /** The date a session is logged on: the given one, or today when it is
      absent or empty. */
  function SessionDate(date: Option<Date>, today: Date): (d: Date)
    ensures date.Some? && date.value != [] ==> d == date.value
    ensures date.None? || date.value == [] ==> d == today
  {
    if date.Some? && date.value != [] then date.value else today
  }

  /** `logSession`: negative minutes count as zero. The session adds its
      rounded minutes and one session to the totals of the day it is
      logged on (the given date, or today when none is given), starting
      from `(0, 0)` when that day has no row. */
  function LogSession(rows: seq<DailyRow>, user: UserId, minutes: real, date: Option<Date>, today: Date, now: int): (r: seq<DailyRow>)
    ensures TableOk(rows) ==> TableOk(r)
    ensures |rows| <= |r| <= |rows| + 1
    ensures TableOk(rows) ==>
      var before := DayTotals(rows, user, SessionDate(date, today));
      DayTotals(r, user, SessionDate(date, today)) == (before.0 + Round(MaxReal(0.0, minutes)), before.1 + 1)
  {
    var day := SessionDate(date, today);
    var add := MaxReal(0.0, minutes);
    if TableOk(rows) then
      UpsertTotals(rows, user, day, add, now);
      Upsert(rows, user, day, add, now)
    else
      Upsert(rows, user, day, add, now)
  }

  // ---------------------------------------------------------------------
  // A day's totals

  /** The day's stored minutes and sessions, `(0, 0)` when there is no row. */
  function DayTotals(rows: seq<DailyRow>, user: UserId, date: Date): (t: (int, int))
    ensures TableOk(rows) ==> t.0 >= 0
  {
    match FindDay(rows, user, date)
    case None => (0, 0)
    case Some(i) => (rows[i].minutes, rows[i].sessions)
  }

  /** An upsert adds the rounded minutes (never going below zero) and one
      session to the day's totals, starting from `(0, 0)` when the day has
      no row. */
  lemma UpsertTotals(rows: seq<DailyRow>, user: UserId, date: Date, add: real, now: int)
    requires TableOk(rows)
    ensures var before := DayTotals(rows, user, date);
      DayTotals(Upsert(rows, user, date, add, now), user, date) == (Max(0, before.0 + Round(add)), before.1 + 1)
  {
    var r := Upsert(rows, user, date, add, now);
    match FindDay(rows, user, date)
    case None =>
      assert FindDay(r, user, date) == Some(|rows|);
    case Some(i) =>
      FindDayUnique(r, user, date, i);
  }

  /** Sessions logged one after another with the same `date` argument. */
  function LogAll(rows: seq<DailyRow>, user: UserId, date: Option<Date>, sessions: seq<real>, today: Date, now: int): (r: seq<DailyRow>)
    ensures TableOk(rows) ==> TableOk(r)
  {
    if sessions == [] then rows
    else LogSession(LogAll(rows, user, date, sessions[..|sessions| - 1], today, now),
                    user, sessions[|sessions| - 1], date, today, now)
  }

  /** The whole minutes each session contributes. */
  function SumRounded(sessions: seq<real>): (s: int)
    ensures s >= 0
  {
    if sessions == [] then 0
    else SumRounded(sessions[..|sessions| - 1]) + Round(MaxReal(0.0, sessions[|sessions| - 1]))
  }

  /** Logging a session leaves the totals of every other user and day as
      they were. */
  lemma LogSessionOtherDays(rows: seq<DailyRow>, user: UserId, minutes: real, date: Option<Date>, today: Date, now: int,
                            u: UserId, d: Date)
    requires TableOk(rows)
    requires (u, d) != (user, SessionDate(date, today))
    ensures DayTotals(LogSession(rows, user, minutes, date, today, now), u, d) == DayTotals(rows, u, d)
  {
    var r := LogSession(rows, user, minutes, date, today, now);
    var found := FindDay(rows, u, d);
    if found.Some? {
      FindDayUnique(r, u, d, found.value);
    } else {
      assert forall k :: 0 <= k < |r| ==> r[k].user != u || r[k].date != d by {
        forall k | 0 <= k < |r| ensures r[k].user != u || r[k].date != d {
          if k < |rows| {
            assert r[k].user == rows[k].user && r[k].date == rows[k].date;
          }
        }
      }
    }
  }

  /** With keys unique, the row found is the one holding the key. */
  lemma {:induction false} FindDayUnique(rows: seq<DailyRow>, user: UserId, date: Date, i: nat)
    requires KeysUnique(rows)
    requires i < |rows| && rows[i].user == user && rows[i].date == date
    ensures FindDay(rows, user, date) == Some(i)
  {
    var n := |rows| - 1;
    if i < n {
      assert (rows[i].user, rows[i].date) != (rows[n].user, rows[n].date);
      FindDayUnique(rows[..n], user, date, i);
    }
  }

  /** The day's row adds up its sessions: after logging `sessions` on a day
      with no row yet (the given date, or today when none is given), the
      row holds the sum of their rounded, clamped minutes and one session
      per call. */
  lemma {:induction false} LogAllTotals(rows: seq<DailyRow>, user: UserId, date: Option<Date>, sessions: seq<real>, today: Date, now: int)
    requires TableOk(rows)
    requires FindDay(rows, user, SessionDate(date, today)).None?
    ensures DayTotals(LogAll(rows, user, date, sessions, today, now), user, SessionDate(date, today)) == (SumRounded(sessions), |sessions|)
  {
    if sessions != [] {
      var init := sessions[..|sessions| - 1];
      var last := sessions[|sessions| - 1];
      var prev := LogAll(rows, user, date, init, today, now);
      LogAllTotals(rows, user, date, init, today, now);
      LogSessionAdds(prev, LogAll(rows, user, date, sessions, today, now), user, last, date, today, now,
                     SessionDate(date, today), SumRounded(init), |init|);
    }
  }

  /** One more logged session, in terms of the totals before it. */
  lemma LogSessionAdds(prev: seq<DailyRow>, next: seq<DailyRow>, user: UserId, minutes: real, date: Option<Date>,
                       today: Date, now: int, day: Date, m: int, n: int)
    requires TableOk(prev) && next == LogSession(prev, user, minutes, date, today, now)
    requires day == SessionDate(date, today) && DayTotals(prev, user, day) == (m, n)
    ensures DayTotals(next, user, day) == (m + Round(MaxReal(0.0, minutes)), n + 1)
  {
  }

  // ---------------------------------------------------------------------
  // Reading

  /** The user's rows, newest first. */
  function NewestFirst(rows: seq<DailyRow>, user: UserId): (r: seq<DailyRow>)
    ensures forall x :: x in r <==> x in rows && x.user == user
  {
    if rows == [] then []
    else
      var rest := NewestFirst(rows[..|rows| - 1], user);
      assert rows == rows[..|rows| - 1] + [rows[|rows| - 1]];
      if rows[|rows| - 1].user == user then [rows[|rows| - 1]] + rest else rest
  }

  /** The window `getRecent` reads: `days` (14 by default) clamped to
      between 1 and 60. */
  function RecentDays(days: Option<int>): (d: int)
    ensures 1 <= d <= 60
    ensures days.None? ==> d == 14
    ensures days.Some? && 1 <= days.value <= 60 ==> d == days.value
  {
    Max(1, Min(60, days.GetOr(14)))
  }

  /** `getRecent`: the user's newest `2 * days` rows. */
  function GetRecent(rows: seq<DailyRow>, user: UserId, days: Option<int>): (r: seq<DailyRow>)
    ensures |r| <= 2 * RecentDays(days) && |r| <= 120
    ensures forall x :: x in r ==> x in rows && x.user == user
    ensures var all := NewestFirst(rows, user); |r| <= |all| && r == all[..|r|]
    ensures |r| < 2 * RecentDays(days) ==> forall x :: x in rows && x.user == user ==> x in r
  {
    var all := NewestFirst(rows, user);
    var n := 2 * RecentDays(days);
    if n < |all| then all[..n] else all
  }

  // ---------------------------------------------------------------------
  // The table

  class DailyTable {
    var rows: seq<DailyRow>

    ghost predicate Valid()
      reads this
    {
      TableOk(rows)
    }

    constructor ()
      ensures Valid() && rows == []
    {
      rows := [];
    }

    /** `upsertDaily`. */
    method UpsertDaily(user: UserId, date: Date, add: real, now: int)
      requires Valid()
      modifies this
      ensures Valid()
      ensures rows == Upsert(old(rows), user, date, add, now)
    {
      var existing := FindDay(rows, user, date);
      if existing.None? {
        rows := rows + [DailyRow(user, date, Max(0, Round(add)), 1, now, now)];
        return;
      }
      var i := existing.value;
      rows := rows[i := rows[i].(minutes := Max(0, rows[i].minutes + Round(add)),
                                 sessions := rows[i].sessions + 1, updatedAt := now)];
    }

    /** `logSession`: always reports success. */
    method LogSessionNow(user: UserId, minutes: real, date: Option<Date>, today: Date, now: int) returns (ok: bool)
      requires Valid()
      modifies this
      ensures Valid()
      ensures rows == LogSession(old(rows), user, minutes, date, today, now)
      ensures ok
    {
      var day := if date.Some? && date.value != [] then date.value else today;
      UpsertDaily(user, day, MaxReal(0.0, minutes), now);
      return true;
    }
  }
}
