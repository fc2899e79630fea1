// The streak widget of components/diary/streak-widget.tsx: a five-day
// capsule that ticks the days belonging to the current streak, the streak
// counts with their plural words, and the achievements list.
//
// Days are day numbers as in the streak engine; "today" is a parameter. The
// locale rendering of dates and weekday labels is a function parameter.

module StreakWidget {
  import opened Common
  import opened Text
  import opened Streaks

  /** `plural(n, word)`: the count, a space, and the word, with an "s"
      unless the count is exactly one. */
  function Plural(n: nat, word: string): (r: string)
    ensures var p := NatToString(n);
      && |r| > |p| && r[..|p|] == p && r[|p|] == ' '
      && r[|p| + 1..] == (if n == 1 then word else word + "s")
  {
    var p := NatToString(n);
    var r := p + " " + word + (if n == 1 then "" else "s");
    assert r[..|p|] == p;
    assert r[|p| + 1..] == word + (if n == 1 then "" else "s");
    r
  }

  /** The count a plural phrase starts with reads back as the count. */
  lemma PluralCount(n: nat, word: string)
    ensures var r := Plural(n, word); var p := NatToString(n);
      IsDigits(r[..|p|]) && DigitsValue(r[..|p|]) == n
  {
    DigitsOfNatToString(n);
  }

  /** `formatDate`: a dash for an absent or empty date, otherwise the
      locale's rendering of it. */
  function FormatDate(d: Option<string>, locale: string -> string): (r: string)
    ensures d.None? || d.value == [] ==> r == "—"
    ensures d.Some? && d.value != [] ==> r == locale(d.value)
  {
    if d.None? || d.value == [] then "—" else locale(d.value)
  }

  /** `windowDays`: the five days ending today, oldest first. */
  function WindowDays(today: Day): (r: seq<Day>)
    ensures |r| == 5 && r[4] == today
    ensures forall i :: 0 <= i < 4 ==> r[i + 1] == r[i] + 1
  {
    seq(5, i requires 0 <= i < 5 => today - (4 - i))
  }

  /** The days of a streak: the `current` days ending at the last entry
      day, none when there is no streak or no last entry day. */
  function StreakDays(streak: Option<StreakRecord>): set<Day> {
    if streak.None? || streak.value.current == 0 || streak.value.lastEntryDate.None? then {}
    else
      var last := streak.value.lastEntryDate.value;
      set d | last - streak.value.current < d <= last && InRun(d, last, streak.value.current)
  }

  /** Day `d` is one of the `n` days ending at `last`. It repeats the
      bounds beside it in `StreakDays`: a set comprehension over bare
      integer bounds has no term for the verifier to trigger on, and this
      predicate is that term. */
  predicate InRun(d: Day, last: Day, n: nat) {
    last - n < d <= last
  }

  /** `checkedSet`: the days of the current streak, counted back from the
      last entry day; empty when there is no streak or no last entry day. */
  method CheckedSet(streak: Option<StreakRecord>) returns (days: set<Day>)
    ensures streak.None? || streak.value.current == 0 || streak.value.lastEntryDate.None? ==> days == {}
    ensures streak.Some? && streak.value.current > 0 && streak.value.lastEntryDate.Some? ==>
      var last := streak.value.lastEntryDate.value;
      && |days| == streak.value.current
      && forall d :: d in days <==> last - streak.value.current < d <= last
    ensures days == StreakDays(streak)
  {
    days := {};
    if streak.None? || streak.value.current == 0 || streak.value.lastEntryDate.None? {
      return;
    }
    var last := streak.value.lastEntryDate.value;
    var i := 0;
    while i < streak.value.current
      invariant 0 <= i <= streak.value.current
      invariant |days| == i
      invariant forall d :: d in days <==> last - i < d <= last
    {
      assert last - i !in days;
      days := days + {last - i};
      i := i + 1;
    }
  }

  datatype DayItem = DayItem(day: Day, caption: string, isChecked: bool)

  /** `dayItems`: each window day with its weekday label, ticked iff it is
      one of the streak's days. */
  function DayItems(window: seq<Day>, checked: set<Day>, weekday: Day -> string): (r: seq<DayItem>)
    ensures |r| == |window|
    ensures forall i :: 0 <= i < |window| ==>
      r[i].day == window[i] && r[i].caption == weekday(window[i]) && (r[i].isChecked <==> window[i] in checked)
  {
    seq(|window|, i requires 0 <= i < |window| => DayItem(window[i], weekday(window[i]), window[i] in checked))
  }

  /** The achievements section shows iff the record has any. */
  function HasAchievements(streak: Option<StreakRecord>): (b: bool)
    ensures b <==> streak.Some? && streak.value.achievements != []
  {
    match streak
    case None => false
    case Some(s) => |s.achievements| > 0
  }

  /** After a journal is credited today, the capsule's last day (today) is
      ticked, and the day before is ticked iff the streak is longer than
      one day. */
  lemma CapsuleAfterCredit(prior: Option<StreakRecord>, user: UserId, today: Day, now: int, weekday: Day -> string)
    requires prior.Some? ==> prior.value.user == user && WellFormed(prior.value)
    ensures var r := Credit(prior, user, today, now);
      var items := DayItems(WindowDays(today), StreakDays(Some(r)), weekday);
      && items[4].day == today && items[4].isChecked
      && items[3].day == today - 1 && (items[3].isChecked <==> r.current > 1)
  {
  }
}
