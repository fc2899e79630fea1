// The search page of app/diary/search/page.tsx: a text box, a row of tag
// chips (the spaces of the diary plus a "today" chip), and the arguments it
// passes to `searchUserJournals` (module Journals).
//
// The start of the local day is a parameter (the page reads it from the
// clock and the time zone).

module SearchPage {
  import opened Common
  import Journals

  const TodayKey: string := "today"

  /** Milliseconds in a day. */
  const DayMs: int := 24 * 60 * 60 * 1000

  /** `startEndOfToday`: the day's first and last millisecond. */
  function StartEndOfToday(start: int): (r: (int, int))
    ensures r.0 == start && r.1 == start + DayMs - 1
    ensures r.0 < r.1
  {
    (start, start + DayMs - 1)
  }

  /** `dateRange`: no bounds unless only today's entries are wanted. */
  function DateRange(onlyToday: bool, todayStart: int): (r: (Option<int>, Option<int>))
    ensures !onlyToday ==> r == (None, None)
    ensures onlyToday ==> r == (Some(StartEndOfToday(todayStart).0), Some(StartEndOfToday(todayStart).1))
  {
    if !onlyToday then (None, None)
    else
      var (s, e) := StartEndOfToday(todayStart);
      (Some(s), Some(e))
  }

  /** The query's arguments: an empty text or tag is left out, drafts are
      included, and at most 200 entries are searched. */
  function QueryArgs(q: string, activeTag: Option<string>, onlyToday: bool, todayStart: int): (a: Journals.SearchArgs)
    ensures a.q == (if q == [] then None else Some(q))
    ensures a.tag == (if activeTag.None? || activeTag.value == [] then None else activeTag)
    ensures (a.startTs, a.endTs) == DateRange(onlyToday, todayStart)
    ensures a.includeDrafts == Some(true) && a.limit == Some(200)
  {
    var range := DateRange(onlyToday, todayStart);
    Journals.SearchArgs(if q == [] then None else Some(q),
                        if activeTag.None? || activeTag.value == [] then None else activeTag,
                        range.0, range.1, Some(true), Some(200))
  }

  /** With "today" on, every result was created during today; with a tag
      chosen, every result carries it; drafts are never excluded. */
  lemma SearchResults(entries: seq<Journals.Journal>, user: Journals.UserId, q: string, activeTag: Option<string>,
                      onlyToday: bool, todayStart: int)
    ensures var r := Journals.SearchUserJournals(entries, user, QueryArgs(q, activeTag, onlyToday, todayStart));
      && (onlyToday ==> forall j :: j in r ==> todayStart <= j.createdAt < todayStart + DayMs)
      && (activeTag.Some? && activeTag.value != [] ==> forall j :: j in r ==> activeTag.value in j.tags)
      && |r| <= 200
  {
    Journals.SearchBounds(entries, user, QueryArgs(q, activeTag, onlyToday, todayStart));
  }

  /** With no text, no tag and "today" off, the page lists the user's 200
      newest entries, drafts included, newest first. */
  lemma UnfilteredSearch(entries: seq<Journals.Journal>, user: Journals.UserId, todayStart: int)
    ensures var r := Journals.SearchUserJournals(entries, user, QueryArgs([], None, false, todayStart));
      r == Journals.Window(entries, user, 200)
  {
    var args := QueryArgs([], None, false, todayStart);
    var window := Journals.Window(entries, user, 200);
    assert forall j :: j in window ==> Journals.Matches(j, Journals.ResolveFilters(args));
    Journals.FilterMatchesAll(window, Journals.ResolveFilters(args));
  }

  class Chips {
    var activeTag: Option<string>
    var onlyToday: bool

    constructor ()
      ensures activeTag.None? && !onlyToday
    {
      activeTag := None;
      onlyToday := false;
    }

    /** `toggleTag`: the "today" chip flips the day filter and leaves the
        tag alone; any other chip is chosen, or cleared when it already
        was. */
    method ToggleTag(key: string)
      modifies this
      ensures key == TodayKey ==> onlyToday == !old(onlyToday) && activeTag == old(activeTag)
      ensures key != TodayKey ==> onlyToday == old(onlyToday)
      ensures key != TodayKey && old(activeTag) == Some(key) ==> activeTag.None?
      ensures key != TodayKey && old(activeTag) != Some(key) ==> activeTag == Some(key)
    {
      if key == TodayKey {
        onlyToday := !onlyToday;
        return;
      }
      activeTag := if activeTag == Some(key) then None else Some(key);
    }
  }
}
