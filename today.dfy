// The today page of app/diary/today/page.tsx: the greeting for the hour,
// the two-week day strip, and the four six-hour columns that show the day's
// events and a line at the current time.
//
// The clock is a parameter: `hour` is the local hour, `activeHour` the
// local time of day in hours, `today` a day number and `weekday` its day of
// the week (0 for Sunday). Events use the "HH:MM" parsing and the columns
// of module TimeBlock.

module TodayPage {
  import opened Common
  import TimeBlock

  type Day = int

  /** `useGreeting`. */
  function Greeting(hour: int): (g: string)
    ensures g == "good morning." <==> hour < 12
    ensures g == "good afternoon." <==> 12 <= hour < 18
    ensures g == "good evening." <==> 18 <= hour < 22
    ensures g == "good night." <==> hour >= 22
  {
    if hour < 12 then "good morning."
    else if hour < 18 then "good afternoon."
    else if hour < 22 then "good evening."
    else "good night."
  }

  /** `weekDays`: fourteen days from the Sunday that starts this week. */
  function WeekDays(today: Day, weekday: int): (r: seq<Day>)
    requires 0 <= weekday < 7
    ensures |r| == 14 && r[0] == today - weekday && r[weekday] == today
    ensures forall i :: 0 <= i < 13 ==> r[i + 1] == r[i] + 1
  {
    seq(14, i requires 0 <= i < 14 => today - weekday + i)
  }

  /** Exactly one day of the strip is today: the one at `weekday`. */
  lemma {:induction false} TodayOnceInStrip(today: Day, weekday: int)
    requires 0 <= weekday < 7
    ensures forall i :: 0 <= i < 14 ==> (WeekDays(today, weekday)[i] == today <==> i == weekday)
  {
    var r := WeekDays(today, weekday);
    forall i | 0 <= i < 14 ensures r[i] == today - weekday + i {
    }
  }

  /** The hour lines drawn in the column starting at hour `c`. */
  function GridHours(c: int): (r: seq<int>)
    ensures |r| == 6 && forall k :: 0 <= k < 6 ==> r[k] == c + k
  {
    seq(6, k requires 0 <= k < 6 => c + k)
  }

  /** An event as drawn in a column. */
  datatype Drawn = Drawn(id: string, top: real, height: Option<real>, active: bool)

  /** The events of column `c`: those whose start parses into the column,
      in their given order, each placed by its start and marked active
      when the current time is inside it. An end that does not parse
      leaves the height undefined and the event inactive. */
  function ColumnEvents(events: seq<TimeBlock.DisplayEvent>, c: real, activeHour: real): (r: seq<Drawn>)
    ensures |r| <= |events|
    ensures forall d :: d in r ==> 0.0 <= d.top < 100.0
    ensures forall d :: d in r ==> d.active ==> ActiveIn(events, activeHour, d.id)
  {
    if events == [] then []
    else
      var rest := ColumnEvents(events[1..], c, activeHour);
      var e := events[0];
      var s := TimeBlock.ParseHM(e.start);
      ActiveInCons(events, activeHour);
      if s.Some? && TimeBlock.InColumn(s.value, c) then [Draw(e, s.value, c, activeHour)] + rest
      else rest
  }

  /** An event starting at `s` in column `c`: its top is the start's
      offset into the column in percent, its height the duration in
      percent when the end parses, and it is active exactly while the
      current time is in [start, end). */
  function Draw(e: TimeBlock.DisplayEvent, s: real, c: real, activeHour: real): (d: Drawn)
    requires TimeBlock.InColumn(s, c)
    ensures d.id == e.id && d.active == Active(e, activeHour)
    ensures d.top == (s - c) / TimeBlock.ColumnHours * 100.0 && 0.0 <= d.top < 100.0
    ensures d.height.Some? <==> TimeBlock.ParseHM(e.end).Some?
    ensures d.height.Some? ==> d.height.value == (TimeBlock.ParseHM(e.end).value - s) / TimeBlock.ColumnHours * 100.0
    ensures TimeBlock.ParseHM(e.start) == Some(s) ==>
      (d.active <==> TimeBlock.ParseHM(e.end).Some? && s <= activeHour < TimeBlock.ParseHM(e.end).value)
  {
    var f := TimeBlock.ParseHM(e.end);
    Drawn(e.id, (s - c) / TimeBlock.ColumnHours * 100.0,
          if f.Some? then Some((f.value - s) / TimeBlock.ColumnHours * 100.0) else None,
          Active(e, activeHour))
  }

  /** The filter and the map for one event: drawn when its start parses
      into column `c`. */
  function Place(e: TimeBlock.DisplayEvent, c: real, activeHour: real): (p: Option<Drawn>)
    ensures p.Some? <==> TimeBlock.ParseHM(e.start).Some? && TimeBlock.InColumn(TimeBlock.ParseHM(e.start).value, c)
    ensures p.Some? ==> p.value == Draw(e, TimeBlock.ParseHM(e.start).value, c, activeHour)
  {
    var s := TimeBlock.ParseHM(e.start);
    if s.Some? && TimeBlock.InColumn(s.value, c) then Some(Draw(e, s.value, c, activeHour)) else None
  }

  function PlaceIn(c: real, activeHour: real): TimeBlock.DisplayEvent -> Option<Drawn> {
    e => Place(e, c, activeHour)
  }

  /** A column's events are the `filter` then `map` of the source: each
      event whose start parses into the column, drawn, in the given
      order. */
  lemma {:induction false} ColumnEventsInOrder(events: seq<TimeBlock.DisplayEvent>, c: real, activeHour: real)
    ensures ColumnEvents(events, c, activeHour) == FilterMap(events, PlaceIn(c, activeHour))
  {
    if events != [] {
      ColumnEventsInOrder(events[1..], c, activeHour);
      FilterMapCons(events, PlaceIn(c, activeHour));
    }
  }

  /** An event whose start parses into the column is drawn there, with
      the top, height and activity that `Draw` states. */
  lemma EventShown(events: seq<TimeBlock.DisplayEvent>, c: real, activeHour: real, k: int, s: real)
    requires 0 <= k < |events| && TimeBlock.ParseHM(events[k].start) == Some(s) && TimeBlock.InColumn(s, c)
    ensures Draw(events[k], s, c, activeHour) in ColumnEvents(events, c, activeHour)
  {
    var d := Draw(events[k], s, c, activeHour);
    ColumnEventsInOrder(events, c, activeHour);
    assert PlaceIn(c, activeHour)(events[k]) == Some(d);
    FilterMapExactly(events, PlaceIn(c, activeHour), d);
  }

  /** An event is active while the current time is in [start, end). */
  predicate Active(e: TimeBlock.DisplayEvent, activeHour: real) {
    && TimeBlock.ParseHM(e.start).Some? && TimeBlock.ParseHM(e.end).Some?
    && TimeBlock.ParseHM(e.start).value <= activeHour < TimeBlock.ParseHM(e.end).value
  }

  /** Some event with id `id` is active at `activeHour`. */
  ghost predicate ActiveIn(events: seq<TimeBlock.DisplayEvent>, activeHour: real, id: string) {
    exists e :: e in events && e.id == id && Active(e, activeHour)
  }

  /** An active head, or an active event of the tail, is an active event
      of the list. */
  lemma ActiveInCons(events: seq<TimeBlock.DisplayEvent>, activeHour: real)
    requires events != []
    ensures Active(events[0], activeHour) ==> ActiveIn(events, activeHour, events[0].id)
    ensures forall id :: ActiveIn(events[1..], activeHour, id) ==> ActiveIn(events, activeHour, id)
  {
    assert events[0] in events;
    forall id | ActiveIn(events[1..], activeHour, id) ensures ActiveIn(events, activeHour, id) {
      var e :| e in events[1..] && e.id == id && Active(e, activeHour);
      assert e in events;
    }
  }

  /** Column `c` draws an event with id `id`. */
  predicate DrawnIn(events: seq<TimeBlock.DisplayEvent>, c: real, activeHour: real, id: string) {
    exists d :: d in ColumnEvents(events, c, activeHour) && d.id == id
  }

  /** An event is drawn in a column iff its start parses into that
      column. */
  lemma {:induction false} DrawnIffInColumn(events: seq<TimeBlock.DisplayEvent>, c: real, activeHour: real, e: TimeBlock.DisplayEvent)
    requires e in events
    requires forall k :: 0 <= k < |events| && events[k].id == e.id ==> events[k] == e
    ensures DrawnIn(events, c, activeHour, e.id) <==>
      TimeBlock.ParseHM(e.start).Some? && TimeBlock.InColumn(TimeBlock.ParseHM(e.start).value, c)
  {
    var r := ColumnEvents(events, c, activeHour);
    var s := TimeBlock.ParseHM(events[0].start);
    if events[0] == e {
      if s.Some? && TimeBlock.InColumn(s.value, c) {
        assert r[0].id == e.id;
      } else if e in events[1..] {
        DrawnIffInColumn(events[1..], c, activeHour, e);
      } else {
        assert forall d :: d in r ==> d in ColumnEvents(events[1..], c, activeHour);
        IdsFromEvents(events[1..], c, activeHour);
      }
    } else {
      assert e in events[1..];
      forall k | 0 <= k < |events[1..]| && events[1..][k].id == e.id ensures events[1..][k] == e {
        assert events[1..][k] == events[k + 1];
      }
      DrawnIffInColumn(events[1..], c, activeHour, e);
      if s.Some? && TimeBlock.InColumn(s.value, c) {
        assert events[0].id != e.id;
      }
    }
  }

  /** Every event drawn comes from one of the given events. */
  lemma {:induction false} IdsFromEvents(events: seq<TimeBlock.DisplayEvent>, c: real, activeHour: real)
    ensures forall d :: d in ColumnEvents(events, c, activeHour) ==> exists e :: e in events && e.id == d.id
  {
    if events != [] {
      IdsFromEvents(events[1..], c, activeHour);
      forall d | d in ColumnEvents(events, c, activeHour) ensures exists e :: e in events && e.id == d.id {
        if d in ColumnEvents(events[1..], c, activeHour) {
          var e :| e in events[1..] && e.id == d.id;
          assert e in events;
        } else {
          assert d.id == events[0].id;
        }
      }
    }
  }

  /** An event starting during the day is drawn in exactly one column. */
  lemma DrawnInOneColumn(events: seq<TimeBlock.DisplayEvent>, activeHour: real, e: TimeBlock.DisplayEvent, s: real)
    requires e in events
    requires forall k :: 0 <= k < |events| && events[k].id == e.id ==> events[k] == e
    requires TimeBlock.ParseHM(e.start) == Some(s) && 0.0 <= s < 24.0
    ensures exists c :: c in TimeBlock.Columns && DrawnIn(events, c, activeHour, e.id)
    ensures forall c1, c2 ::
      (&& c1 in TimeBlock.Columns && c2 in TimeBlock.Columns
       && DrawnIn(events, c1, activeHour, e.id) && DrawnIn(events, c2, activeHour, e.id)) ==> c1 == c2
  {
    TimeBlock.ExactlyOneColumn(s);
    var c :| c in TimeBlock.Columns && TimeBlock.InColumn(s, c);
    DrawnIffInColumn(events, c, activeHour, e);
    forall c1, c2 |
      && c1 in TimeBlock.Columns && c2 in TimeBlock.Columns
      && DrawnIn(events, c1, activeHour, e.id) && DrawnIn(events, c2, activeHour, e.id)
      ensures c1 == c2
    {
      DrawnIffInColumn(events, c1, activeHour, e);
      DrawnIffInColumn(events, c2, activeHour, e);
      assert TimeBlock.InColumn(s, c1) && TimeBlock.InColumn(s, c2);
    }
  }

  /** The current-time line: drawn only in the column holding the current
      time, at its offset in percent. */
  function NowLine(activeHour: real, c: real): (r: Option<real>)
    ensures r.Some? <==> TimeBlock.InColumn(activeHour, c)
    ensures r.Some? ==> 0.0 <= r.value < 100.0
  {
    if TimeBlock.InColumn(activeHour, c) then Some((activeHour - c) / TimeBlock.ColumnHours * 100.0) else None
  }

  /** During the day the line is drawn in exactly one column. */
  lemma NowLineOnce(activeHour: real)
    requires 0.0 <= activeHour < 24.0
    ensures exists c :: c in TimeBlock.Columns && NowLine(activeHour, c).Some?
    ensures forall c1, c2 ::
      (&& c1 in TimeBlock.Columns && c2 in TimeBlock.Columns
       && NowLine(activeHour, c1).Some? && NowLine(activeHour, c2).Some?) ==> c1 == c2
  {
    TimeBlock.ExactlyOneColumn(activeHour);
  }
}
