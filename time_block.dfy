// The time-block panel of components/diary/time-block.tsx: a day split into
// four six-hour columns, each laying out the events that start inside it
// side by side in lanes, plus the panel's editing state (rename, delete,
// selection and the drag that sizes a new block).
//
// Times are hours of the day as `real` numbers parsed from "HH:MM" strings.

module TimeBlock {
  import opened Common
  import opened Text

  // ---------------------------------------------------------------------
  // Parsing "HH:MM"

  /** The position of the first ':' in `t`, if any. */
  function ColonAt(t: string): (r: Option<nat>)
    ensures r.Some? ==> r.value < |t| && t[r.value] == ':' && forall k :: 0 <= k < r.value ==> t[k] != ':'
    ensures r.None? ==> forall k :: 0 <= k < |t| ==> t[k] != ':'
  {
    if t == [] then None
    else if t[0] == ':' then Some(0)
    else match ColonAt(t[1..])
      case None => None
      case Some(i) => Some(i + 1)
  }

  /** `t.split(":")` cut to its first two parts; `None` without a ':'. */
  function SplitHM(t: string): (r: Option<(string, string)>)
    ensures r.Some? ==> ':' !in r.value.0 && ':' !in r.value.1
  {
    match ColonAt(t)
    case None => None
    case Some(i) =>
      var rest := t[i + 1..];
      var m := match ColonAt(rest) case None => rest case Some(j) => rest[..j];
      Some((t[..i], m))
  }

  /** A time of day in hours, from its hour and minute parts. */
  function Hours(h: real, m: real): real {
    h + m / 60.0
  }

  /** `parseHM`: `Number` of the part before the first ':' plus `Number` of
      the part after it over sixty; `None` (NaN) without a ':' or when
      either part is not a number. A blank part counts as 0. */
  function ParseHM(t: string): (r: Option<real>)
    ensures r.Some? <==> SplitHM(t).Some? && NumberOf(SplitHM(t).value.0).Some? && NumberOf(SplitHM(t).value.1).Some?
    ensures r.Some? ==> r.value == Hours(NumberOf(SplitHM(t).value.0).value, NumberOf(SplitHM(t).value.1).value)
  {
    var parts := SplitHM(t);
    if parts.None? then None
    else
      var x := NumberOf(parts.value.0);
      var y := NumberOf(parts.value.1);
      if x.Some? && y.Some? then Some(Hours(x.value, y.value)) else None
  }

  /** An hour part and a minute part made of decimal digits (either may be
      empty, counting as 0) give hours plus minutes over sixty. */
  lemma ParseHMDigits(t: string, h: string, m: string)
    requires SplitHM(t) == Some((h, m)) && IsDigits(h) && IsDigits(m)
    ensures ParseHM(t) == Some(Hours(DigitsValue(h) as real, DigitsValue(m) as real))
  {
    NumberOfDigits(h);
    NumberOfDigits(m);
  }

  /** A string without ':' is not a time. */
  lemma ParseHMNoColon(t: string)
    requires ':' !in t
    ensures ParseHM(t) == None
  {
    assert ColonAt(t) == None;
  }

  /** The clock rendering of a time of day. */
  function FormatHM(h: nat, m: nat): string {
    TwoDigits(h) + ":" + TwoDigits(m)
  }

  /** Parsing a rendered time gives back its hours plus minutes over sixty. */
  lemma ParseFormatHM(h: nat, m: nat)
    ensures ParseHM(FormatHM(h, m)) == Some(Hours(h as real, m as real))
  {
    SplitFormatHM(TwoDigits(h), TwoDigits(m));
    ParseHMDigits(FormatHM(h, m), TwoDigits(h), TwoDigits(m));
  }

  /** A rendered time splits back into its two digit runs. */
  lemma SplitFormatHM(hs: string, ms: string)
    requires IsDigits(hs) && IsDigits(ms)
    ensures SplitHM(hs + ":" + ms) == Some((hs, ms))
  {
    var t := hs + ":" + ms;
    ColonAtDigits(hs, ms);
    assert t[|hs| + 1..] == ms;
    assert t[..|hs|] == hs;
    assert ColonAt(ms) == None;
  }

  lemma ColonAtDigits(hs: string, ms: string)
    requires IsDigits(hs)
    ensures ColonAt(hs + ":" + ms) == Some(|hs|)
  {
    var t := hs + ":" + ms;
    assert forall k :: 0 <= k < |hs| ==> t[k] == hs[k];
    ColonAtPrefix(t, |hs|);
  }

  lemma {:induction false} ColonAtPrefix(t: string, i: nat)
    requires i < |t| && t[i] == ':' && forall k :: 0 <= k < i ==> t[k] != ':'
    ensures ColonAt(t) == Some(i)
  {
    if i > 0 {
      ColonAtPrefix(t[1..], i - 1);
    }
  }

  // ---------------------------------------------------------------------
  // Columns

  /** The displayed event, with its times as "HH:MM" strings. */
  datatype DisplayEvent = DisplayEvent(id: string, title: string, start: string, end: string)

  /** The first hour of each of the four columns. */
  const Columns: seq<real> := [0.0, 6.0, 12.0, 18.0]

  const ColumnHours: real := 6.0

  /** An event belongs to the column it starts in. */
  predicate InColumn(s: real, c: real) {
    c <= s < c + ColumnHours
  }

  /** A start hour of the day lies in exactly one column. */
  lemma ExactlyOneColumn(s: real)
    requires 0.0 <= s < 24.0
    ensures exists c :: c in Columns && InColumn(s, c)
    ensures forall c1, c2 :: c1 in Columns && c2 in Columns && InColumn(s, c1) && InColumn(s, c2) ==> c1 == c2
  {
    if s < 6.0 { assert InColumn(s, Columns[0]); }
    else if s < 12.0 { assert InColumn(s, Columns[1]); }
    else if s < 18.0 { assert InColumn(s, Columns[2]); }
    else { assert InColumn(s, Columns[3]); }
  }

  /** An event of the column, with its times parsed. */
  datatype Slot = Slot(id: string, title: string, s: real, f: real)

  /** The slot of an event whose start and end both parse. */
  function SlotOf(e: DisplayEvent): (r: Option<Slot>)
    ensures r.Some? ==> r.value.id == e.id && r.value.title == e.title
    ensures r.Some? <==> ParseHM(e.start).Some? && ParseHM(e.end).Some?
    ensures r.Some? ==> r.value.s == ParseHM(e.start).value && r.value.f == ParseHM(e.end).value
  {
    match (ParseHM(e.start), ParseHM(e.end))
    case (Some(s), Some(f)) => Some(Slot(e.id, e.title, s, f))
    case _ => None
  }

  /** The slot of an event that is laid out in column `c`. */
  function Kept(e: DisplayEvent, c: real): (r: Option<Slot>)
    ensures r.Some? ==> SlotOf(e) == r && InColumn(r.value.s, c)
    ensures r.None? ==> SlotOf(e).None? || !InColumn(SlotOf(e).value.s, c)
  {
    match SlotOf(e)
    case Some(x) => if InColumn(x.s, c) then Some(x) else None
    case None => None
  }

  /** The events that start in column `c`, in their original order. */
  function ColumnSlots(events: seq<DisplayEvent>, c: real): (r: seq<Slot>)
    ensures |r| <= |events|
    ensures forall x :: x in r <==> exists k :: 0 <= k < |events| && Kept(events[k], c) == Some(x)
    ensures forall x :: x in r ==> InColumn(x.s, c)
  {
    var r := FilterMap(events, e => Kept(e, c));
    assert forall x :: x in r <==> exists k :: 0 <= k < |events| && Kept(events[k], c) == Some(x) by {
      forall x ensures x in r <==> exists k :: 0 <= k < |events| && Kept(events[k], c) == Some(x) {
        FilterMapExactly(events, e => Kept(e, c), x);
      }
    }
    r
  }

  // ---------------------------------------------------------------------
  // Sorting a column

  /** The sort order: earlier start first, and on equal starts the longer
      event first. */
  predicate Before(a: Slot, b: Slot) {
    a.s < b.s || (a.s == b.s && a.f - a.s >= b.f - b.s)
  }

  predicate SortedSlots(xs: seq<Slot>) {
    forall i, j :: 0 <= i < j < |xs| ==> Before(xs[i], xs[j])
  }

  /** The first `n` items are in order. */
  predicate SortedUpTo(xs: seq<Slot>, n: int) {
    forall i, j :: 0 <= i < j < n && j < |xs| ==> Before(xs[i], xs[j])
  }

  lemma BeforeTotal(a: Slot, b: Slot)
    ensures Before(a, b) || Before(b, a)
  {
  }

  lemma BeforeTransitive(a: Slot, b: Slot, c: Slot)
    requires Before(a, b) && Before(b, c)
    ensures Before(a, c)
  {
  }

  lemma SwapMultiset(xs: seq<Slot>, i: nat, j: nat)
    requires i < |xs| && j < |xs|
    ensures multiset(xs[i := xs[j]][j := xs[i]]) == multiset(xs)
  {
  }

  /** `blockEvents.sort(...)`, in place. */
  method SortSlots(a: array<Slot>)
    modifies a
    ensures SortedSlots(a[..])
    ensures multiset(a[..]) == multiset(old(a[..]))
  {
    var i := 0;
    while i < a.Length
      invariant 0 <= i <= a.Length
      invariant SortedUpTo(a[..], i)
      invariant multiset(a[..]) == multiset(old(a[..]))
    {
      InsertAt(a, i);
      i := i + 1;
    }
  }

  /** While `a[j]` moves left into the sorted prefix `xs[..i + 1]`: the
      prefix without position `j` is in order, `xs[j]` comes before
      everything to its right, and everything left of `j` comes before
      everything right of it. */
  predicate Inserting(xs: seq<Slot>, i: nat, j: nat) {
    && j <= i < |xs|
    && (forall p, q :: 0 <= p < q <= i && p != j && q != j ==> Before(xs[p], xs[q]))
    && (forall q :: j < q <= i ==> Before(xs[j], xs[q]))
    && (forall p, q :: 0 <= p < j < q <= i ==> Before(xs[p], xs[q]))
  }

  lemma InsertingStart(xs: seq<Slot>, i: nat)
    requires i < |xs| && SortedUpTo(xs, i)
    ensures Inserting(xs, i, i)
  {
  }

  /** Swapping `xs[j - 1]` and `xs[j]` when they are out of order moves the
      hole one place left. */
  lemma InsertingSwap(xs: seq<Slot>, i: nat, j: nat)
    requires Inserting(xs, i, j) && 0 < j && !Before(xs[j - 1], xs[j])
    ensures Inserting(xs[j - 1 := xs[j]][j := xs[j - 1]], i, j - 1)
    ensures multiset(xs[j - 1 := xs[j]][j := xs[j - 1]]) == multiset(xs)
  {
    BeforeTotal(xs[j - 1], xs[j]);
    SwapMultiset(xs, j - 1, j);
  }

  /** Once `xs[j - 1]` comes before `xs[j]` (or `j` is 0), the prefix
      `xs[..i + 1]` is in order. */
  lemma InsertingDone(xs: seq<Slot>, i: nat, j: nat)
    requires Inserting(xs, i, j) && (j == 0 || Before(xs[j - 1], xs[j]))
    ensures SortedUpTo(xs, i + 1)
  {
    forall p, q | 0 <= p < q <= i ensures Before(xs[p], xs[q]) {
      if q == j && p < j {
        BeforeTransitive(xs[p], xs[j - 1], xs[j]);
      }
    }
  }

  /** Move `a[i]` left into the sorted prefix `a[..i]`. */
  method InsertAt(a: array<Slot>, i: nat)
    requires i < a.Length && SortedUpTo(a[..], i)
    modifies a
    ensures SortedUpTo(a[..], i + 1)
    ensures multiset(a[..]) == multiset(old(a[..]))
  {
    InsertingStart(a[..], i);
    var j: nat := i;
    while j > 0 && !Before(a[j - 1], a[j])
      invariant Inserting(a[..], i, j)
      invariant multiset(a[..]) == multiset(old(a[..]))
    {
      InsertingSwap(a[..], i, j);
      ghost var swapped := a[..][j - 1 := a[j]][j := a[j - 1]];
      a[j - 1], a[j] := a[j], a[j - 1];
      assert a[..] == swapped;
      j := j - 1;
    }
    InsertingDone(a[..], i, j);
  }

  // ---------------------------------------------------------------------
  // Lanes

  /** The slack allowed when a lane is reused. */
  const Eps: real := 0.0001

  /** The end hour as drawn: no later than the end of the column. */
  function ClampEnd(f: real, c: real): (r: real)
    ensures r <= c + ColumnHours && r <= f
    ensures f <= c + ColumnHours ==> r == f
  {
    if f > c + ColumnHours then c + ColumnHours else f
  }

  /** `lanes.findIndex(l => l.end <= s + 0.0001)`. */
  function FirstFreeLane(ends: seq<real>, s: real): (r: Option<nat>)
    ensures r.Some? ==> r.value < |ends| && ends[r.value] <= s + Eps
    ensures r.Some? ==> forall k :: 0 <= k < r.value ==> ends[k] > s + Eps
    ensures r.None? ==> forall k :: 0 <= k < |ends| ==> ends[k] > s + Eps
  {
    if ends == [] then None
    else if ends[0] <= s + Eps then Some(0)
    else match FirstFreeLane(ends[1..], s)
      case None => None
      case Some(i) => Some(i + 1)
  }

  /** Top of an event in percent of the column's height. */
  function Top(s: real, c: real): real {
    (s - c) / ColumnHours * 100.0
  }

  /** Height in percent, trimmed so the event does not run past the bottom. */
  function Height(s: real, f: real, c: real): (h: real)
    ensures Top(s, c) + h <= 100.0
    ensures h <= (f - s) / ColumnHours * 100.0
  {
    var h := (f - s) / ColumnHours * 100.0;
    if Top(s, c) + h > 100.0 then 100.0 - Top(s, c) else h
  }

  datatype Positioned = Positioned(slot: Slot, top: real, height: real, lane: nat, lanes: nat)

  /** Events that share a lane do not overlap: each ends (as drawn) no later
      than the start of any later event of its lane, up to the slack. */
  predicate LanesDisjoint(placed: seq<Positioned>, c: real) {
    forall i, j :: 0 <= i < j < |placed| && placed[i].lane == placed[j].lane ==>
      ClampEnd(placed[i].slot.f, c) <= placed[j].slot.s + Eps
  }

  predicate StartsAscending(xs: seq<Slot>) {
    forall i, j :: 0 <= i < j < |xs| ==> xs[i].s <= xs[j].s
  }

  /** The state of the greedy assignment after `|lanes|` events with
      starts `ss` and drawn ends `fs`: each placed event has an open lane,
      the newest lane was opened by event `last`, events of one lane do not
      overlap, and each placed event ends no later than its lane's recorded
      end or the latest start so far, up to the slack. */
  ghost predicate Greedy(ss: seq<real>, fs: seq<real>, lanes: seq<nat>, ends: seq<real>, last: nat) {
    var k := |lanes|;
    && k <= |ss| && |ss| == |fs| && |ends| <= k
    && (forall i :: 0 <= i < k ==> lanes[i] < |ends|)
    && (|ends| > 0 ==> last < k && lanes[last] == |ends| - 1)
    && (forall i, j :: 0 <= i < j < k && lanes[i] == lanes[j] ==> fs[i] <= ss[j] + Eps)
    && (forall i :: 0 <= i < k ==> fs[i] <= ends[lanes[i]] || fs[i] <= ss[k - 1] + Eps)
  }

  predicate Ascending(ss: seq<real>) {
    forall i, j :: 0 <= i < j < |ss| ==> ss[i] <= ss[j]
  }

  /** Placing the next event in a lane that is free at its start, or in a
      new lane, keeps `Greedy`. */
  lemma GreedyStep(ss: seq<real>, fs: seq<real>, lanes: seq<nat>, ends: seq<real>, last: nat, L: nat)
    requires Greedy(ss, fs, lanes, ends, last) && |lanes| < |ss|
    requires Ascending(ss)
    requires L == |ends| || (L < |ends| && ends[L] <= ss[|lanes|] + Eps)
    ensures var k := |lanes|;
      Greedy(ss, fs, lanes + [L], if L == |ends| then ends + [fs[k]] else ends[L := fs[k]], if L == |ends| then k else last)
  {
    var k := |lanes|;
    var lanes' := lanes + [L];
    var ends' := if L == |ends| then ends + [fs[k]] else ends[L := fs[k]];
    forall i | 0 <= i < k && lanes[i] == L ensures fs[i] <= ss[k] + Eps {
      assert ss[k - 1] <= ss[k];
    }
    forall i, j | 0 <= i < j < k + 1 && lanes'[i] == lanes'[j] ensures fs[i] <= ss[j] + Eps {
      assert lanes'[i] == lanes[i];
    }
    forall i | 0 <= i < k + 1 ensures fs[i] <= ends'[lanes'[i]] || fs[i] <= ss[k] + Eps {
      if i < k {
        assert lanes'[i] == lanes[i];
        if lanes[i] != L {
          assert ends'[lanes[i]] == ends[lanes[i]];
          assert ss[k - 1] <= ss[k];
        }
      }
    }
  }

  /** The lane an event starting at `s` goes to: the first lane free at
      `s`, or a new one. */
  function ChooseLane(ends: seq<real>, s: real): (L: nat)
    ensures L == |ends| || (L < |ends| && ends[L] <= s + Eps)
    ensures forall k :: 0 <= k < L && k < |ends| ==> ends[k] > s + Eps
  {
    match FirstFreeLane(ends, s)
    case None => |ends|
    case Some(i) => i
  }

  function Starts(slots: seq<Slot>): (ss: seq<real>)
    ensures |ss| == |slots| && forall i :: 0 <= i < |slots| ==> ss[i] == slots[i].s
  {
    seq(|slots|, i requires 0 <= i < |slots| => slots[i].s)
  }

  function DrawnEnds(slots: seq<Slot>, c: real): (fs: seq<real>)
    ensures |fs| == |slots| && forall i :: 0 <= i < |slots| ==> fs[i] == ClampEnd(slots[i].f, c)
  {
    seq(|slots|, i requires 0 <= i < |slots| => ClampEnd(slots[i].f, c))
  }

  /** The lanes' recorded ends once the first `k` events are placed: each
      event goes to the lane `ChooseLane` picks and sets its end there. */
  function LaneEnds(slots: seq<Slot>, c: real, k: nat): (ends: seq<real>)
    requires k <= |slots|
    ensures |ends| <= k
  {
    if k == 0 then []
    else
      var ends := LaneEnds(slots, c, k - 1);
      var f := ClampEnd(slots[k - 1].f, c);
      var L := ChooseLane(ends, slots[k - 1].s);
      if L == |ends| then ends + [f] else ends[L := f]
  }

  /** Each placed event is in the lane `ChooseLane` picks from the lane ends
      left by the events before it. */
  predicate GreedyChoice(slots: seq<Slot>, c: real, placed: seq<Positioned>) {
    && |placed| <= |slots|
    && forall i :: 0 <= i < |placed| ==> LaneChosen(slots, c, placed, i)
  }

  /** Event `i` is in the lane `ChooseLane` picks from the lane ends left by
      the events before it. */
  predicate LaneChosen(slots: seq<Slot>, c: real, placed: seq<Positioned>, i: nat) {
    i < |placed| && i < |slots| && placed[i].lane == ChooseLane(LaneEnds(slots, c, i), slots[i].s)
  }

  lemma GreedyChoiceStep(slots: seq<Slot>, c: real, placed: seq<Positioned>, p: Positioned)
    requires GreedyChoice(slots, c, placed) && |placed| < |slots|
    requires p.lane == ChooseLane(LaneEnds(slots, c, |placed|), slots[|placed|].s)
    ensures GreedyChoice(slots, c, placed + [p])
  {
    forall i | 0 <= i < |placed| + 1 ensures LaneChosen(slots, c, placed + [p], i) {
      if i < |placed| {
        assert LaneChosen(slots, c, placed, i);
        assert (placed + [p])[i] == placed[i];
      }
    }
  }

  /** `placed` holds the first `|placed|` events in order, with the lanes
      `lanes` and their box in the column. */
  predicate Tracks(slots: seq<Slot>, c: real, placed: seq<Positioned>, lanes: seq<nat>) {
    && |placed| == |lanes| <= |slots|
    && forall i :: 0 <= i < |placed| ==>
      && placed[i].slot == slots[i] && placed[i].lane == lanes[i]
      && placed[i].top == Top(slots[i].s, c)
      && placed[i].height == Height(slots[i].s, ClampEnd(slots[i].f, c), c)
  }

  lemma TracksStep(slots: seq<Slot>, c: real, placed: seq<Positioned>, lanes: seq<nat>, L: nat)
    requires Tracks(slots, c, placed, lanes) && |placed| < |slots|
    ensures var k := |placed|; var s := slots[k].s;
      Tracks(slots, c, placed + [Positioned(slots[k], Top(s, c), Height(s, ClampEnd(slots[k].f, c), c), L, 0)], lanes + [L])
  {
  }

  /** Once every event is placed, `Greedy` gives the layout's guarantees. */
  lemma GreedyDone(slots: seq<Slot>, c: real, placed: seq<Positioned>, lanes: seq<nat>, ends: seq<real>, last: nat)
    requires Tracks(slots, c, placed, lanes) && |placed| == |slots|
    requires Greedy(Starts(slots), DrawnEnds(slots, c), lanes, ends, last)
    ensures forall i :: 0 <= i < |placed| ==> placed[i].lane < |ends|
    ensures |ends| > 0 ==> exists i :: 0 <= i < |placed| && placed[i].lane == |ends| - 1
    ensures |ends| <= |slots|
    ensures LanesDisjoint(placed, c)
  {
    var ss := Starts(slots);
    var fs := DrawnEnds(slots, c);
    forall i, j | 0 <= i < j < |placed| && placed[i].lane == placed[j].lane
      ensures ClampEnd(placed[i].slot.f, c) <= placed[j].slot.s + Eps
    {
      assert fs[i] <= ss[j] + Eps;
    }
    if |ends| > 0 {
      assert placed[last].lane == |ends| - 1;
    }
  }

  /** The greedy lane assignment of the column's sorted events: each goes to
      the first lane that is free at its start, or to a new lane. */
  method AssignLanes(slots: seq<Slot>, c: real) returns (placed: seq<Positioned>, ends: seq<real>)
    requires StartsAscending(slots)
    ensures Placed(slots, c, placed, ends)
  {
    ghost var lanes: seq<nat> := [];
    ghost var last := 0;
    placed := [];
    ends := [];
    var k := 0;
    AssignStart(slots, c);
    while k < |slots|
      invariant k <= |slots| && |placed| == k
      invariant Assigning(slots, c, placed, lanes, ends, last)
    {
      var s := slots[k].s;
      var f := ClampEnd(slots[k].f, c);
      var laneIndex := ChooseLane(ends, s);
      var p := Positioned(slots[k], Top(s, c), Height(s, f, c), laneIndex, 0);
      AssignStep(slots, c, placed, lanes, ends, last, f, laneIndex, p);
      if laneIndex == |ends| {
        ends := ends + [f];
        last := k;
      } else {
        ends := ends[laneIndex := f];
      }
      lanes := lanes + [laneIndex];
      placed := placed + [p];
      k := k + 1;
    }
    AssignDone(slots, c, placed, lanes, ends, last);
  }

  /** What the greedy assignment gives: every event in order, at its start
      and as tall as its drawn end allows, in the lane `ChooseLane` picks;
      `ends` holds the lanes opened, each used by some event; events of a
      lane do not overlap. */
  ghost predicate Placed(slots: seq<Slot>, c: real, placed: seq<Positioned>, ends: seq<real>) {
    && |placed| == |slots| && |ends| <= |slots|
    && (forall i :: 0 <= i < |placed| ==>
         && placed[i].slot == slots[i] && placed[i].lane < |ends|
         && placed[i].top == Top(slots[i].s, c)
         && placed[i].height == Height(slots[i].s, ClampEnd(slots[i].f, c), c))
    && (|ends| > 0 ==> exists i :: 0 <= i < |placed| && placed[i].lane == |ends| - 1)
    && LanesDisjoint(placed, c)
    && GreedyChoice(slots, c, placed) && ends == LaneEnds(slots, c, |slots|)
  }

  /** The loop state of `AssignLanes` after `|placed|` events. */
  ghost predicate Assigning(slots: seq<Slot>, c: real, placed: seq<Positioned>, lanes: seq<nat>, ends: seq<real>, last: nat) {
    && StartsAscending(slots)
    && Tracks(slots, c, placed, lanes)
    && Greedy(Starts(slots), DrawnEnds(slots, c), lanes, ends, last)
    && GreedyChoice(slots, c, placed) && ends == LaneEnds(slots, c, |placed|)
  }

  lemma AssignStart(slots: seq<Slot>, c: real)
    requires StartsAscending(slots)
    ensures Assigning(slots, c, [], [], [], 0)
  {
  }

  /** Placing the next event in the lane `ChooseLane` picks keeps the loop
      state. */
  lemma AssignStep(slots: seq<Slot>, c: real, placed: seq<Positioned>, lanes: seq<nat>, ends: seq<real>, last: nat,
                   f: real, L: nat, p: Positioned)
    requires Assigning(slots, c, placed, lanes, ends, last) && |placed| < |slots|
    requires f == ClampEnd(slots[|placed|].f, c) && L == ChooseLane(ends, slots[|placed|].s)
    requires p == Positioned(slots[|placed|], Top(slots[|placed|].s, c), Height(slots[|placed|].s, f, c), L, 0)
    ensures Assigning(slots, c, placed + [p], lanes + [L],
                      if L == |ends| then ends + [f] else ends[L := f], if L == |ends| then |placed| else last)
  {
    var k := |placed|;
    var ss := Starts(slots);
    var fs := DrawnEnds(slots, c);
    assert Ascending(ss);
    assert ss[k] == slots[k].s && fs[k] == f;
    GreedyStep(ss, fs, lanes, ends, last, L);
    TracksStep(slots, c, placed, lanes, L);
    GreedyChoiceStep(slots, c, placed, p);
    assert LaneEnds(slots, c, k + 1) == if L == |ends| then ends + [f] else ends[L := f];
  }

  /** The loop state with every event placed gives `AssignLanes`'s
      guarantees. */
  lemma AssignDone(slots: seq<Slot>, c: real, placed: seq<Positioned>, lanes: seq<nat>, ends: seq<real>, last: nat)
    requires Assigning(slots, c, placed, lanes, ends, last) && |placed| == |slots|
    ensures Placed(slots, c, placed, ends)
  {
    GreedyDone(slots, c, placed, lanes, ends, last);
  }

  /** `Math.max(0, ...lanes)`. */
  function MaxLane(placed: seq<Positioned>): (m: nat)
    ensures forall i :: 0 <= i < |placed| ==> placed[i].lane <= m
    ensures m == 0 || exists i :: 0 <= i < |placed| && placed[i].lane == m
  {
    if placed == [] then 0
    else
      var m := MaxLane(placed[..|placed| - 1]);
      assert forall i :: 0 <= i < |placed| - 1 ==> placed[..|placed| - 1][i] == placed[i];
      Max(m, placed[|placed| - 1].lane)
  }

  /** What laying out the sorted events `sorted` of column `c` gives: the
      events in that order, each at its start, as tall as its drawn end
      allows, in the lane the greedy choice picks; events of a lane do not
      overlap; and every event has as lane count the number of lanes
      opened (at least 1). */
  ghost predicate Layout(sorted: seq<Slot>, c: real, out: seq<Positioned>) {
    && SlotsOf(out) == sorted
    && GreedyChoice(sorted, c, out)
    && LanesDisjoint(out, c)
    && (forall i :: 0 <= i < |out| ==>
         && out[i].top == Top(sorted[i].s, c)
         && out[i].height == Height(sorted[i].s, ClampEnd(sorted[i].f, c), c)
         && out[i].lane < out[i].lanes
         && out[i].lanes == Max(1, |LaneEnds(sorted, c, |sorted|)|))
  }

  /** The column's events laid out: every event that starts in the column
      and whose times both parse, sorted, and laid out as `Layout` says,
      inside the column's box. */
  method LayoutColumn(events: seq<DisplayEvent>, c: real) returns (out: seq<Positioned>)
    ensures multiset(SlotsOf(out)) == multiset(ColumnSlots(events, c))
    ensures SortedSlots(SlotsOf(out))
    ensures Layout(SlotsOf(out), c, out)
    ensures forall i :: 0 <= i < |out| ==> 0.0 <= out[i].top < 100.0 && out[i].top + out[i].height <= 100.0
  {
    var slots := ColumnSlots(events, c);
    var sorted := SortColumn(slots, c);
    out := LayOut(sorted, c);
  }

  /** The column's slots, sorted in a fresh array. */
  method SortColumn(slots: seq<Slot>, c: real) returns (sorted: seq<Slot>)
    requires forall x :: x in slots ==> InColumn(x.s, c)
    ensures multiset(sorted) == multiset(slots)
    ensures SortedSlots(sorted)
    ensures forall x :: x in sorted ==> InColumn(x.s, c)
  {
    var a := new Slot[|slots|](i requires 0 <= i < |slots| => slots[i]);
    assert a[..] == slots;
    SortSlots(a);
    sorted := a[..];
    PermutationInColumn(slots, sorted, c);
  }

  /** Lanes for the sorted events of a column, with the shared lane count. */
  method LayOut(sorted: seq<Slot>, c: real) returns (out: seq<Positioned>)
    requires SortedSlots(sorted)
    requires forall x :: x in sorted ==> InColumn(x.s, c)
    ensures Layout(sorted, c, out)
    ensures forall i :: 0 <= i < |out| ==> 0.0 <= out[i].top < 100.0 && out[i].top + out[i].height <= 100.0
  {
    SortedStartsAscending(sorted);
    var placed, ends := AssignLanes(sorted, c);
    var lanes := MaxLane(placed) + 1;
    PlacedLaneCount(sorted, c, placed, ends);
    out := WithLaneCount(placed, lanes);
    LaneCountKeepsLayout(sorted, placed, ends, out, c, lanes);
  }

  /** After the greedy assignment the lane count is the number of lanes
      opened. */
  lemma PlacedLaneCount(slots: seq<Slot>, c: real, placed: seq<Positioned>, ends: seq<real>)
    requires Placed(slots, c, placed, ends)
    ensures MaxLane(placed) + 1 == Max(1, |ends|)
  {
    LaneCountIsLanesOpened(placed, ends);
  }

  /** Giving every placed event the shared lane count keeps the order,
      the lanes and the box. */
  lemma LaneCountKeepsLayout(sorted: seq<Slot>, placed: seq<Positioned>, ends: seq<real>, out: seq<Positioned>, c: real, lanes: nat)
    requires Placed(sorted, c, placed, ends)
    requires lanes == Max(1, |ends|) && out == WithLaneCount(placed, lanes)
    requires forall x :: x in sorted ==> InColumn(x.s, c)
    ensures Layout(sorted, c, out)
    ensures forall i :: 0 <= i < |out| ==> 0.0 <= out[i].top < 100.0 && out[i].top + out[i].height <= 100.0
  {
    assert SlotsOf(out) == sorted;
    TopsInColumn(sorted, out, c);
    WithLaneCountKeeps(sorted, c, placed, out, lanes);
  }

  /** The lane count changes neither the lanes nor their disjointness. */
  lemma WithLaneCountKeeps(sorted: seq<Slot>, c: real, placed: seq<Positioned>, out: seq<Positioned>, n: nat)
    requires out == WithLaneCount(placed, n)
    requires GreedyChoice(sorted, c, placed) && LanesDisjoint(placed, c)
    ensures GreedyChoice(sorted, c, out) && LanesDisjoint(out, c)
  {
    forall i | 0 <= i < |out| ensures LaneChosen(sorted, c, out, i) {
      assert LaneChosen(sorted, c, placed, i);
    }
  }

  /** A permutation of slots that start in the column starts in it too. */
  lemma PermutationInColumn(xs: seq<Slot>, ys: seq<Slot>, c: real)
    requires multiset(ys) == multiset(xs)
    requires forall x :: x in xs ==> InColumn(x.s, c)
    ensures forall y :: y in ys ==> InColumn(y.s, c)
  {
    forall y | y in ys ensures InColumn(y.s, c) {
      assert y in multiset(ys);
    }
  }

  /** Every placed event with the column's lane count `n`. */
  function WithLaneCount(placed: seq<Positioned>, n: nat): (r: seq<Positioned>)
    ensures |r| == |placed|
    ensures forall i :: 0 <= i < |r| ==> r[i] == placed[i].(lanes := n)
  {
    seq(|placed|, i requires 0 <= i < |placed| => placed[i].(lanes := n))
  }

  /** Events placed at their start in the column sit inside its box. */
  lemma TopsInColumn(sorted: seq<Slot>, out: seq<Positioned>, c: real)
    requires |out| == |sorted|
    requires forall x :: x in sorted ==> InColumn(x.s, c)
    requires forall i :: 0 <= i < |out| ==> out[i].top == Top(sorted[i].s, c)
    ensures forall i :: 0 <= i < |out| ==> 0.0 <= out[i].top < 100.0
  {
    forall i | 0 <= i < |out| ensures 0.0 <= out[i].top < 100.0 {
      assert sorted[i] in sorted;
    }
  }

  function SlotsOf(ps: seq<Positioned>): (r: seq<Slot>)
    ensures |r| == |ps| && forall i :: 0 <= i < |ps| ==> r[i] == ps[i].slot
  {
    seq(|ps|, i requires 0 <= i < |ps| => ps[i].slot)
  }

  lemma SortedStartsAscending(xs: seq<Slot>)
    requires SortedSlots(xs)
    ensures StartsAscending(xs)
  {
    forall i, j | 0 <= i < j < |xs| ensures xs[i].s <= xs[j].s {
      assert Before(xs[i], xs[j]);
    }
  }

  /** The lane count is the number of lanes opened: one more than the
      highest lane, and 1 for an empty column. */
  lemma LaneCountIsLanesOpened(placed: seq<Positioned>, ends: seq<real>)
    requires forall i :: 0 <= i < |placed| ==> placed[i].lane < |ends|
    requires |ends| > 0 ==> exists i :: 0 <= i < |placed| && placed[i].lane == |ends| - 1
    ensures MaxLane(placed) + 1 == Max(1, |ends|)
  {
    if |ends| > 0 {
      var i :| 0 <= i < |placed| && placed[i].lane == |ends| - 1;
      assert MaxLane(placed) >= |ends| - 1;
      assert MaxLane(placed) <= |ends| - 1 by {
        if MaxLane(placed) != 0 {
          var j :| 0 <= j < |placed| && placed[j].lane == MaxLane(placed);
        }
      }
    }
  }

  // ---------------------------------------------------------------------
  // Editing

  /** `prev.map(e => e.id === id ? { ...e, title } : e)`. */
  function Rename(events: seq<DisplayEvent>, id: string, title: string): (r: seq<DisplayEvent>)
    ensures |r| == |events|
    ensures forall k :: 0 <= k < |events| ==> r[k].id == events[k].id && r[k].start == events[k].start && r[k].end == events[k].end
    ensures forall k :: 0 <= k < |events| ==> r[k].title == if events[k].id == id then title else events[k].title
  {
    seq(|events|, k requires 0 <= k < |events| => if events[k].id == id then events[k].(title := title) else events[k])
  }

  /** `prev.filter(ev => ev.id !== id)`: the events in their order, less
      every one with that id, each other event kept as often as it occurs. */
  function RemoveId(events: seq<DisplayEvent>, id: string): (r: seq<DisplayEvent>)
    ensures forall e :: e in r <==> e in events && e.id != id
    ensures Subsequence(r, events)
    ensures forall e :: multiset(r)[e] == if e.id == id then 0 else multiset(events)[e]
    ensures |r| <= |events|
    ensures (forall e :: e in events ==> e.id != id) ==> r == events
  {
    if events == [] then []
    else
      var rest := RemoveId(events[1..], id);
      var r := if events[0].id == id then rest else [events[0]] + rest;
      RemoveIdStep(events, id, rest, r);
      r
  }

  /** One step of `RemoveId`: the head is dropped when it has the id and
      kept in front otherwise. */
  lemma RemoveIdStep(events: seq<DisplayEvent>, id: string, rest: seq<DisplayEvent>, r: seq<DisplayEvent>)
    requires events != []
    requires Subsequence(rest, events[1..])
    requires forall e :: multiset(rest)[e] == if e.id == id then 0 else multiset(events[1..])[e]
    requires r == if events[0].id == id then rest else [events[0]] + rest
    ensures Subsequence(r, events)
    ensures forall e :: multiset(r)[e] == if e.id == id then 0 else multiset(events)[e]
  {
    assert events == [events[0]] + events[1..];
    assert multiset(events) == multiset{events[0]} + multiset(events[1..]);
    if events[0].id != id {
      assert multiset(r) == multiset{events[0]} + multiset(rest);
    }
  }

  /** Deleting removes exactly the events with that id and keeps the rest
      in order; deleting again changes nothing. */
  lemma RemoveIdIdempotent(events: seq<DisplayEvent>, id: string)
    ensures RemoveId(RemoveId(events, id), id) == RemoveId(events, id)
  {
  }

  /** The drag that sizes a new block. */
  datatype Drag = Drag(colStart: real, startHour: real, endHour: real, creating: bool)

  const MinDragHours: real := 0.25

  class Panel {
    var events: seq<DisplayEvent>
    var selectedId: Option<string>
    var editingId: Option<string>
    var editingValue: string
    var drag: Option<Drag>

    constructor (events: seq<DisplayEvent>)
      ensures this.events == events && selectedId.None? && editingId.None? && editingValue == [] && drag.None?
    {
      this.events := events;
      selectedId := None;
      editingId := None;
      editingValue := [];
      drag := None;
    }

    method BeginEdit(id: string, current: string)
      modifies this
      ensures editingId == Some(id) && editingValue == current
      ensures events == old(events) && selectedId == old(selectedId) && drag == old(drag)
    {
      editingId := Some(id);
      editingValue := current;
    }

    method CancelEdit()
      modifies this
      ensures editingId.None? && editingValue == []
      ensures events == old(events) && selectedId == old(selectedId) && drag == old(drag)
    {
      editingId := None;
      editingValue := [];
    }

    /** An id is being edited: `editingId` is truthy. */
    predicate Editing(id: Option<string>) {
      id.Some? && id.value != []
    }

    /** `commitEdit`: with nothing being edited (no id, or the empty id,
        which `!editingId` also treats as none), nothing happens; a title
        that is blank after trimming only ends the edit; otherwise the
        edited event alone takes the trimmed title, and the edit ends. */
    method CommitEdit()
      modifies this
      ensures !Editing(old(editingId)) ==> events == old(events) && editingId == old(editingId) && editingValue == old(editingValue)
      ensures Editing(old(editingId)) ==> editingId.None? && editingValue == []
      ensures Editing(old(editingId)) && IsBlank(old(editingValue)) ==> events == old(events)
      ensures Editing(old(editingId)) && !IsBlank(old(editingValue)) ==>
        events == Rename(old(events), old(editingId).value, Trim(old(editingValue)))
      ensures selectedId == old(selectedId) && drag == old(drag)
    {
      if !Editing(editingId) {
        return;
      }
      var newTitle := Trim(editingValue);
      if |newTitle| == 0 {
        CancelEdit();
        return;
      }
      events := Rename(events, editingId.value, newTitle);
      CancelEdit();
    }

    /** The context menu's Delete. */
    method Delete(id: string)
      modifies this
      ensures events == RemoveId(old(events), id)
      ensures selectedId == old(selectedId) && editingId == old(editingId) && drag == old(drag)
    {
      events := RemoveId(events, id);
    }

    /** A click on an event selects it, or clears the selection when it was
        already selected. */
    method ToggleSelect(id: string)
      modifies this
      ensures selectedId == if old(selectedId) == Some(id) then None else Some(id)
      ensures events == old(events) && editingId == old(editingId) && drag == old(drag)
    {
      selectedId := if selectedId == Some(id) then None else Some(id);
    }

    /** Mouse down on an empty spot of a column, at hour `snapped` (already
        snapped to the half hour): a half-hour block starts there. */
    method BeginDrag(col: real, snapped: real)
      modifies this
      ensures drag == Some(Drag(col, snapped, snapped + 0.5, true))
      ensures events == old(events) && selectedId == old(selectedId) && editingId == old(editingId)
    {
      drag := Some(Drag(col, snapped, snapped + 0.5, true));
    }

    /** Mouse move while dragging, at hour `snapped` (snapped to the quarter
        hour): the end follows, but never closer than a quarter hour to the
        start. */
    method DragTo(snapped: real)
      modifies this
      ensures old(drag).None? ==> drag.None?
      ensures old(drag).Some? ==>
        && drag == Some(old(drag).value.(endHour := MaxReal(snapped, old(drag).value.startHour + MinDragHours)))
        && drag.value.endHour >= drag.value.startHour + MinDragHours
        && (snapped >= drag.value.startHour + MinDragHours ==> drag.value.endHour == snapped)
      ensures events == old(events) && selectedId == old(selectedId) && editingId == old(editingId)
    {
      if drag.Some? {
        drag := Some(drag.value.(endHour := MaxReal(snapped, drag.value.startHour + MinDragHours)));
      }
    }
  }
}
