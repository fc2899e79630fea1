// The journey page of app/diary/journey/page.tsx: the last seven days, most
// recent first, each with the first journal written that day (its plain
// text pulled out of the editor blocks) and the day's meditation and
// breathing minutes.
//
// Days are UTC day numbers and "today" is a parameter; `dayKey` renders a
// day as the `YYYY-MM-DD` key the minute rows are stored under. A day key
// parsed by `new Date` is midnight UTC, so day `d` starts at `d * DayMs`.

module Journey {
  import opened Common
  import opened Text
  import Journals
  import Breathing

  type Day = int

  /** Milliseconds in a day. */
  const DayMs: int := 24 * 60 * 60 * 1000

  // ---------------------------------------------------------------------
  // Text of the editor blocks

  /** The text of a list of inline items: their texts run together, a
      missing text counting as empty. */
  function ItemsText(items: seq<Journals.InlineItem>): (r: string)
    ensures items == [] ==> r == []
    ensures items != [] ==> r == ItemsText(items[..|items| - 1]) + items[|items| - 1].text.GetOr([])
  {
    if items == [] then []
    else ItemsText(items[..|items| - 1]) + items[|items| - 1].text.GetOr([])
  }

  /** The text of one block: its inline items' text, the rendering of any
      other content, or nothing when it has no content. */
  function BlockText(b: Journals.Block): (r: string)
    ensures b.content.None? ==> r == []
    ensures b.content.Some? && b.content.value.OtherContent? ==> r == b.content.value.rendered
    ensures b.content.Some? && b.content.value.InlineContent? ==> r == ItemsText(b.content.value.items)
  {
    match b.content
    case None => []
    case Some(InlineContent(items)) => ItemsText(items)
    case Some(OtherContent(rendered)) => rendered
  }

  function BlockTexts(blocks: seq<Journals.Block>): (r: seq<string>)
    ensures |r| == |blocks| && forall k :: 0 <= k < |blocks| ==> r[k] == BlockText(blocks[k])
  {
    seq(|blocks|, k requires 0 <= k < |blocks| => BlockText(blocks[k]))
  }

  /** `extractTextFromBlocks`: the blocks' texts joined by single spaces
      and trimmed; the empty string when there are no blocks. The text is
      the joined string less the white space at its two ends, so it is
      empty exactly when the joined string is blank. */
  function ExtractText(blocks: Option<seq<Journals.Block>>): (r: string)
    ensures blocks.None? ==> r == []
    ensures r == [] || (!IsSpace(r[0]) && !IsSpace(r[|r| - 1]))
    ensures blocks.Some? ==> BlankAround(Join(BlockTexts(blocks.value), " "), r)
    ensures blocks.Some? ==> (r == [] <==> IsBlank(Join(BlockTexts(blocks.value), " ")))
  {
    match blocks
    case None => []
    case Some(bs) => Trim(Join(BlockTexts(bs), " "))
  }

  /** Joining blank strings with a blank separator gives a blank string. */
  lemma {:induction false} JoinBlank(parts: seq<string>, sep: string)
    requires IsBlank(sep)
    requires forall k :: 0 <= k < |parts| ==> IsBlank(parts[k])
    ensures IsBlank(Join(parts, sep))
  {
    if |parts| > 1 {
      var init := parts[..|parts| - 1];
      JoinBlank(init, sep);
      var j := Join(init, sep) + sep + parts[|parts| - 1];
      forall k | 0 <= k < |j| ensures IsSpace(j[k]) {
        if k < |Join(init, sep)| {
          assert j[k] == Join(init, sep)[k];
        } else if k < |Join(init, sep)| + |sep| {
          assert j[k] == sep[k - |Join(init, sep)|];
        } else {
          assert j[k] == parts[|parts| - 1][k - |Join(init, sep)| - |sep|];
        }
      }
    }
  }

  /** A slice of a blank string is blank. */
  lemma BlankSlice(hay: string, needle: string, i: int)
    requires IsBlank(hay) && OccursAt(hay, needle, i)
    ensures IsBlank(needle)
  {
    forall k | 0 <= k < |needle| ensures IsSpace(needle[k]) {
      assert needle[k] == hay[i..i + |needle|][k] == hay[i + k];
    }
  }

  /** A journal shows no text exactly when each of its blocks holds only
      white space (or nothing). */
  lemma BlankBlocksNoText(blocks: seq<Journals.Block>)
    ensures ExtractText(Some(blocks)) == [] <==>
      forall k :: 0 <= k < |blocks| ==> IsBlank(BlockText(blocks[k]))
  {
    var texts := BlockTexts(blocks);
    var j := Join(texts, " ");
    if forall k :: 0 <= k < |blocks| ==> IsBlank(BlockText(blocks[k])) {
      JoinBlank(texts, " ");
    }
    if IsBlank(j) {
      forall k | 0 <= k < |blocks| ensures IsBlank(BlockText(blocks[k])) {
        JoinParts(texts, " ", k);
        var i :| OccursAt(j, texts[k], i);
        BlankSlice(j, texts[k], i);
      }
    }
  }

  // ---------------------------------------------------------------------
  // The seven days

  /** `days.reverse()`. */
  function Reversed(s: seq<Day>): (r: seq<Day>)
    ensures |r| == |s| && forall i :: 0 <= i < |s| ==> r[i] == s[|s| - 1 - i]
  {
    seq(|s|, i requires 0 <= i < |s| => s[|s| - 1 - i])
  }

  /** The week the page shows: today first, then each earlier day. */
  function LastSevenDays(today: Day): (r: seq<Day>)
    ensures |r| == 7 && r[0] == today && r[6] == today - 6
    ensures forall i :: 0 <= i < 6 ==> r[i + 1] == r[i] - 1
  {
    seq(7, i requires 0 <= i < 7 => today - i)
  }

  /** The date range and `daysList`: the seven days from six days ago up
      to today, pushed oldest first and then reversed. */
  method DaysList(today: Day) returns (startDate: Day, endDate: Day, daysList: seq<Day>)
    ensures endDate == today && startDate == today - 6
    ensures daysList == LastSevenDays(today)
  {
    var sevenDaysAgo := today - 6;
    startDate := sevenDaysAgo;
    endDate := today;
    var days: seq<Day> := [];
    var i := 0;
    while i < 7
      invariant 0 <= i <= 7 && |days| == i
      invariant forall k :: 0 <= k < i ==> days[k] == sevenDaysAgo + k
    {
      days := days + [sevenDaysAgo + i];
      i := i + 1;
    }
    daysList := Reversed(days);
  }

  /** The seven days are distinct, newest first, and span startDate to
      endDate. */
  lemma {:induction false} LastSevenDaysDescending(today: Day)
    ensures forall i, j :: 0 <= i < j < 7 ==> LastSevenDays(today)[i] > LastSevenDays(today)[j]
    ensures forall d :: d in LastSevenDays(today) <==> today - 6 <= d <= today
  {
    var r := LastSevenDays(today);
    forall d | today - 6 <= d <= today ensures d in r {
      assert r[today - d] == d;
    }
  }

  // ---------------------------------------------------------------------
  // One day of the timeline

  predicate CreatedOn(j: Journals.Journal, d: Day) {
    d * DayMs <= j.createdAt < d * DayMs + DayMs
  }

  /** `journals[k]` is the first journal created during day `d`. */
  predicate FirstOn(journals: seq<Journals.Journal>, d: Day, k: int) {
    0 <= k < |journals| && CreatedOn(journals[k], d) && forall p :: 0 <= p < k ==> !CreatedOn(journals[p], d)
  }

  /** The first journal created during day `d` (`journals.find`). */
  function DayJournal(journals: seq<Journals.Journal>, d: Day): (r: Option<nat>)
    ensures r.Some? ==> r.value < |journals| && CreatedOn(journals[r.value], d)
    ensures r.Some? ==> forall k :: 0 <= k < r.value ==> !CreatedOn(journals[k], d)
    ensures r.None? ==> forall k :: 0 <= k < |journals| ==> !CreatedOn(journals[k], d)
  {
    if journals == [] then None
    else if CreatedOn(journals[0], d) then Some(0)
    else match DayJournal(journals[1..], d)
      case None => None
      case Some(k) => Some(k + 1)
  }

  /** A row of daily minutes: its `YYYY-MM-DD` key and its minutes. */
  datatype MinutesRow = MinutesRow(date: Breathing.Date, minutes: int)

  function BreathingMinutesRows(rows: seq<Breathing.DailyRow>): (r: seq<MinutesRow>)
    ensures |r| == |rows| && forall k :: 0 <= k < |rows| ==> r[k] == MinutesRow(rows[k].date, rows[k].minutes)
  {
    seq(|rows|, k requires 0 <= k < |rows| => MinutesRow(rows[k].date, rows[k].minutes))
  }

  /** `rows.find(m => m.date === key)?.minutes || 0`: the minutes of the
      first row for the key, 0 when there is none. */
  function MinutesOn(rows: seq<MinutesRow>, key: Breathing.Date): (m: int)
    ensures (forall k :: 0 <= k < |rows| ==> rows[k].date != key) ==> m == 0
    ensures forall k :: 0 <= k < |rows| && rows[k].date == key && (forall p :: 0 <= p < k ==> rows[p].date != key) ==>
      m == rows[k].minutes
  {
    if rows == [] then 0
    else if rows[0].date == key then rows[0].minutes
    else MinutesOn(rows[1..], key)
  }

  /** What the day card shows of a journal. */
  datatype JournalSummary = JournalSummary(id: Journals.JournalId, title: string, content: Option<string>, tags: seq<string>, wordCount: int)

  /** The card's journal: "Untitled" for an empty title, and the blocks'
      text only when the journal has content. */
  function Summary(j: Journals.Journal): (r: JournalSummary)
    ensures r.id == j.id && r.tags == j.tags && r.wordCount == j.wordCount
    ensures r.title == (if j.title == [] then "Untitled" else j.title)
    ensures r.content.Some? <==> j.content.Some?
    ensures r.content.Some? ==> r.content.value == ExtractText(j.content)
  {
    JournalSummary(j.id, if j.title == [] then "Untitled" else j.title,
                   if j.content.Some? then Some(ExtractText(j.content)) else None, j.tags, j.wordCount)
  }

  datatype DayCard = DayCard(day: Day, journal: Option<JournalSummary>, meditationMinutes: int, breathingMinutes: int)

  function Card(d: Day, journals: seq<Journals.Journal>, meditation: seq<MinutesRow>, breathing: seq<MinutesRow>,
                dayKey: Day -> Breathing.Date): (r: DayCard)
    ensures r.day == d
    ensures r.journal.Some? <==> exists k :: 0 <= k < |journals| && CreatedOn(journals[k], d)
    ensures r.journal.Some? ==> exists k :: FirstOn(journals, d, k) && r.journal.value == Summary(journals[k])
    ensures r.meditationMinutes == MinutesOn(meditation, dayKey(d))
    ensures r.breathingMinutes == MinutesOn(breathing, dayKey(d))
  {
    var found := DayJournal(journals, d);
    DayCard(d, if found.Some? then Some(Summary(journals[found.value])) else None,
            MinutesOn(meditation, dayKey(d)), MinutesOn(breathing, dayKey(d)))
  }

  /** `timelineData`: nothing until all three queries have answered, then
      one card per day of the week, today first. */
  function Timeline(days: seq<Day>, journals: Option<seq<Journals.Journal>>, meditation: Option<seq<MinutesRow>>,
                    breathing: Option<seq<MinutesRow>>, dayKey: Day -> Breathing.Date): (r: seq<DayCard>)
    ensures journals.None? || meditation.None? || breathing.None? ==> r == []
    ensures journals.Some? && meditation.Some? && breathing.Some? ==>
      && |r| == |days|
      && forall i :: 0 <= i < |days| ==> r[i] == Card(days[i], journals.value, meditation.value, breathing.value, dayKey)
  {
    if journals.None? || meditation.None? || breathing.None? then []
    else seq(|days|, i requires 0 <= i < |days| => Card(days[i], journals.value, meditation.value, breathing.value, dayKey))
  }

  /** A journal's day card, if that day is in the week, shows a journal,
      and it is this one when no earlier journal of the list was created
      that day (a journal written today shows on the first card). */
  lemma JournalOnItsDay(today: Day, journals: seq<Journals.Journal>, meditation: seq<MinutesRow>,
                        breathing: seq<MinutesRow>, dayKey: Day -> Breathing.Date, k: nat, d: Day)
    requires k < |journals| && CreatedOn(journals[k], d) && today - 6 <= d <= today
    ensures var r := Timeline(LastSevenDays(today), Some(journals), Some(meditation), Some(breathing), dayKey);
      r[today - d].day == d && r[today - d].journal.Some?
    ensures var r := Timeline(LastSevenDays(today), Some(journals), Some(meditation), Some(breathing), dayKey);
      FirstOn(journals, d, k) ==> r[today - d].journal == Some(Summary(journals[k]))
  {
    var days := LastSevenDays(today);
    var r := Timeline(days, Some(journals), Some(meditation), Some(breathing), dayKey);
    assert days[today - d] == d;
    assert r[today - d] == Card(d, journals, meditation, breathing, dayKey);
    if FirstOn(journals, d, k) {
      CardOfFirst(d, journals, meditation, breathing, dayKey, k);
    }
  }

  /** The card of a day shows the first journal created that day. */
  lemma CardOfFirst(d: Day, journals: seq<Journals.Journal>, meditation: seq<MinutesRow>, breathing: seq<MinutesRow>,
                    dayKey: Day -> Breathing.Date, k: nat)
    requires FirstOn(journals, d, k)
    ensures Card(d, journals, meditation, breathing, dayKey).journal == Some(Summary(journals[k]))
  {
    var found := DayJournal(journals, d);
    assert found.Some? && CreatedOn(journals[found.value], d);
    assert found.value >= k;
    assert found.value <= k;
  }
}
