// The calendar helpers of lib/calendar.ts: the normalisation of the events
// the calendar service returns for one day, the requests built to create,
// update and delete an event, and the quick-event times.
//
// The service itself is a parameter: each operation receives the access
// token (absent or empty when the user has not linked a calendar) and the
// reply the service would send. Instants are milliseconds since the epoch
// (`getTime()`); a date string the service returns is given already read
// as an instant: `Missing` when absent or empty, otherwise `Given` with the
// instant, or `None` when the string is not a date (an Invalid Date, whose
// time is NaN: every comparison with it is false and `Math.max` and
// `Math.min` with it give NaN again).

module Calendar {
  import opened Common

  const MinuteMs: int := 60 * 1000
  const HourMs: int := 60 * MinuteMs
  /** The day window's length; `setDate(getDate() + 1)` on a day without a
      daylight-saving change. */
  const DayMs: int := 24 * HourMs
  const NoTitle: string := "(No title)"

  /** An instant, `None` for an invalid date. */
  type Instant = Option<int>

  /** A date string of the reply: `Missing` when absent or empty (falsy),
      otherwise `Given` with what `new Date` reads from it. */
  datatype Field = Missing | Given(at: Instant)

  /** `new Date(str)`: an absent string is an invalid date. */
  function Read(f: Field): (r: Instant)
    ensures f.Given? ==> r == f.at
    ensures f.Missing? ==> r.None?
  {
    if f.Given? then f.at else None
  }

  /** `!token` is false: a token is present and non-empty. */
  predicate HasToken(token: Option<string>) {
    token.Some? && token.value != []
  }

  /** A start or end as the service sends it: a timed `dateTime` or an
      all-day `date`. */
  datatype EventTime = EventTime(dateTime: Field, date: Field)

  /** An item of the service's reply. */
  datatype Item = Item(id: string, summary: Option<string>, start: Option<EventTime>, end: Option<EventTime>)

  /** `item.start?.dateTime || item.start?.date`. */
  function Pick(t: Option<EventTime>): (r: Field)
    ensures t.Some? && t.value.dateTime.Given? ==> r == t.value.dateTime
    ensures t.Some? && t.value.dateTime.Missing? ==> r == t.value.date
    ensures t.None? ==> r.Missing?
  {
    if t.None? then Missing
    else if t.value.dateTime.Given? then t.value.dateTime
    else t.value.date
  }

  /** `item.summary || "(No title)"`. */
  function TitleOr(summary: Option<string>): (t: string)
    ensures summary.Some? && summary.value != [] ==> t == summary.value
    ensures summary.None? || summary.value == [] ==> t == NoTitle
    ensures t != []
  {
    if summary.Some? && summary.value != [] then summary.value else NoTitle
  }

  /** An event as the helpers return it: `start` and `end` are the
      instants shown (formatted as HH:MM), `startDate` and `endDate` the
      event's own. */
  datatype Event = Event(id: string, title: string, start: Instant, end: Instant, startDate: Instant, endDate: Instant)

  /** An item overlaps the day starting at `dayStart`. */
  predicate Overlaps(start: int, end: int, dayStart: int) {
    end > dayStart && start < dayStart + DayMs
  }

  /** `endDate <= dayStart || startDate >= dayEnd`: false when either
      side it compares is an invalid date. */
  predicate OutsideDay(start: Instant, end: Instant, dayStart: int) {
    (end.Some? && end.value <= dayStart) || (start.Some? && start.value >= dayStart + DayMs)
  }

  /** `Math.max` and `Math.min` of an instant with a day bound. */
  function MaxAt(t: Instant, bound: int): (r: Instant)
    ensures r.Some? <==> t.Some?
    ensures r.Some? ==> r.value >= bound && r.value >= t.value && (r.value == bound || r.value == t.value)
  {
    if t.Some? then Some(Max(t.value, bound)) else None
  }

  function MinAt(t: Instant, bound: int): (r: Instant)
    ensures r.Some? <==> t.Some?
    ensures r.Some? ==> r.value <= bound && r.value <= t.value && (r.value == bound || r.value == t.value)
  {
    if t.Some? then Some(Min(t.value, bound)) else None
  }

  /** The map step of `listEventsForDay`: an item without a start or an
      end string, or whose dates put it outside the day, is dropped; the
      rest are shown clipped to the day. An invalid date is never outside
      the day, so its item is kept, with invalid shown bounds. */
  function Normalize(item: Item, dayStart: int): (r: Option<Event>)
    ensures r.Some? <==> Pick(item.start).Given? && Pick(item.end).Given? &&
                         !OutsideDay(Pick(item.start).at, Pick(item.end).at, dayStart)
    ensures r.Some? ==>
      && r.value.id == item.id && r.value.title == TitleOr(item.summary)
      && r.value.startDate == Pick(item.start).at && r.value.endDate == Pick(item.end).at
      && r.value.start == MaxAt(Pick(item.start).at, dayStart)
      && r.value.end == MinAt(Pick(item.end).at, dayStart + DayMs)
  {
    var s := Pick(item.start);
    var e := Pick(item.end);
    if s.Missing? || e.Missing? then None
    else if OutsideDay(s.at, e.at, dayStart) then None
    else Some(Event(item.id, TitleOr(item.summary), MaxAt(s.at, dayStart), MinAt(e.at, dayStart + DayMs), s.at, e.at))
  }

  /** Between valid dates, being kept is overlapping the day. */
  lemma KeptIffOverlaps(start: int, end: int, dayStart: int)
    ensures !OutsideDay(Some(start), Some(end), dayStart) <==> Overlaps(start, end, dayStart)
  {
  }

  /** The service's reply to the day's listing: its status and its
      `items`, which may be missing. */
  datatype ListReply = ListReply(ok: bool, items: Option<seq<Item>>)

  /** `listEventsForDay`: nothing without a token or on a failed reply;
      otherwise the normalised items, in the service's order. */
  function ListEventsForDay(token: Option<string>, dayStart: int, reply: ListReply): (r: seq<Event>)
    ensures !HasToken(token) || !reply.ok ==> r == []
    ensures |r| <= |reply.items.GetOr([])|
  {
    if !HasToken(token) || !reply.ok then []
    else FilterMap(reply.items.GetOr([]), item => Normalize(item, dayStart))
  }

  /** The events listed are exactly the normalised items that are kept. */
  lemma ListedIffKept(token: Option<string>, dayStart: int, reply: ListReply, ev: Event)
    requires HasToken(token) && reply.ok
    ensures ev in ListEventsForDay(token, dayStart, reply) <==>
      exists k :: 0 <= k < |reply.items.GetOr([])| && Normalize(reply.items.GetOr([])[k], dayStart) == Some(ev)
  {
    FilterMapExactly(reply.items.GetOr([]), item => Normalize(item, dayStart), ev);
  }

  /** Every event listed with valid dates overlaps the day; each valid
      bound is shown within the day and within the event's own interval,
      and a shown bound is invalid exactly when its date is. */
  lemma ListedWithinDay(token: Option<string>, dayStart: int, reply: ListReply, ev: Event)
    requires ev in ListEventsForDay(token, dayStart, reply)
    ensures ev.start.Some? <==> ev.startDate.Some?
    ensures ev.end.Some? <==> ev.endDate.Some?
    ensures ev.startDate.Some? && ev.endDate.Some? ==> Overlaps(ev.startDate.value, ev.endDate.value, dayStart)
    ensures ev.start.Some? ==> dayStart <= ev.start.value < dayStart + DayMs && ev.startDate.value <= ev.start.value
    ensures ev.end.Some? ==> dayStart < ev.end.value <= dayStart + DayMs && ev.end.value <= ev.endDate.value
    ensures ev.title != []
  {
    ListedIffKept(token, dayStart, reply, ev);
    var k :| 0 <= k < |reply.items.GetOr([])| && Normalize(reply.items.GetOr([])[k], dayStart) == Some(ev);
  }

  /** An item with a valid start and end that overlaps the day is listed. */
  lemma OverlappingItemListed(token: Option<string>, dayStart: int, reply: ListReply, k: int)
    requires HasToken(token) && reply.ok && reply.items.Some?
    requires 0 <= k < |reply.items.value|
    requires var item := reply.items.value[k];
      && Pick(item.start).Given? && Pick(item.start).at.Some? && Pick(item.end).Given? && Pick(item.end).at.Some?
      && Overlaps(Pick(item.start).at.value, Pick(item.end).at.value, dayStart)
    ensures Normalize(reply.items.value[k], dayStart).Some?
    ensures Normalize(reply.items.value[k], dayStart).value in ListEventsForDay(token, dayStart, reply)
  {
    ListedIffKept(token, dayStart, reply, Normalize(reply.items.value[k], dayStart).value);
  }

  /** An item whose start string is not a date is listed, with an invalid
      shown start, whenever its end is not before the day: the
      comparison with an invalid date cannot drop it. */
  lemma InvalidStartListed(token: Option<string>, dayStart: int, reply: ListReply, k: int)
    requires HasToken(token) && reply.ok && reply.items.Some?
    requires 0 <= k < |reply.items.value|
    requires var item := reply.items.value[k];
      && Pick(item.start) == Given(None) && Pick(item.end).Given?
      && (Pick(item.end).at.Some? ==> Pick(item.end).at.value > dayStart)
    ensures Normalize(reply.items.value[k], dayStart).Some?
    ensures Normalize(reply.items.value[k], dayStart).value in ListEventsForDay(token, dayStart, reply)
    ensures Normalize(reply.items.value[k], dayStart).value.start.None?
  {
    ListedIffKept(token, dayStart, reply, Normalize(reply.items.value[k], dayStart).value);
  }

  /** The event an item of a create or update reply becomes: not
      clipped, and `None` where the item has no valid date. */
  function FromItem(item: Item): (ev: Event)
    ensures ev.id == item.id && ev.title == TitleOr(item.summary)
    ensures ev.start == Read(Pick(item.start)) == ev.startDate && ev.end == Read(Pick(item.end)) == ev.endDate
  {
    Event(item.id, TitleOr(item.summary), Read(Pick(item.start)), Read(Pick(item.end)),
          Read(Pick(item.start)), Read(Pick(item.end)))
  }

  /** A reply to a create or update request. */
  datatype Reply = Reply(ok: bool, status: int, item: Item)

  datatype CreateInput = CreateInput(title: string, start: int, end: int, description: Option<string>)

  /** The body of a create request. */
  datatype Body = Body(summary: string, description: Option<string>, start: int, end: int)

  /** `createEvent`'s request: none without a token; an empty description
      is left out. */
  function CreateRequest(token: Option<string>, input: CreateInput): (b: Option<Body>)
    ensures b.Some? <==> HasToken(token)
    ensures b.Some? ==> b.value.summary == input.title && b.value.start == input.start && b.value.end == input.end
    ensures b.Some? ==> b.value.description == (if input.description == Some([]) then None else input.description)
  {
    if !HasToken(token) then None
    else Some(Body(input.title, if input.description == Some([]) then None else input.description, input.start, input.end))
  }

  /** `createEvent`'s result: `null` without a token or on a failed reply. */
  function CreateEvent(token: Option<string>, input: CreateInput, reply: Reply): (r: Option<Event>)
    ensures r.Some? <==> HasToken(token) && reply.ok
    ensures r.Some? ==> r.value == FromItem(reply.item)
  {
    if !HasToken(token) || !reply.ok then None else Some(FromItem(reply.item))
  }

  /** The item a service stores for a body. */
  function Stored(id: string, b: Body): Item {
    Item(id, Some(b.summary), Some(EventTime(Given(Some(b.start)), Missing)), Some(EventTime(Given(Some(b.end)), Missing)))
  }

  /** When the service stores what was sent, the event returned has the
      title (or "(No title)") and the times that were asked for. */
  lemma CreateRoundTrip(token: Option<string>, input: CreateInput, id: string, status: int)
    requires HasToken(token)
    ensures var r := CreateEvent(token, input, Reply(true, status, Stored(id, CreateRequest(token, input).value)));
      && r.Some? && r.value.id == id && r.value.title == TitleOr(Some(input.title))
      && r.value.startDate == Some(input.start) && r.value.endDate == Some(input.end)
  {
  }

  datatype UpdateInput = UpdateInput(id: string, title: Option<string>, start: Option<int>, end: Option<int>,
                                     description: Option<string>)

  datatype PatchValue = Text(text: string) | DateTime(instant: int)

  /** The body of a `PATCH` request, by field name. */
  type Patch = map<string, PatchValue>

  /** The fields a patch carries back as an update input. */
  function ReadBack(id: string, patch: Patch): (u: UpdateInput)
    ensures u.id == id
  {
    UpdateInput(id,
      if "summary" in patch && patch["summary"].Text? then Some(patch["summary"].text) else None,
      if "start" in patch && patch["start"].DateTime? then Some(patch["start"].instant) else None,
      if "end" in patch && patch["end"].DateTime? then Some(patch["end"].instant) else None,
      if "description" in patch && patch["description"].Text? then Some(patch["description"].text) else None)
  }

  /** An empty string is falsy: such a field is not supplied. */
  function Supplied(s: Option<string>): Option<string> {
    if s == Some([]) then None else s
  }

  /** `updateEvent`'s patch, built field by field: it holds exactly the
      fields supplied, and reading it back gives the input. */
  method BuildPatch(input: UpdateInput) returns (patch: Patch)
    ensures patch.Keys <= {"summary", "description", "start", "end"}
    ensures "summary" in patch <==> Supplied(input.title).Some?
    ensures "description" in patch <==> Supplied(input.description).Some?
    ensures "start" in patch <==> input.start.Some?
    ensures "end" in patch <==> input.end.Some?
    ensures ReadBack(input.id, patch) ==
      UpdateInput(input.id, Supplied(input.title), input.start, input.end, Supplied(input.description))
  {
    patch := map[];
    if Supplied(input.title).Some? {
      patch := patch["summary" := Text(input.title.value)];
    }
    if Supplied(input.description).Some? {
      patch := patch["description" := Text(input.description.value)];
    }
    if input.start.Some? {
      patch := patch["start" := DateTime(input.start.value)];
    }
    if input.end.Some? {
      patch := patch["end" := DateTime(input.end.value)];
    }
  }

  /** `updateEvent`: without a token nothing is sent and the result is
      `null`; otherwise the patch is sent and a successful reply's item
      is returned. */
  method UpdateEvent(token: Option<string>, input: UpdateInput, reply: Reply) returns (sent: Option<Patch>, r: Option<Event>)
    ensures sent.Some? <==> HasToken(token)
    ensures sent.Some? ==>
      ReadBack(input.id, sent.value) ==
        UpdateInput(input.id, Supplied(input.title), input.start, input.end, Supplied(input.description))
    ensures r.Some? <==> HasToken(token) && reply.ok
    ensures r.Some? ==> r.value == FromItem(reply.item)
  {
    if !HasToken(token) {
      return None, None;
    }
    var patch := BuildPatch(input);
    sent := Some(patch);
    if !reply.ok {
      return sent, None;
    }
    r := Some(FromItem(reply.item));
  }

  /** `res.ok`: a 2xx status. */
  predicate Ok(status: int) {
    200 <= status < 300
  }

  /** `deleteEvent`: an event already gone (404 or 410) counts as
      deleted. */
  function DeleteEvent(token: Option<string>, status: int): (deleted: bool)
    ensures !HasToken(token) ==> !deleted
    ensures HasToken(token) && (Ok(status) || status == 404 || status == 410) ==> deleted
    ensures deleted ==> Ok(status) || status == 404 || status == 410
  {
    HasToken(token) && (Ok(status) || status == 410 || status == 404)
  }

  /** With no token, no helper reaches the service. */
  lemma NoTokenNoEffect(token: Option<string>, dayStart: int, reply: ListReply, input: CreateInput, created: Reply, status: int)
    requires !HasToken(token)
    ensures ListEventsForDay(token, dayStart, reply) == []
    ensures CreateRequest(token, input).None? && CreateEvent(token, input, created).None?
    ensures !DeleteEvent(token, status)
  {
  }

  /** A quick-event time: the hour and, after a colon, the minutes. */
  datatype ClockTime = ClockTime(hours: int, minutes: Option<int>)

  /** `setHours(h, m ?? 0, 0, 0)` on the day's local midnight; hours and
      minutes out of range carry into the neighbouring days. */
  function At(day: int, t: ClockTime): int {
    day + t.hours * HourMs + t.minutes.GetOr(0) * MinuteMs
  }

  /** `createQuickEvent`'s times: today at the given times, and an end not
      after the start moved to thirty minutes after it. */
  method QuickEventTimes(day: int, startTime: ClockTime, endTime: ClockTime) returns (start: int, end: int)
    ensures start == At(day, startTime)
    ensures end > start
    ensures At(day, endTime) > start ==> end == At(day, endTime)
    ensures At(day, endTime) <= start ==> end == start + 30 * MinuteMs
  {
    start := day + startTime.hours * HourMs + startTime.minutes.GetOr(0) * MinuteMs;
    end := day + endTime.hours * HourMs + endTime.minutes.GetOr(0) * MinuteMs;
    if end <= start {
      end := start + 30 * MinuteMs;
    }
  }

  /** `createQuickEvent`: the event created today, whose body always ends
      after it starts. */
  method CreateQuickEvent(token: Option<string>, day: int, startTime: ClockTime, endTime: ClockTime,
                          title: string, description: Option<string>, reply: Reply)
    returns (sent: Option<Body>, r: Option<Event>)
    ensures sent.Some? <==> HasToken(token)
    ensures sent.Some? ==> sent.value.summary == title && sent.value.start == At(day, startTime)
    ensures sent.Some? ==> sent.value.end > sent.value.start
    ensures sent.Some? && At(day, endTime) > At(day, startTime) ==> sent.value.end == At(day, endTime)
    ensures r.Some? <==> HasToken(token) && reply.ok
  {
    var start, end := QuickEventTimes(day, startTime, endTime);
    var input := CreateInput(title, start, end, description);
    sent := CreateRequest(token, input);
    r := CreateEvent(token, input, reply);
  }
}
