# You. — a verified model of the wellness diary's core

"You." is a wellness diary. A user writes journal entries, builds a daily
streak by finishing them, and runs guided meditation and breathing sessions.
A first-run onboarding wizard records their mood, lifestyle, mental-health
answers and goals, and an AI reflection is produced from them. Their days are
laid out as calendar blocks. This project models that core in Dafny and proves
what the code promises.

**The backend**

Each Convex mutation (a server-side function that changes the database) is one
method of a class that owns its table:

- `Journals.JournalStore`: journal entries and the ownership guard.
- `Streaks.StreakTable`: the per-user streak record.
- `Breathing.DailyTable`: per-day breathing totals.
- `Users.UserStore`: users and their onboarding responses.

Queries are functions over those tables. Days are day numbers. The clock
(`today`, `now`) is always a parameter.

**The client pages**

The client pages are modelled on their own terms:

- The calendar panel: `TimeBlock`, with its greedy lane layout proved on an
  in-place sort.
- The streak capsule: `StreakWidget`.
- The seven-day journey: `Journey`.
- The two countdown timers: `Meditation` and `BreathingPage`, as classes whose
  methods are the page's callbacks and effects.
- The onboarding wizard: `OnboardingPage.Wizard`.
- The search page: `SearchPage`.
- The today page: `TodayPage`.
- The calendar helpers of `lib/calendar.ts`: `Calendar`.

The calendar service, the AI service and the browser clock are parameters.
Each operation receives the reply or the clock reading it would have seen.

Shared modules: `Common` (option and outcome types), `Text` (JavaScript
`trim`, ASCII lower-casing, substring search, `Number` of decimal strings,
number rendering) and
`Countdown` (`clampNumber` and the `mm:ss` rendering both timers use).

## Model

| member | source | states |
|---|---|---|
| Streaks.Credit | convex/journals.ts:259-306 | a credit always leaves today as the last entry and `now` as updatedAt, never lowers the longest streak, keeps achievements and creation time, and preserves longest ≥ current |
| Streaks.CreditFirst | convex/journals.ts:272-282 | with no record, a credit creates current = 1, longest = 1, last entry today, no achievements |
| Streaks.CreditSameDay | convex/journals.ts:287-291 | a second credit on the same day changes nothing but updatedAt |
| Streaks.CreditNextDayOrGap | convex/journals.ts:293-305 | a credit the day after the last entry adds one; any other earlier last entry restarts at 1; longest becomes max(current, old longest) |
| Streaks.CreditDays | convex/journals.ts:259-306 | repeated credits keep the record's owner; no credits leave it unchanged |
| Streaks.CreditStartsRun | convex/journals.ts:272-282 | the first credit of an untouched record counts a run of one day |
| Streaks.CreditKeepsRun | convex/journals.ts:284-305 | one more credit, on a day no earlier than the last, keeps current equal to the length of the run of consecutive credited days ending on it |
| Streaks.CreditDaysCountsRun | convex/journals.ts:259-306 | after crediting any non-decreasing sequence of days, current is the length of the run of consecutive days ending at the last one and longest ≥ current |
| Streaks.Lookup | convex/journals.ts:264-268 | the record is found iff the user has one |
| Streaks.StreakTable.CreditToday | convex/journals.ts:259-306 | the table changes only at the user's key, to the credited record, and stays one record per user |
| Journals.Find | convex/journals.ts:37 | the position found holds the id; none means no entry has it |
| Journals.Access | convex/journals.ts:56-59 | the ownership guard: the position of the entry with that id owned by the user, none otherwise |
| Journals.GetJournal | convex/journals.ts:34-46 | the entry is returned iff one with that id belongs to the user; otherwise null |
| Journals.NewJournal | convex/journals.ts:13-27 | a new entry is titled "New Journal" when the title is absent or empty, is a private draft with no content, no tags and word count 0, and is custom-prompt only when asked |
| Journals.WithContent | convex/journals.ts:128-134 | a content save sets content, draft flag and word count (0 when absent), stamps the times, and changes no other field |
| Journals.CreateSaveGetRoundTrip | convex/journals.ts:6-46 | create, then save as finished, then get returns the saved content, word count and a cleared draft flag |
| Journals.NewestFirst | convex/journals.ts:176-180 | the user's entries, exactly, from the by-user index |
| Journals.NewestFirstOrdered | convex/journals.ts:176-180 | the descending index lists ids strictly decreasing |
| Journals.Take | convex/journals.ts:180 | `.take(n)` is the first min(n, length) items |
| Journals.FilterMatches | convex/journals.ts:233-244 | the filter keeps order and keeps exactly the entries passing the tests |
| Journals.NormalizeQuery | convex/journals.ts:228 | the search text is trimmed and lower-cased; it is empty exactly when absent or blank |
| Journals.ResolveFilters | convex/journals.ts:218-231 | drafts are included unless includeDrafts is false; tag, bounds and normalised text pass through |
| Journals.Window | convex/journals.ts:220-225 | the head of the user's entries newest first, min(limit, their count) long; with ids increasing with insertion it is newest first and every entry of the user left out is older than every entry kept |
| Journals.PrefixLeavesOlder | convex/journals.ts:220-225 | a head of the user's descending list leaves out only entries older than all it keeps |
| Journals.SearchUserJournals | convex/journals.ts:208-247 | an order-preserving selection of the newest `limit` (default 200) entries of exactly those passing the draft, tag, inclusive time-range and title-or-prompt text tests |
| Journals.SearchBounds | convex/journals.ts:208-247 | a search returns at most `limit` entries, only the user's own, and no draft when drafts are excluded |
| Journals.GetUserJournals | convex/journals.ts:167-193 | the user's newest `limit` entries (50 when absent or zero), without drafts exactly when includeDrafts is false |
| Journals.JournalStore.CreateJournal | convex/journals.ts:6-32 | the new entry is appended with a fresh id that the owner can then access |
| Journals.JournalStore.Get | convex/journals.ts:34-46 | returns what `GetJournal` specifies |
| Journals.JournalStore.UpdateTitle | convex/journals.ts:49-66 | on a missing or foreign entry it fails and changes nothing; otherwise only title and updatedAt change |
| Journals.JournalStore.UpdatePrompt | convex/journals.ts:69-88 | the same guard; otherwise only prompt, isCustomPrompt and updatedAt change |
| Journals.JournalStore.UpdateTags | convex/journals.ts:91-108 | the same guard; otherwise the tag list is replaced whole |
| Journals.JournalStore.SaveContent | convex/journals.ts:111-141 | the same guard; the draft flag defaults to the entry's own; the owner's streak is credited exactly when the saved entry is not a draft |
| Journals.JournalStore.AutoSaveContent | convex/journals.ts:144-165 | the same guard; content and word count change, the draft flag and the streak do not |
| Journals.JournalStore.Delete | convex/journals.ts:195-206 | the same guard; otherwise exactly that entry is removed and the rest keep their order |
| Breathing.Round | convex/breathing.ts:27 | `Math.round`: the nearest integer with halves rounded up, never negative for a non-negative input |
| Breathing.FindDay | convex/breathing.ts:15-20 | the position of the user's row for that date, none when there is none |
| Breathing.Upsert | convex/breathing.ts:9-40 | a new day gets minutes max(0, round m) and one session; an existing day adds the rounded minutes (floored at 0) and one session; one row per user and date is kept |
| Breathing.UpsertTotals | convex/breathing.ts:9-40 | an upsert adds max(0, ·) of the rounded minutes and one session to that day's totals, starting from (0, 0) for a day with no row |
| Breathing.SessionDate | convex/breathing.ts:49 | the date given, or today when it is absent or empty |
| Breathing.LogSession | convex/breathing.ts:42-53 | logging keeps one row per user and date, adds at most one row, and adds round(max(0, m)) minutes and one session to the totals of the given date, or of today when the date is absent or empty |
| Breathing.LogSessionOtherDays | convex/breathing.ts:42-53 | logging a session leaves every other user's and day's totals unchanged |
| Breathing.FindDayUnique | convex/breathing.ts:15-20 | with keys unique, the row found is the one holding the key |
| Breathing.LogAllTotals | convex/breathing.ts:9-53 | after logging a list of sessions with one date argument on a day with no row (that date, or today without one), the row holds the sum of their rounded minutes and their count |
| Breathing.RecentDays | convex/breathing.ts:58 | days is clamped to [1, 60], 14 by default |
| Breathing.GetRecent | convex/breathing.ts:55-67 | the newest 2·days rows of the user, a prefix of their rows newest first, and all of them when fewer |
| Breathing.DailyTable.UpsertDaily | convex/breathing.ts:9-40 | the table becomes `Upsert` of the old one |
| Breathing.DailyTable.LogSessionNow | convex/breathing.ts:42-53 | the table becomes `LogSession` of the old one, and the reply is ok |
| Users.StepOf | convex/users.ts:162-347 | each step mutation records its step, 1 to 5 |
| Users.ApplyStep | convex/users.ts:162-347 | a step mutation sets its own field, raises currentStep to max(old, step), and changes nothing else |
| Users.StepsMonotone | convex/users.ts:162-347 | after any sequence of step mutations, currentStep is max(old, highest step sent), so it never goes down |
| Users.NewUser | convex/users.ts:31-39 | a new user is not onboarded and has the given email, name and image |
| Users.ZeroedStreak | convex/users.ts:42-49 | the streak row created with a user has streaks 0, no last entry, no achievements |
| Users.NewResponse | convex/users.ts:124-130 | a new onboarding response is at step 0 with no answers |
| Users.WithWelcome | convex/users.ts:390-412 | completing onboarding replaces the achievements with the single welcome entry, keeping the streak counts |
| Users.CompleteTwiceOneAchievement | convex/users.ts:398-411 | completing twice still leaves exactly one achievement |
| Users.NeedsOnboarding | convex/users.ts:73-95 | an unknown user is new and needs onboarding; a known one needs it iff not completed |
| Users.DashboardData | convex/users.ts:450-485 | null for an unknown user; otherwise the user, their streak and response when present, and needsOnboarding = not completed |
| Users.DashboardAgreesWithNeedsOnboarding | convex/users.ts:73-95 | the dashboard's needsOnboarding agrees with `needsOnboarding` for a known user |
| Users.UniqueRow | convex/users.ts:391-396 | `.unique()` throws exactly when more than one row matches |
| Users.CreateStreakRowAsWritten | convex/users.ts:42-49 | as written, creating a user always inserts one more streak row |
| Users.DuplicateStreakRow | convex/users.ts:42-49 | a user credited before onboarding ends with two streak rows, and `.unique()` then fails |
| Users.CreateStreakRow | convex/users.ts:42-49 | corrected: the zeroed row is inserted only when the user has none, and other rows are kept |
| Users.UserStore.GetOrCreateUser | convex/users.ts:10-56 | an existing user is returned unchanged; a new one is inserted with a streak row, which is zeroed only if none existed |
| Users.UserStore.StartOnboarding | convex/users.ts:100-145 | an unknown user fails with "User not found"; otherwise the start time is stamped and the existing response, or a new step-0 one, is returned |
| Users.UserStore.UpdateStep | convex/users.ts:162-347 | without a response it fails with "Onboarding not started"; otherwise the response becomes `ApplyStep` of the old one |
| Users.UserStore.CompleteOnboarding | convex/users.ts:349-421 | fails for an unknown user or a missing response; otherwise marks the user onboarded, sets step 6 and the completion time, and gives the welcome achievement to an existing streak row |
| TimeBlock.ParseHM | components/diary/time-block.tsx:30-33 | `parseHM` is a number exactly when the string has a ':' and `Number` of the part before it and of the part after it are both numbers; it is then hours plus minutes over sixty |
| TimeBlock.ParseHMDigits | components/diary/time-block.tsx:30-33 | hour and minute parts of digits, either possibly empty and then 0, give hours plus minutes over sixty ("10:" is 10, ":30" is 0.5) |
| TimeBlock.ParseHMNoColon | components/diary/time-block.tsx:30-33 | a string without ':' is not a number (NaN) |
| TimeBlock.ParseFormatHM | components/diary/time-block.tsx:30-33 | parsing a rendered time gives back hours plus minutes over sixty |
| TimeBlock.ExactlyOneColumn | components/diary/time-block.tsx:177-182 | a start hour of the day falls in exactly one of the columns 0, 6, 12, 18 |
| TimeBlock.SlotOf | components/diary/time-block.tsx:196-197 | an event gets a slot iff both its times parse, with those times; see Left out for an end that does not parse |
| TimeBlock.ColumnSlots | components/diary/time-block.tsx:178-185 | the column's slots are exactly those of the events whose start and end parse and whose start lies in the column |
| TimeBlock.SortSlots | components/diary/time-block.tsx:187-193 | the in-place sort leaves the events ordered by start, longer first on ties, and is a permutation |
| TimeBlock.ClampEnd | components/diary/time-block.tsx:198-199 | the drawn end is the end, cut at the column's end |
| TimeBlock.FirstFreeLane | components/diary/time-block.tsx:200 | the first lane whose end is at most the start plus 0.0001, none when no lane is free |
| TimeBlock.ChooseLane | components/diary/time-block.tsx:200-205 | the lane an event goes to is the first whose end is at most its start plus 0.0001, or a new lane after the others when none is |
| TimeBlock.Height | components/diary/time-block.tsx:210-214 | the height is trimmed so the block never runs past the bottom of the column |
| TimeBlock.GreedyStep | components/diary/time-block.tsx:195-206 | placing an event in a free lane or a new lane keeps the events of each lane disjoint |
| TimeBlock.GreedyDone | components/diary/time-block.tsx:195-217 | once all events are placed, lanes are in range, the last lane is used, and events in one lane do not overlap |
| TimeBlock.AssignLanes | components/diary/time-block.tsx:194-215 | every sorted event, in order, goes to the lane `ChooseLane` picks from the lane ends the events before it left (first free, else new), with top (s − c)/6·100 and its trimmed height; every lane opened is used and events sharing a lane do not overlap |
| TimeBlock.MaxLane | components/diary/time-block.tsx:216 | `Math.max(0, ...lanes)`: an upper bound that is 0 or is attained |
| TimeBlock.LayoutColumn | components/diary/time-block.tsx:176-217 | the column's events, as a sorted permutation of those starting in it, each in the greedily chosen lane with top (s − c)/6·100, its trimmed height and the lane count max(1, lanes opened), all inside the column's box |
| TimeBlock.LaneCountIsLanesOpened | components/diary/time-block.tsx:216-217 | the lane count is the number of lanes opened, at least 1 |
| TimeBlock.Rename | components/diary/time-block.tsx:97-99 | only the events with that id are renamed |
| TimeBlock.RemoveId | components/diary/time-block.tsx:341-343 | the events in their order less exactly those with the id, every other event kept as often as it occurs |
| TimeBlock.RemoveIdIdempotent | components/diary/time-block.tsx:341-343 | deleting twice is deleting once |
| TimeBlock.Panel.BeginEdit | components/diary/time-block.tsx:81-84 | editing starts with the current title |
| TimeBlock.Panel.CancelEdit | components/diary/time-block.tsx:86-89 | editing ends with the text cleared |
| TimeBlock.Panel.CommitEdit | components/diary/time-block.tsx:91-105 | nothing while no id, or the empty id, is being edited; a blank title only cancels; otherwise the event is renamed to the trimmed title |
| TimeBlock.Panel.Delete | components/diary/time-block.tsx:338-345 | the events become `RemoveId` of the old list |
| TimeBlock.Panel.ToggleSelect | components/diary/time-block.tsx:290 | a click selects the event, or clears the selection when it was selected |
| TimeBlock.Panel.BeginDrag | components/diary/time-block.tsx:237-242 | a new drag spans half an hour from the snapped start |
| TimeBlock.Panel.DragTo | components/diary/time-block.tsx:389-393 | dragging keeps the end at least a quarter hour after the start |
| StreakWidget.Plural | components/diary/streak-widget.tsx:32-34 | the count, a space and the word, with "s" unless the count is 1 |
| StreakWidget.PluralCount | components/diary/streak-widget.tsx:32-34 | the count reads back from the phrase |
| StreakWidget.FormatDate | components/diary/streak-widget.tsx:22-30 | a dash for an absent or empty date, otherwise the localised date |
| StreakWidget.WindowDays | components/diary/streak-widget.tsx:47-54 | five consecutive days ending today |
| StreakWidget.CheckedSet | components/diary/streak-widget.tsx:57-69 | empty without a streak or last entry; otherwise exactly the `current` days ending at the last entry |
| StreakWidget.DayItems | components/diary/streak-widget.tsx:71-75 | each window day with its label, ticked iff in the streak |
| StreakWidget.HasAchievements | components/diary/streak-widget.tsx:77 | true iff the record has an achievement |
| StreakWidget.CapsuleAfterCredit | components/diary/streak-widget.tsx:57-75 | after a credit today, today's capsule is ticked, and yesterday's is ticked iff the streak is longer than one day |
| Journey.BlockText | app/diary/journey/page.tsx:21-34 | a block's text: its items' texts run together, a rendering of other content, or nothing |
| Journey.ExtractText | app/diary/journey/page.tsx:17-37 | the joined text less the white space at its two ends: a slice of it with only white space around, empty iff the joined text is blank; empty without blocks |
| Journey.BlankBlocksNoText | app/diary/journey/page.tsx:17-37 | a journal shows no text iff every block holds only white space or nothing |
| Journey.LastSevenDays | app/diary/journey/page.tsx:52-62 | seven days, today first, each one day before the previous |
| Journey.DaysList | app/diary/journey/page.tsx:43-64 | the range runs from six days ago to today, and the loop-built list, once reversed, is `LastSevenDays` |
| Journey.LastSevenDaysDescending | app/diary/journey/page.tsx:52-62 | the days are strictly descending and are exactly those from today − 6 to today |
| Journey.DayJournal | app/diary/journey/page.tsx:88-94 | the first journal created within the day's 24 hours, none when there is none |
| Journey.MinutesOn | app/diary/journey/page.tsx:97-98 | the minutes of the first row for that date, 0 when there is none |
| Journey.Summary | app/diary/journey/page.tsx:104-115 | "Untitled" for an empty title, the extracted text when there is content |
| Journey.Card | app/diary/journey/page.tsx:86-130 | a card has a journal iff one was created that day, and it is the summary of the first journal of the list created that day; and the day's meditation and breathing minutes |
| Journey.CardOfFirst | app/diary/journey/page.tsx:88-94 | the card of a day shows the summary of the first journal of the list created that day |
| Journey.Timeline | app/diary/journey/page.tsx:83-86 | nothing until all three queries have answered, then one card per day |
| Journey.JournalOnItsDay | app/diary/journey/page.tsx:83-130 | a journal created on one of the seven days puts a journal on that day's card, its own when no earlier journal of the list is from that day |
| Countdown.ClampNumber | app/diary/space/meditation/page.tsx:17-18 | the value clamped to [min, max], unchanged when inside |
| Countdown.Seconds | app/diary/space/meditation/page.tsx:50 | whole seconds left, 0 for a negative time |
| Countdown.Fmt | app/diary/space/meditation/page.tsx:49-56 | `mm:ss` with a two-digit seconds field below 60, and mm·60 + ss equal to the seconds left |
| Countdown.FmtNegative | app/diary/space/meditation/page.tsx:49-56 | a negative time left shows "00:00" |
| Meditation.InitialMinutes | app/diary/space/meditation/page.tsx:33-36 | a finite positive parameter clamped to [1, 180], otherwise 10 |
| Meditation.Progress | app/diary/space/meditation/page.tsx:164-168 | progress is in [0, 1], 0 for a non-positive total, 1 when no time is left, and the fraction done otherwise |
| Meditation.Timer.SetMinutes | app/diary/space/meditation/page.tsx:67-71 | the slider's minutes, clamped to [1, 60], reset the countdown to the new total |
| Meditation.Timer.Start | app/diary/space/meditation/page.tsx:91-99 | nothing while running; otherwise running in timer mode, with an end time of now plus the time left unless one is set |
| Meditation.Timer.Pause | app/diary/space/meditation/page.tsx:136-145 | nothing unless running; otherwise stopped, with the time left frozen at max(0, end − now) and the end time cleared |
| Meditation.Timer.Tick | app/diary/space/meditation/page.tsx:74-89 | while running, the time left is refreshed; at zero the countdown stops and ends |
| Meditation.Timer.Rehydrate | app/diary/space/meditation/page.tsx:148-152 | a running timer without an end time gets one; a valid timer is left alone |
| Meditation.Timer.Reset | app/diary/space/meditation/page.tsx:58-64 | stopped, not ended, the full time left, no end time, and the log guard cleared |
| Meditation.Timer.LogIfEnded | app/diary/space/meditation/page.tsx:155-161 | an ended session is logged once, for a signed-in user, with its minutes |
| Meditation.Timer.ShownProgress | app/diary/space/meditation/page.tsx:164-168 | the bar is in [0, 1] and at 0 before the session starts |
| BreathingPage.ParamOr | app/diary/space/breathing/page.tsx:25-40 | a parameter above its threshold is clamped into range, otherwise the default |
| BreathingPage.InitialSettings | app/diary/space/breathing/page.tsx:25-40 | minutes in [1, 60] (3 by default), inhale and exhale in [1, 30] (4), hold in [0, 30] (0) |
| BreathingPage.PresetTimes | app/diary/space/breathing/page.tsx:157-171 | box is 4-4-4, 4-7-8 is 4-7-8, calm is 4-0-6 |
| BreathingPage.CyclePhases | app/diary/space/breathing/page.tsx:106-124 | one pass is inhale, hold, exhale when hold > 0, and inhale, exhale otherwise |
| BreathingPage.RepeatPhases | app/diary/space/breathing/page.tsx:105-127 | position i·len + j of n cycles, len being the cycle length, shows phase j of the cycle |
| BreathingPage.Session.SetMinutes | app/diary/space/breathing/page.tsx:240 | the minutes input, clamped to [1, 60]; the effect on `totalMs` (page.tsx:72-74) resets the time left to the new total only when the clamped minutes change, so a paused or ended session keeps its time left otherwise |
| BreathingPage.Session.SetTimes | app/diary/space/breathing/page.tsx:255-279 | inhale and exhale clamped to [1, 30], hold to [0, 30] |
| BreathingPage.Session.SetPreset | app/diary/space/breathing/page.tsx:157-171 | the preset's three times are set |
| BreathingPage.Session.Reset | app/diary/space/breathing/page.tsx:62-69 | stopped, not ended, inhale, the full time left, no end time |
| BreathingPage.Session.Start | app/diary/space/breathing/page.tsx:95-99 | nothing while running; otherwise running, not ended, with an end time of now plus the time left unless one is set |
| BreathingPage.Session.RunCycles | app/diary/space/breathing/page.tsx:105-127 | the loop runs one inhale/hold/exhale cycle per check that finds the end ahead, and stops at the first that does not |
| BreathingPage.Session.RunLoopAsWritten | app/diary/space/breathing/page.tsx:104-130 | as written, leaving the loop always ends the session, even when the end time was cleared by a pause |
| BreathingPage.Session.RunLoop | app/diary/space/breathing/page.tsx:104-130 | corrected: leaving the loop ends the session only when its end time has passed |
| BreathingPage.Session.Pause | app/diary/space/breathing/page.tsx:136-147 | nothing unless running; otherwise stopped, with the time left frozen and the end time cleared |
| BreathingPage.Session.Tick | app/diary/space/breathing/page.tsx:77-91 | while running, the time left is refreshed, and at zero the session stops and ends |
| BreathingPage.PausedSessionAsWritten | app/diary/space/breathing/page.tsx:104-147 | start, pause one second in, loop check: the session shows as ended with time still left |
| BreathingPage.PausedSession | app/diary/space/breathing/page.tsx:104-147 | with the corrected loop the same steps leave it paused, not ended, with one second used |
| OnboardingPage.Next | app/onboarding/page.tsx:146-148 | one step on, never past step 6 |
| OnboardingPage.To10 | app/onboarding/page.tsx:162 | a five-point score doubled onto the 0..10 scale |
| OnboardingPage.LifestyleSent | app/onboarding/page.tsx:163-169 | each lifestyle score is sent doubled |
| OnboardingPage.WithScore | app/onboarding/page.tsx:402-404 | the chosen question gets the score and the other three keep theirs |
| OnboardingPage.WithAnswer | app/onboarding/page.tsx:456-461 | the chosen question gets the answer and the other keeps its own |
| OnboardingPage.Without | app/onboarding/page.tsx:580 | exactly the other areas remain |
| OnboardingPage.ToggleFocus | app/onboarding/page.tsx:577-582 | the area is in the result iff it was not before; other areas are kept |
| OnboardingPage.WithoutNoDuplicates | app/onboarding/page.tsx:580 | removing an area keeps a list without duplicates |
| OnboardingPage.ToggleNoDuplicates | app/onboarding/page.tsx:577-582 | toggling never creates a duplicate |
| OnboardingPage.ToggleTwice | app/onboarding/page.tsx:577-582 | toggling twice restores the list when the area was not chosen, and the set of areas always |
| OnboardingPage.WithoutAppend | app/onboarding/page.tsx:580-581 | adding an area and removing it gives back the list |
| OnboardingPage.ChooseResponse | app/onboarding/page.tsx:217-268 | the reply's data when it succeeded with data, otherwise the fixed mindfulness fallback |
| OnboardingPage.RouteFor | app/onboarding/page.tsx:516-530 | journaling and reflection go to today; breathing, meditation, mindfulness and movement go to the space |
| OnboardingPage.Redirect | app/onboarding/page.tsx:140-144 | redirected to today iff the status says onboarding is not needed |
| OnboardingPage.RedirectIffCompleted | app/onboarding/page.tsx:140-144 | a known user who finished onboarding is redirected; a new or unfinished one is not |
| OnboardingPage.Wizard.Advance | app/onboarding/page.tsx:146-148 | the step becomes `Next` of the old one |
| OnboardingPage.Wizard.SubmitMood | app/onboarding/page.tsx:152-158 | the mood is remembered and sent when signed in; the wizard moves on iff the send is not rejected |
| OnboardingPage.Wizard.SetLifestyle | app/onboarding/page.tsx:402-404 | the lifestyle becomes `WithScore` of the old one; nothing else changes |
| OnboardingPage.Wizard.SetAssessment | app/onboarding/page.tsx:456-461 | the assessment becomes `WithAnswer` of the old one; nothing else changes |
| OnboardingPage.Wizard.SubmitLifestyle | app/onboarding/page.tsx:160-172 | the doubled scores are sent when signed in; the wizard moves on iff the send is not rejected |
| OnboardingPage.Wizard.SubmitAssessment | app/onboarding/page.tsx:174-274 | the assessment is sent when signed in, a rejection stopping there; with a user and a non-zero mood the AI is asked; a request that throws shows the fallback and sends it once; otherwise the reply or the fallback is shown and sent, and a rejected reflection is replaced by the fallback, sent again; the wizard moves on unless the last send is rejected |
| OnboardingPage.Wizard.Continue | app/onboarding/page.tsx:509 | step 4 moves to step 5 |
| OnboardingPage.Wizard.Toggle | app/onboarding/page.tsx:577-582 | the areas become `ToggleFocus` of the old list, still without duplicates |
| OnboardingPage.Wizard.Finish | app/onboarding/page.tsx:276-285 | when signed in, the focus areas and then the completion are sent, and a rejection stops before any navigation; otherwise the page goes to today |
| SearchPage.StartEndOfToday | app/diary/search/page.tsx:15-24 | the day's first and last millisecond |
| SearchPage.DateRange | app/diary/search/page.tsx:32-36 | no bounds unless only today is wanted, then today's bounds |
| SearchPage.QueryArgs | app/diary/search/page.tsx:38-50 | an empty text or tag is left out, drafts are included, the limit is 200 |
| SearchPage.SearchResults | app/diary/search/page.tsx:38-50 | with today on every result is from today; with a tag every result carries it; at most 200 results |
| SearchPage.UnfilteredSearch | app/diary/search/page.tsx:38-50 | with no filters the results are exactly the user's 200 newest entries, in the same newest-first order |
| SearchPage.Chips.ToggleTag | app/diary/search/page.tsx:52-58 | the today chip flips the day filter; any other chip is chosen, or cleared when it already was |
| TodayPage.Greeting | app/diary/today/page.tsx:6-12 | morning before 12, afternoon before 18, evening before 22, night after, each as an if-and-only-if |
| TodayPage.WeekDays | app/diary/today/page.tsx:41-50 | fourteen consecutive days from the week's Sunday, with today at its weekday |
| TodayPage.TodayOnceInStrip | app/diary/today/page.tsx:41-50 | today appears exactly once in the strip |
| TodayPage.GridHours | app/diary/today/page.tsx:101-102 | a column draws the six hour lines from its start |
| TodayPage.ColumnEvents | app/diary/today/page.tsx:111-121 | a column draws at most one record per event, each at a top in [0, 100), marked active only when some event with its id is active now |
| TodayPage.Draw | app/diary/today/page.tsx:117-121 | an event starting at s is drawn at top (s - start)/6·100 in [0, 100), with height (f - s)/6·100 when its end f parses and none otherwise, and active iff s <= now < f |
| TodayPage.Place | app/diary/today/page.tsx:111-121 | one event is drawn exactly when its start parses into the column, and then as `Draw` draws it |
| TodayPage.ColumnEventsInOrder | app/diary/today/page.tsx:111-121 | a column's events equal the filter-then-map of `Place` over the events, so they keep the events' order |
| TodayPage.EventShown | app/diary/today/page.tsx:111-121 | every event whose start parses into the column is drawn there as `Draw` gives it, so an event active now is shown active |
| TodayPage.DrawnIffInColumn | app/diary/today/page.tsx:111-115 | an event is drawn in a column iff its start parses into that column |
| TodayPage.DrawnInOneColumn | app/diary/today/page.tsx:111-115 | an event whose start parses to an hour s in [0, 24) is drawn in some column and in no other |
| TodayPage.NowLine | app/diary/today/page.tsx:143-147 | the current-time line is drawn iff the current time is in the column, at a top in [0, 100) |
| TodayPage.NowLineOnce | app/diary/today/page.tsx:143-148 | during the day the line is drawn in exactly one column |
| Calendar.Pick | lib/calendar.ts:67-68 | a non-empty timed string wins over the all-day date, even when it is not a date |
| Calendar.TitleOr | lib/calendar.ts:83 | a missing or empty summary becomes "(No title)" |
| Calendar.Normalize | lib/calendar.ts:65-89 | an item is kept iff it has a start and an end string and no valid date puts it outside [dayStart, dayStart + 1 day) (an invalid date compares false, so it never drops the item); it is shown from max(start, dayStart) to min(end, dayEnd), invalid where its date is |
| Calendar.KeptIffOverlaps | lib/calendar.ts:73 | between valid dates, the window test keeps exactly the items that overlap the day |
| Calendar.ListEventsForDay | lib/calendar.ts:29-92 | nothing without a token or on a failed reply |
| Calendar.ListedIffKept | lib/calendar.ts:64-90 | the events listed are exactly the items `Normalize` keeps |
| Calendar.ListedWithinDay | lib/calendar.ts:73-80 | every event listed with valid dates overlaps the day; each valid shown bound lies within the day and within the event's own interval, and a shown bound is invalid iff its date is |
| Calendar.OverlappingItemListed | lib/calendar.ts:67-90 | every item with a valid start and end that overlaps the day is listed |
| Calendar.InvalidStartListed | lib/calendar.ts:67-90 | an item whose start string is not a date is listed, with an invalid shown start, unless its valid end is at or before the day's start |
| Calendar.FromItem | lib/calendar.ts:130-139 | a created or updated event keeps the item's id and times, invalid where the item has none or it is not a date, with the title defaulted |
| Calendar.CreateRequest | lib/calendar.ts:104-112 | nothing is sent without a token; an empty description is left out |
| Calendar.CreateEvent | lib/calendar.ts:101-140 | null without a token or on a failed reply, otherwise the reply's event |
| Calendar.CreateRoundTrip | lib/calendar.ts:101-140 | when the service stores what was sent, the event returned has the requested title and times |
| Calendar.BuildPatch | lib/calendar.ts:155-159 | the patch holds exactly the supplied fields, and reading it back gives the input |
| Calendar.UpdateEvent | lib/calendar.ts:150-186 | nothing is sent and null is returned without a token; otherwise the patch is sent and a successful reply's event returned |
| Calendar.DeleteEvent | lib/calendar.ts:188-200 | false without a token; otherwise true exactly on a 2xx, 404 or 410 status |
| Calendar.NoTokenNoEffect | lib/calendar.ts:30-190 | without a token, listing gives nothing, create sends nothing and returns null, delete returns false |
| Calendar.QuickEventTimes | lib/calendar.ts:210-220 | the start is today at the start time; the end is today at the end time, or thirty minutes after the start when not later; so the end is after the start |
| Calendar.CreateQuickEvent | lib/calendar.ts:204-227 | the event sent always ends after it starts, keeping the given end when it is later |
| Common.FilterMapExactly | lib/calendar.ts:64-90 | a map followed by a filter keeps exactly the present results |
| Common.FilterMapCons | app/diary/today/page.tsx:111-121 | filtering and mapping a list gives the first item's result, if any, followed by those of the rest |
| Text.Trim | convex/journals.ts:228 | JavaScript `trim`: no white space at either end, empty iff the input is blank, and a slice of the input with only white space before and after it |
| Text.TrimIdempotent | convex/journals.ts:228 | trimming twice is trimming once |
| Text.TrimNoSpace | convex/journals.ts:228 | a string with no white space at its ends is its own trim |
| Text.Lower | convex/journals.ts:228 | ASCII lower-casing of each character (see Left out) |
| Text.Contains | convex/journals.ts:238 | `includes`: true iff the needle occurs at some position |
| Text.DecimalValue | components/diary/time-block.tsx:31 | an unsigned decimal literal has a non-negative value, and digits alone read as their value |
| Text.PointValue | components/diary/time-block.tsx:31 | digits around a point read as the whole part plus the fraction, with at least one digit in all |
| Text.SignedValue | components/diary/time-block.tsx:31 | a negative value only comes from a leading '-'; digits alone read as their value |
| Text.NumberOf | components/diary/time-block.tsx:31 | `Number` of a string: 0 for a blank one, and negative only when the trimmed string starts with '-' |
| Text.NumberOfUnpadded | components/diary/time-block.tsx:31 | without white space at its ends, `Number` reads the string as a signed decimal literal |
| Text.NumberOfDigits | components/diary/time-block.tsx:31 | a string of digits reads as their value, an empty one as 0 |
| Text.NumberOfNegative | components/diary/time-block.tsx:31 | a '-' before digits negates their value |
| Text.NumberOfFraction | components/diary/time-block.tsx:31 | digits, a '.', and digits read as the whole part plus the fraction |
| Text.DigitsOfNatToString | app/diary/space/meditation/page.tsx:51-54 | a rendered number reads back as itself |
| Text.TwoDigits | app/diary/space/meditation/page.tsx:51-54 | `padStart(2, "0")` of a number: at least two digits, exactly two below 100 |

## Left out

- Network and service calls: the calendar service's HTTP requests, the OAuth
  token retrieval in lib/access-token.ts, and the AI feedback request. Each
  operation receives the token and the reply as parameters.
- The AI route app/api/onboarding/feedback/route.ts and
  app/actions/onboarding-feedback.ts are not part of this model.
- Clock, time zone and locale: `Date.now()`, `new Date()`, `toISOString`,
  `toLocaleDateString` and `toLocaleTimeString`.
  - Days are day numbers.
  - Instants are milliseconds.
  - The clock reading is a parameter.
  - Locale rendering (weekday labels, `formatDate`, the calendar's HH:MM
    rendering) is a function parameter or left out.
- Calendar.DayMs: the day window is 24 hours. A day with a daylight-saving
  change, where `setDate(+1)` gives 23 or 25 hours, is not modelled.
- Floating point:
  - NaN is `None`; infinities and rounding are not modelled.
  - An unparsable URL parameter is `None`.
  - Times are `real` in the timer pages and the layout.
- TimeBlock.ParseHM: `Number` is modelled for blank strings and signed
  decimal literals (`"10"`, `" 9"`, `"-1"`, `"1.5"`, `".5"`, `"5."`). Its
  exponent (`"1e1"`), hexadecimal, binary and octal (`"0x1A"`) and
  `"Infinity"` forms read as NaN (`None`) in the model, where the source
  reads a number. An event whose start is NaN fails the column filter in
  both.
- TimeBlock.SlotOf: an event whose start parses but whose end does not
  (`Number` gives NaN) gets no slot, so the model leaves it out of the
  layout. The source keeps it: its sort comparator then returns NaN, which
  makes the order implementation-defined, its lane end is NaN so the lane is
  never reused, and its height is NaN.
- TimeBlock.ColumnSlots: for the same reason holds only the events whose
  start and end both parse; the source's column also holds those whose end
  alone is NaN.
- Text.Lower: folds only the ASCII letters A to Z. JavaScript's
  `toLowerCase` folds every Unicode letter (`"ÉTÉ"` becomes `"été"`), so a
  search whose text differs from a title only in the case of a non-ASCII
  letter matches in the source but not in the model.
- OnboardingPage.Fallback: follows the source text byte for byte, including
  its mis-encoded dash (the three characters U+201A, U+00C4, U+00EE where an
  em dash was meant).
- Calendar.QuickEventTimes: receives the hour and minute numbers. The
  `split(":").map(Number)` of the time strings is not modelled.
- Calendar: date strings the service returns are given already read: absent
  or empty, or present with the instant `new Date` gives, or an invalid
  date. Parsing the strings themselves, including all-day `date` values, is
  not modelled; what an invalid date does to the listing is.
- Asynchrony: React state batching, `setInterval`/`setTimeout`, the
  suspension at each `await`, the animation controls and
  `requestAnimationFrame`.
  - A rejected `await` in the onboarding wizard is modelled: the oracle
    `rejects` says which backend calls fail, and the handler stops there.
    The backend is taken as deterministic, so a call sent twice with the same
    arguments gets the same answer both times.
  - Each interval firing is one call of `Tick`.
  - Each effect is a method the caller runs after the state it watches
    changes.
  - The breathing loop's awaits are the clock readings `checks` passed to
    `RunCycles`.
- BreathingPage.Session.RunCycles: does not model the scale animation.
- The meditation page's browser-storage streak effect
  (app/diary/space/meditation/page.tsx:101-134) is browser storage plus side
  effects, and is not part of this model.
- `api.meditation.*` and `journals.getJournalsByDateRange`: their source is
  not available. The journey page's journals and meditation rows are
  parameters.
- Journals.JournalStore: Convex document ids are modelled as increasing
  numbers. Index order (`order("desc")`) is the reverse of insertion order.
- Convex reactivity and subscriptions, and the transactional retry of
  mutations (each mutation is one method call).
- `getUserByClerkId`, `getOnboardingProgress` and `getOnboardingDataForAI` are
  plain lookups with no logic beyond `.unique()`. They are not modelled
  separately.
- TimeBlock.SortSlots: `Array.prototype.sort` is stable. The model proves a
  sorted permutation, not stability.
- DOM geometry: the pixel arithmetic of mouse positions. `BeginDrag` and
  `DragTo` receive the already snapped hour.
- StreakWidget.CheckedSet: the last entry date is a day number, so the source's
  empty-string date case is the absent case.
- TodayPage.ColumnEvents: the height is not trimmed, as in the source (unlike
  the time-block panel). An end that does not parse gives the source a NaN
  height and an inactive event; the model draws no height (`None`) and an
  inactive event. The page's fixed sample events are a parameter.
- Presentational files (journey-day-card, inspiration-card, the sidebar, the
  space page) and the voice assistant are not part of this model.

## Findings

| source | as written | input that shows it | evidently intended | confidence | as-written member | corrected member |
|---|---|---|---|---|---|---|
| convex/users.ts:42-49 | `getOrCreateUser` inserts a zeroed streak row without checking for one | a user who finishes a journal entry before onboarding already has a streak row from convex/journals.ts:272-281; onboarding then adds a second, and later `.unique()` reads of the user's streak (convex/users.ts:391-396, 464-469) throw | insert the zeroed row only when the user has none | medium, not executed | Users.CreateStreakRowAsWritten, Users.DuplicateStreakRow | Users.CreateStreakRow |
| app/diary/space/breathing/page.tsx:104-130, 136-147 | `pause` clears the end time, and the phase loop's exit then sets ended unconditionally | start a 3-minute session, pause one second in; the loop's next check finds no end time and marks the session ended with time left, so the page shows it as done | end the session only when its time is up; a paused loop just stops | medium, not executed | BreathingPage.Session.RunLoopAsWritten, BreathingPage.PausedSessionAsWritten | BreathingPage.Session.RunLoop, BreathingPage.PausedSession |
