// The journal ledger of convex/journals.ts: the `journalEntries` table, its
// mutations (each guarded by the same existence-and-ownership check) and its
// two list queries. A mutation that saves a non-draft entry credits the
// owner's streak in the shared `userStreaks` table (module Streaks).
//
// The table is a sequence in creation order, and ids grow with creation
// time, so the index order `order("desc")` of `by_clerk_user_id` (newest
// first within one user) is the reverse of the user's entries in the table.

module Journals {
  import opened Common
  import opened Text
  import Streaks

  type UserId = string

  type JournalId = nat

  /** One inline item of a block's content; a missing item or text is `None`. */
  datatype InlineItem = InlineItem(text: Option<string>)

  /** A block's content: an array of inline items, or any other value, kept
      as its `toString()` rendering. */
  datatype BlockContent = InlineContent(items: seq<InlineItem>) | OtherContent(rendered: string)

  /** A rich-text editor block, stored verbatim. Content that is missing or
      falsy is `None`. */
  datatype Block = Block(content: Option<BlockContent>)

  datatype Journal = Journal(
    id: JournalId,
    owner: UserId,
    title: string,
    content: Option<seq<Block>>,
    prompt: Option<string>,
    isCustomPrompt: bool,
    wordCount: int,
    tags: seq<string>,
    isPrivate: bool,
    isDraft: bool,
    lastAutoSaved: int,
    createdAt: int,
    updatedAt: int)

  const DefaultTitle: string := "New Journal"

  /** Ids grow along the table, so each id occurs at most once. */
  predicate IdsIncreasing(entries: seq<Journal>) {
    forall a, b :: 0 <= a < b < |entries| ==> entries[a].id < entries[b].id
  }

  predicate IdsBelow(entries: seq<Journal>, bound: nat) {
    forall k :: 0 <= k < |entries| ==> entries[k].id < bound
  }

  /** The position of the entry with id `id`, if any (`ctx.db.get`). */
  function Find(entries: seq<Journal>, id: JournalId): (r: Option<nat>)
    ensures r.Some? ==> r.value < |entries| && entries[r.value].id == id
    ensures r.None? ==> forall k :: 0 <= k < |entries| ==> entries[k].id != id
  {
    if entries == [] then None
    else if entries[|entries| - 1].id == id then Some(|entries| - 1)
    else Find(entries[..|entries| - 1], id)
  }

  /** The ownership guard of every per-entry operation: the position of the
      entry `id` when it exists and belongs to `user`. */
  function Access(entries: seq<Journal>, id: JournalId, user: UserId): (r: Option<nat>)
    requires IdsIncreasing(entries)
    ensures r.Some? ==> r.value < |entries| && entries[r.value].id == id && entries[r.value].owner == user
    ensures r.None? ==> forall k :: 0 <= k < |entries| && entries[k].id == id ==> entries[k].owner != user
  {
    match Find(entries, id)
    case None => None
    case Some(i) => if entries[i].owner == user then Some(i) else None
  }

  /** `getJournal`: the entry when it exists and belongs to `user`, else null. */
  function GetJournal(entries: seq<Journal>, id: JournalId, user: UserId): (r: Option<Journal>)
    requires IdsIncreasing(entries)
    ensures r.Some? <==> exists k :: 0 <= k < |entries| && entries[k].id == id && entries[k].owner == user
    ensures r.Some? ==> r.value in entries && r.value.id == id && r.value.owner == user
  {
    match Access(entries, id, user)
    case None => None
    case Some(i) => Some(entries[i])
  }

  /** The row `createJournal` inserts. */
  function NewJournal(id: JournalId, user: UserId, title: Option<string>, prompt: Option<string>,
                      isCustomPrompt: Option<bool>, now: int): (r: Journal)
    ensures r.id == id && r.owner == user && r.prompt == prompt
    ensures r.title != []
    ensures title.Some? && title.value != [] ==> r.title == title.value
    ensures r.isCustomPrompt <==> isCustomPrompt == Some(true)
    ensures r.isDraft && r.isPrivate && r.wordCount == 0 && r.tags == [] && r.content.None?
    ensures r.createdAt == now && r.updatedAt == now && r.lastAutoSaved == now
  {
    Journal(id, user,
            if title.Some? && title.value != [] then title.value else DefaultTitle,
            None, prompt, isCustomPrompt == Some(true), 0, [], true, true, now, now, now)
  }

  /** What two versions of an entry share when only its content fields
      changed: everything but content, word count, draft flag and the
      timestamps of the save. */
  predicate SameButContent(a: Journal, b: Journal) {
    && a.id == b.id && a.owner == b.owner && a.title == b.title && a.prompt == b.prompt
    && a.isCustomPrompt == b.isCustomPrompt && a.tags == b.tags && a.isPrivate == b.isPrivate
    && a.createdAt == b.createdAt
  }

  /** An entry after a content save (`saveJournalContent` with the resolved
      draft flag, or `autoSaveJournalContent` with the entry's own flag). */
  function WithContent(j: Journal, content: seq<Block>, wordCount: Option<int>, isDraft: bool, now: int): (r: Journal)
    ensures SameButContent(j, r)
    ensures r.content == Some(content) && r.isDraft == isDraft
    ensures r.wordCount == (if wordCount.Some? then wordCount.value else 0)
    ensures r.lastAutoSaved == now && r.updatedAt == now
  {
    j.(content := Some(content), wordCount := wordCount.GetOr(0), isDraft := isDraft,
       lastAutoSaved := now, updatedAt := now)
  }

  /** Remove position `i`, keeping the order of the rest. */
  function RemoveAt(entries: seq<Journal>, i: nat): (r: seq<Journal>)
    requires i < |entries|
    ensures |r| == |entries| - 1
    ensures forall k :: 0 <= k < i ==> r[k] == entries[k]
    ensures forall k :: i <= k < |r| ==> r[k] == entries[k + 1]
  {
    entries[..i] + entries[i + 1..]
  }

  /** The round trip of a new entry: create it, save content as a non-draft,
      and `getJournal` returns exactly the content, word count and draft flag
      passed to the save. */
  lemma CreateSaveGetRoundTrip(entries: seq<Journal>, nextId: nat, user: UserId, title: Option<string>,
                               prompt: Option<string>, content: seq<Block>, wordCount: int, t1: int, t2: int)
    requires IdsIncreasing(entries) && IdsBelow(entries, nextId)
    ensures var created := entries + [NewJournal(nextId, user, title, prompt, None, t1)];
      && IdsIncreasing(created)
      && Access(created, nextId, user) == Some(|entries|)
      && var saved := created[|entries| := WithContent(created[|entries|], content, Some(wordCount), false, t2)];
      && IdsIncreasing(saved)
      && var got := GetJournal(saved, nextId, user);
      && got.Some?
      && got.value.content == Some(content) && got.value.wordCount == wordCount && !got.value.isDraft
  {
    var created := entries + [NewJournal(nextId, user, title, prompt, None, t1)];
    assert Find(created, nextId) == Some(|entries|);
    var saved := created[|entries| := WithContent(created[|entries|], content, Some(wordCount), false, t2)];
    assert Find(saved, nextId) == Some(|entries|);
  }

  // ---------------------------------------------------------------------
  // Queries

  /** The entries of `user`, newest first: the `by_clerk_user_id` index in
      descending order. */
  function NewestFirst(entries: seq<Journal>, user: UserId): (r: seq<Journal>)
    ensures forall j :: j in r <==> j in entries && j.owner == user
    ensures |r| <= |entries|
  {
    if entries == [] then []
    else
      var last := entries[|entries| - 1];
      var rest := NewestFirst(entries[..|entries| - 1], user);
      assert entries == entries[..|entries| - 1] + [last];
      if last.owner == user then [last] + rest else rest
  }

  /** Newest first: ids strictly decrease along the sequence. */
  predicate Descending(r: seq<Journal>) {
    forall a, b :: 0 <= a < b < |r| ==> r[a].id > r[b].id
  }

  lemma DescendingCons(j: Journal, rest: seq<Journal>)
    requires Descending(rest)
    requires forall x :: x in rest ==> x.id < j.id
    ensures Descending([j] + rest)
  {
    var r := [j] + rest;
    forall a, b | 0 <= a < b < |r| ensures r[a].id > r[b].id {
      assert r[b] == rest[b - 1];
      if a > 0 {
        assert r[a] == rest[a - 1];
      }
    }
  }

  /** The index order really is newest first. */
  lemma {:induction false} NewestFirstOrdered(entries: seq<Journal>, user: UserId)
    requires IdsIncreasing(entries)
    ensures Descending(NewestFirst(entries, user))
  {
    if entries != [] {
      var last := entries[|entries| - 1];
      var init := entries[..|entries| - 1];
      assert IdsIncreasing(init);
      NewestFirstOrdered(init, user);
      var rest := NewestFirst(init, user);
      forall x | x in rest ensures x.id < last.id {
        var k :| 0 <= k < |init| && init[k] == x;
        assert entries[k] == x;
      }
      if last.owner == user {
        DescendingCons(last, rest);
      }
    }
  }

  /** `.take(n)`: the first `n` items, or all of them when there are fewer. */
  function Take<T>(s: seq<T>, n: nat): (r: seq<T>)
    ensures |r| == if n < |s| then n else |s|
    ensures r == s[..|r|]
  {
    if n < |s| then s[..n] else s
  }

  /** The resolved filters of `searchUserJournals`. `query` is already
      trimmed and lower-cased; an empty tag or query filters nothing. */
  datatype Filters = Filters(includeDrafts: bool, tag: Option<string>, startTs: Option<int>,
                             endTs: Option<int>, query: string)

  predicate Matches(j: Journal, f: Filters) {
    && (f.includeDrafts || !j.isDraft)
    && (f.tag.None? || f.tag.value == [] || f.tag.value in j.tags)
    && (f.startTs.None? || j.createdAt >= f.startTs.value)
    && (f.endTs.None? || j.createdAt <= f.endTs.value)
    && (f.query == [] || Contains(Lower(j.title), f.query) || Contains(Lower(j.prompt.GetOr([])), f.query))
  }

  /** `items.filter(...)` with the search predicate. */
  function FilterMatches(items: seq<Journal>, f: Filters): (r: seq<Journal>)
    ensures Subsequence(r, items)
    ensures forall j :: j in r <==> j in items && Matches(j, f)
    ensures |r| <= |items|
  {
    if items == [] then []
    else
      var rest := FilterMatches(items[1..], f);
      assert items == [items[0]] + items[1..];
      if Matches(items[0], f) then [items[0]] + rest else rest
  }

  /** When every item matches, the filter keeps the list as it is. */
  lemma {:induction false} FilterMatchesAll(items: seq<Journal>, f: Filters)
    requires forall j :: j in items ==> Matches(j, f)
    ensures FilterMatches(items, f) == items
  {
    if items != [] {
      assert forall j :: j in items[1..] ==> j in items;
      FilterMatchesAll(items[1..], f);
      assert items == [items[0]] + items[1..];
    }
  }

  datatype SearchArgs = SearchArgs(
    q: Option<string>,
    tag: Option<string>,
    startTs: Option<int>,
    endTs: Option<int>,
    includeDrafts: Option<bool>,
    limit: Option<nat>)

  const DefaultSearchLimit: nat := 200

  /** The search text as compared: trimmed and lower-cased, and empty (no
      text filter) exactly when the text is absent or all white space. */
  function NormalizeQuery(q: Option<string>): (r: string)
    ensures |r| <= |q.GetOr([])|
    ensures r == [] <==> q.None? || IsBlank(q.value)
    ensures forall k :: 0 <= k < |r| ==> !('A' <= r[k] <= 'Z')
  {
    Lower(Trim(q.GetOr([])))
  }

  function ResolveFilters(args: SearchArgs): (f: Filters)
    ensures f.includeDrafts <==> args.includeDrafts != Some(false)
    ensures f.tag == args.tag && f.startTs == args.startTs && f.endTs == args.endTs
    ensures f.query == NormalizeQuery(args.q)
  {
    Filters(args.includeDrafts.GetOr(true), args.tag, args.startTs, args.endTs, NormalizeQuery(args.q))
  }

  /** The user's newest `n` entries: `.order("desc").take(n)` on the
      `by_clerk_user_id` index. The window is the head of the user's
      entries newest first, as long as `n` allows; when ids grow with
      insertion it is newest first, and every entry of the user left out
      is older than every entry kept. */
  function Window(entries: seq<Journal>, user: UserId, n: nat): (r: seq<Journal>)
    ensures |r| == Min(n, |NewestFirst(entries, user)|) && r == NewestFirst(entries, user)[..|r|]
    ensures forall j :: j in r ==> j in entries && j.owner == user
    ensures IdsIncreasing(entries) ==> Descending(r)
    ensures IdsIncreasing(entries) ==> LeftOutOlder(entries, user, r)
  {
    var all := NewestFirst(entries, user);
    var r := Take(all, n);
    assert forall j :: j in r ==> j in all;
    if IdsIncreasing(entries) then
      NewestFirstOrdered(entries, user);
      assert forall k :: 0 <= k < |r| ==> r[k] == all[k];
      PrefixLeavesOlder(entries, user, all, r);
      r
    else
      r
  }

  /** Every entry of `user` missing from `r` has a smaller id than every
      entry in `r`. */
  predicate LeftOutOlder(entries: seq<Journal>, user: UserId, r: seq<Journal>) {
    forall j, k :: j in r && k in entries && k.owner == user && k !in r ==> k.id < j.id
  }

  /** A head of the user's descending entries leaves out only older ones. */
  lemma PrefixLeavesOlder(entries: seq<Journal>, user: UserId, all: seq<Journal>, r: seq<Journal>)
    requires all == NewestFirst(entries, user) && Descending(all)
    requires |r| <= |all| && r == all[..|r|]
    ensures LeftOutOlder(entries, user, r)
  {
    forall j, k | j in r && k in entries && k.owner == user && k !in r ensures k.id < j.id {
      var p :| 0 <= p < |r| && r[p] == j;
      assert k in all;
      var q :| 0 <= q < |all| && all[q] == k;
      assert forall t :: 0 <= t < |r| ==> all[t] == r[t] != k;
      assert p < q && all[p] == j;
    }
  }

  /** `searchUserJournals`: an order-preserving selection, among the user's
      newest `limit` entries (200 by default), of exactly those that pass
      every filter. */
  function SearchUserJournals(entries: seq<Journal>, user: UserId, args: SearchArgs): (r: seq<Journal>)
    ensures var window := Window(entries, user, args.limit.GetOr(DefaultSearchLimit));
      && Subsequence(r, window)
      && (forall j :: j in r <==> j in window && Matches(j, ResolveFilters(args)))
  {
    FilterMatches(Window(entries, user, args.limit.GetOr(DefaultSearchLimit)), ResolveFilters(args))
  }

  /** A search never returns more than `limit` entries, only the user's own,
      and with `includeDrafts = false` no draft. */
  lemma SearchBounds(entries: seq<Journal>, user: UserId, args: SearchArgs)
    ensures var r := SearchUserJournals(entries, user, args);
      && |r| <= args.limit.GetOr(DefaultSearchLimit)
      && (forall j :: j in r ==> j.owner == user && j in entries)
      && (args.includeDrafts == Some(false) ==> forall j :: j in r ==> !j.isDraft)
  {
    var window := Window(entries, user, args.limit.GetOr(DefaultSearchLimit));
    var r := SearchUserJournals(entries, user, args);
    SubsequenceLength(r, window);
  }

  const DefaultListLimit: nat := 50

  /** `getUserJournals`: the user's newest `limit` entries (50 when the
      limit is absent or zero), without drafts when `includeDrafts` is false. */
  function GetUserJournals(entries: seq<Journal>, user: UserId, limit: Option<nat>, includeDrafts: Option<bool>): (r: seq<Journal>)
    ensures var n := if limit.None? || limit.value == 0 then DefaultListLimit else limit.value;
      var window := Window(entries, user, n);
      && Subsequence(r, window)
      && (forall j :: j in r <==> j in window && (includeDrafts != Some(false) || !j.isDraft))
  {
    var n := if limit.None? || limit.value == 0 then DefaultListLimit else limit.value;
    FilterMatches(Window(entries, user, n), Filters(includeDrafts.GetOr(true), None, None, None, []))
  }

  // ---------------------------------------------------------------------
  // The table and its mutations

  class JournalStore {
    var entries: seq<Journal>
    var nextId: nat
    const streaks: Streaks.StreakTable

    ghost predicate Valid()
      reads this, streaks
    {
      IdsIncreasing(entries) && IdsBelow(entries, nextId) && streaks.Valid()
    }

    constructor (streaks: Streaks.StreakTable)
      requires streaks.Valid()
      ensures Valid() && this.streaks == streaks && entries == []
    {
      this.streaks := streaks;
      entries := [];
      nextId := 0;
    }

    /** `createJournal`: insert a new draft and return its id. */
    method CreateJournal(user: UserId, title: Option<string>, prompt: Option<string>,
                         isCustomPrompt: Option<bool>, now: int) returns (id: JournalId)
      requires Valid()
      modifies this
      ensures Valid()
      ensures id == old(nextId) && nextId > id
      ensures entries == old(entries) + [NewJournal(id, user, title, prompt, isCustomPrompt, now)]
      ensures Access(entries, id, user) == Some(|old(entries)|)
    {
      id := nextId;
      entries := entries + [NewJournal(id, user, title, prompt, isCustomPrompt, now)];
      nextId := nextId + 1;
      assert Find(entries, id) == Some(|old(entries)|);
    }

    /** `getJournal`. */
    method Get(id: JournalId, user: UserId) returns (r: Option<Journal>)
      requires Valid()
      ensures r == GetJournal(entries, id, user)
    {
      var i := Access(entries, id, user);
      if i.None? {
        return None;
      }
      return Some(entries[i.value]);
    }

    /** `updateJournalTitle`. */
    method UpdateTitle(id: JournalId, user: UserId, title: string, now: int) returns (out: Outcome<()>)
      requires Valid()
      modifies this
      ensures Valid() && nextId == old(nextId)
      ensures match Access(old(entries), id, user)
        case None => out == Failed(NotFoundOrForbidden) && entries == old(entries)
        case Some(i) => out == Done(()) && entries == old(entries)[i := old(entries)[i].(title := title, updatedAt := now)]
    {
      var i := Access(entries, id, user);
      if i.None? {
        return Failed(NotFoundOrForbidden);
      }
      entries := entries[i.value := entries[i.value].(title := title, updatedAt := now)];
      return Done(());
    }

    /** `updateJournalPrompt`. */
    method UpdatePrompt(id: JournalId, user: UserId, prompt: string, isCustomPrompt: bool, now: int) returns (out: Outcome<()>)
      requires Valid()
      modifies this
      ensures Valid() && nextId == old(nextId)
      ensures match Access(old(entries), id, user)
        case None => out == Failed(NotFoundOrForbidden) && entries == old(entries)
        case Some(i) => out == Done(()) && entries == old(entries)[i := old(entries)[i].(prompt := Some(prompt), isCustomPrompt := isCustomPrompt, updatedAt := now)]
    {
      var i := Access(entries, id, user);
      if i.None? {
        return Failed(NotFoundOrForbidden);
      }
      entries := entries[i.value := entries[i.value].(prompt := Some(prompt), isCustomPrompt := isCustomPrompt, updatedAt := now)];
      return Done(());
    }

    /** `updateJournalTags`: the new list replaces the old one entirely. */
    method UpdateTags(id: JournalId, user: UserId, tags: seq<string>, now: int) returns (out: Outcome<()>)
      requires Valid()
      modifies this
      ensures Valid() && nextId == old(nextId)
      ensures match Access(old(entries), id, user)
        case None => out == Failed(NotFoundOrForbidden) && entries == old(entries)
        case Some(i) => out == Done(()) && entries == old(entries)[i := old(entries)[i].(tags := tags, updatedAt := now)]
    {
      var i := Access(entries, id, user);
      if i.None? {
        return Failed(NotFoundOrForbidden);
      }
      entries := entries[i.value := entries[i.value].(tags := tags, updatedAt := now)];
      return Done(());
    }

    /** `saveJournalContent`: the draft flag defaults to the entry's own, and
        the owner's streak is credited for `today` exactly when the saved
        entry is not a draft. */
    method SaveContent(id: JournalId, user: UserId, content: seq<Block>, wordCount: Option<int>,
                       isDraft: Option<bool>, today: Streaks.Day, now: int) returns (out: Outcome<()>)
      requires Valid()
      modifies this, streaks
      ensures Valid() && nextId == old(nextId)
      ensures match Access(old(entries), id, user)
        case None =>
          out == Failed(NotFoundOrForbidden) && entries == old(entries) && streaks.rows == old(streaks.rows)
        case Some(i) =>
          var saved := WithContent(old(entries)[i], content, wordCount, isDraft.GetOr(old(entries)[i].isDraft), now);
          && out == Done(())
          && entries == old(entries)[i := saved]
          && streaks.rows == if saved.isDraft then old(streaks.rows)
                             else old(streaks.rows)[user := Streaks.Credit(Streaks.Lookup(old(streaks.rows), user), user, today, now)]
    {
      var i := Access(entries, id, user);
      if i.None? {
        return Failed(NotFoundOrForbidden);
      }
      var journal := entries[i.value];
      var finalIsDraft := if isDraft.Some? then isDraft.value else journal.isDraft;
      entries := entries[i.value := WithContent(journal, content, wordCount, finalIsDraft, now)];
      if !finalIsDraft {
        streaks.CreditToday(journal.owner, today, now);
      }
      return Done(());
    }

    /** `autoSaveJournalContent`: content and word count only; the draft flag
        and the streak are left alone. */
    method AutoSaveContent(id: JournalId, user: UserId, content: seq<Block>, wordCount: Option<int>, now: int)
      returns (out: Outcome<()>)
      requires Valid()
      modifies this
      ensures Valid() && nextId == old(nextId)
      ensures match Access(old(entries), id, user)
        case None => out == Failed(NotFoundOrForbidden) && entries == old(entries)
        case Some(i) =>
          out == Done(()) && entries == old(entries)[i := WithContent(old(entries)[i], content, wordCount, old(entries)[i].isDraft, now)]
    {
      var i := Access(entries, id, user);
      if i.None? {
        return Failed(NotFoundOrForbidden);
      }
      entries := entries[i.value := WithContent(entries[i.value], content, wordCount, entries[i.value].isDraft, now)];
      return Done(());
    }

    /** `deleteJournal`. */
    method Delete(id: JournalId, user: UserId) returns (out: Outcome<()>)
      requires Valid()
      modifies this
      ensures Valid() && nextId == old(nextId)
      ensures match Access(old(entries), id, user)
        case None => out == Failed(NotFoundOrForbidden) && entries == old(entries)
        case Some(i) => out == Done(()) && entries == RemoveAt(old(entries), i)
      ensures forall k :: 0 <= k < |entries| ==> entries[k].id != id || Access(old(entries), id, user).None?
    {
      var i := Access(entries, id, user);
      if i.None? {
        return Failed(NotFoundOrForbidden);
      }
      entries := RemoveAt(entries, i.value);
      return Done(());
    }
  }
}
