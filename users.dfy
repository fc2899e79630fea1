// Users and onboarding progress of convex/users.ts: the `users` and
// `onboardingResponses` tables (at most one row per Clerk user id, so each is
// a map from that id), and the welcome achievement written into the shared
// `userStreaks` table (module Streaks) when onboarding completes.
//
// Numbers the source passes through unchanged (mood and lifestyle scores)
// are kept as `int`; the clock is the parameter `now`.

module Users {
  import opened Common
  import Streaks

  type UserId = string

  datatype User = User(
    clerkId: UserId,
    email: Option<string>,
    name: Option<string>,
    profileImage: Option<string>,
    onboardingCompleted: bool,
    onboardingStarted: Option<int>,
    onboardingCompletedAt: Option<int>,
    createdAt: int,
    updatedAt: int)

  datatype Frequency = Never | SeveralDays | MoreThanHalfDays | NearlyEveryDay

  datatype FocusArea = ReduceStress | ImproveSleep | BoostEnergy | BuildHealthyHabits

  datatype Lifestyle = Lifestyle(sleepQuality: int, energyLevel: int, stressLevel: int, socialConnection: int)

  datatype Assessment = Assessment(anxietyFrequency: Frequency, interestLossFrequency: Frequency)

  datatype Reflection = Reflection(personalizedGreeting: string, strengthHighlight: string,
                                   dailySuggestion: string, fullResponse: string)

  datatype Response = Response(
    clerkId: UserId,
    currentStep: nat,
    moodScore: Option<int>,
    lifestyle: Option<Lifestyle>,
    assessment: Option<Assessment>,
    reflection: Option<Reflection>,
    focusAreas: Option<seq<FocusArea>>,
    completedAt: Option<int>,
    createdAt: int,
    updatedAt: int)

  /** The payload of one of the five step mutations. */
  datatype StepData =
    | MoodSnapshot(moodScore: int)                  // updateMoodSnapshot
    | LifestyleCheck(lifestyle: Lifestyle)          // updateLifestyleCheck
    | MentalHealth(assessment: Assessment)          // updateMentalHealthAssessment
    | AIReflection(reflection: Reflection)          // updateAIReflection
    | GoalsAndPreferences(areas: seq<FocusArea>)    // updateGoalsAndPreferences

  /** The step each mutation records. */
  function StepOf(d: StepData): (k: nat)
    ensures 1 <= k <= 5
  {
    match d
    case MoodSnapshot(_) => 1
    case LifestyleCheck(_) => 2
    case MentalHealth(_) => 3
    case AIReflection(_) => 4
    case GoalsAndPreferences(_) => 5
  }

  const CompletedStep: nat := 6

  /** A response after a step mutation: the step's own field is set, the step
      only ever rises, and every other field of an earlier step is kept. */
  function ApplyStep(r: Response, d: StepData, now: int): (r': Response)
    ensures r'.currentStep == Max(r.currentStep, StepOf(d)) && r'.currentStep >= r.currentStep
    ensures r'.clerkId == r.clerkId && r'.createdAt == r.createdAt && r'.completedAt == r.completedAt
    ensures r'.updatedAt == now
    ensures r'.moodScore == if d.MoodSnapshot? then Some(d.moodScore) else r.moodScore
    ensures r'.lifestyle == if d.LifestyleCheck? then Some(d.lifestyle) else r.lifestyle
    ensures r'.assessment == if d.MentalHealth? then Some(d.assessment) else r.assessment
    ensures r'.reflection == if d.AIReflection? then Some(d.reflection) else r.reflection
    ensures r'.focusAreas == if d.GoalsAndPreferences? then Some(d.areas) else r.focusAreas
  {
    var step := Max(r.currentStep, StepOf(d));
    match d
    case MoodSnapshot(s) => r.(moodScore := Some(s), currentStep := step, updatedAt := now)
    case LifestyleCheck(l) => r.(lifestyle := Some(l), currentStep := step, updatedAt := now)
    case MentalHealth(a) => r.(assessment := Some(a), currentStep := step, updatedAt := now)
    case AIReflection(x) => r.(reflection := Some(x), currentStep := step, updatedAt := now)
    case GoalsAndPreferences(f) => r.(focusAreas := Some(f), currentStep := step, updatedAt := now)
  }

  /** Step mutations applied one after another. */
  function ApplySteps(r: Response, ds: seq<StepData>, now: int): Response {
    if ds == [] then r else ApplyStep(ApplySteps(r, ds[..|ds| - 1], now), ds[|ds| - 1], now)
  }

  /** The highest step among `ds`, 0 when there is none. */
  function HighestStep(ds: seq<StepData>): (k: nat)
    ensures k <= 5
    ensures forall i :: 0 <= i < |ds| ==> StepOf(ds[i]) <= k
  {
    if ds == [] then 0 else Max(HighestStep(ds[..|ds| - 1]), StepOf(ds[|ds| - 1]))
  }

  /** The recorded step never goes down, whatever order the step mutations
      arrive in: it ends at the highest of the starting step and every step
      submitted. */
  lemma {:induction false} StepsMonotone(r: Response, ds: seq<StepData>, now: int)
    ensures ApplySteps(r, ds, now).currentStep == Max(r.currentStep, HighestStep(ds))
    ensures ApplySteps(r, ds, now).currentStep >= r.currentStep
  {
    if ds != [] {
      StepsMonotone(r, ds[..|ds| - 1], now);
    }
  }

  /** The row `getOrCreateUser` inserts: not yet onboarded. */
  function NewUser(user: UserId, email: Option<string>, name: Option<string>, profileImage: Option<string>, now: int): (u: User)
    ensures u.clerkId == user && !u.onboardingCompleted
    ensures u.email == email && u.name == name && u.profileImage == profileImage
    ensures u.onboardingStarted.None? && u.onboardingCompletedAt.None?
  {
    User(user, email, name, profileImage, false, None, None, now, now)
  }

  /** The streak row `getOrCreateUser` inserts: no streak yet. */
  function ZeroedStreak(user: UserId, now: int): (s: Streaks.StreakRecord)
    ensures s.user == user && s.current == 0 && s.longest == 0
    ensures s.lastEntryDate.None? && s.achievements == []
    ensures Streaks.WellFormed(s) && Streaks.Untouched(Some(s))
  {
    Streaks.StreakRecord(user, 0, 0, None, [], now, now)
  }

  /** The response `startOnboarding` creates: at step 0 with no answers. */
  function NewResponse(user: UserId, now: int): (r: Response)
    ensures r.clerkId == user && r.currentStep == 0
    ensures r.moodScore.None? && r.lifestyle.None? && r.assessment.None? && r.reflection.None? && r.focusAreas.None?
    ensures r.completedAt.None?
  {
    Response(user, 0, None, None, None, None, None, None, now, now)
  }

  const WelcomeKind: string := "onboarding_complete"

  function Welcome(now: int): Streaks.Achievement {
    Streaks.Achievement(WelcomeKind, now, "Welcome Aboard!", "You've completed your onboarding journey")
  }

  /** The streak row after `completeOnboarding`: its achievements are
      replaced by the one welcome entry, whatever they were, and the streak
      counters are kept. */
  function WithWelcome(s: Streaks.StreakRecord, now: int): (s': Streaks.StreakRecord)
    ensures |s'.achievements| == 1 && s'.achievements[0].kind == WelcomeKind
    ensures s'.current == s.current && s'.longest == s.longest && s'.lastEntryDate == s.lastEntryDate
    ensures s'.user == s.user
    ensures Streaks.WellFormed(s) ==> Streaks.WellFormed(s')
  {
    s.(achievements := [Welcome(now)], updatedAt := now)
  }

  /** Completing onboarding again still leaves a single welcome entry. */
  lemma CompleteTwiceOneAchievement(s: Streaks.StreakRecord, t1: int, t2: int)
    ensures WithWelcome(WithWelcome(s, t1), t2).achievements == [Welcome(t2)]
  {
  }

  /** The answer of `needsOnboarding`. */
  datatype OnboardingStatus = OnboardingStatus(needsOnboarding: bool, isNewUser: bool, onboardingStarted: Option<int>)

  /** `needsOnboarding`: an unknown user is new and needs onboarding; a known
      one needs it exactly when it has not completed it. */
  function NeedsOnboarding(users: map<UserId, User>, user: UserId): (s: OnboardingStatus)
    ensures s.isNewUser <==> user !in users
    ensures s.needsOnboarding <==> user !in users || !users[user].onboardingCompleted
    ensures user in users ==> s.onboardingStarted == users[user].onboardingStarted
  {
    if user !in users then OnboardingStatus(true, true, None)
    else OnboardingStatus(!users[user].onboardingCompleted, false, users[user].onboardingStarted)
  }

  datatype Dashboard = Dashboard(user: User, streak: Option<Streaks.StreakRecord>,
                                 onboarding: Option<Response>, needsOnboarding: bool)

  /** `getUserDashboardData`: null for an unknown user, else the user with
      its streak row and onboarding response when they exist. */
  function DashboardData(users: map<UserId, User>, streaks: map<UserId, Streaks.StreakRecord>,
                         responses: map<UserId, Response>, user: UserId): (d: Option<Dashboard>)
    ensures d.None? <==> user !in users
    ensures d.Some? ==> d.value.user == users[user] && d.value.needsOnboarding == !users[user].onboardingCompleted
    ensures d.Some? ==> (d.value.streak.Some? <==> user in streaks) && (d.value.onboarding.Some? <==> user in responses)
    ensures d.Some? && user in streaks ==> d.value.streak == Some(streaks[user])
    ensures d.Some? && user in responses ==> d.value.onboarding == Some(responses[user])
  {
    if user !in users then None
    else
      Some(Dashboard(users[user],
                     if user in streaks then Some(streaks[user]) else None,
                     if user in responses then Some(responses[user]) else None,
                     !users[user].onboardingCompleted))
  }

  /** The dashboard and `needsOnboarding` agree on a known user. */
  lemma DashboardAgreesWithNeedsOnboarding(users: map<UserId, User>, streaks: map<UserId, Streaks.StreakRecord>,
                                           responses: map<UserId, Response>, user: UserId)
    requires user in users
    ensures DashboardData(users, streaks, responses, user).value.needsOnboarding
            == NeedsOnboarding(users, user).needsOnboarding
  {
  }

  // ---------------------------------------------------------------------
  // The duplicate streak row

  /** The `userStreaks` table as rows, with the duplicates the index does
      not prevent. */
  function CountRows(rows: seq<Streaks.StreakRecord>, user: UserId): (n: nat)
    ensures n <= |rows|
  {
    if rows == [] then 0
    else CountRows(rows[..|rows| - 1], user) + (if rows[|rows| - 1].user == user then 1 else 0)
  }

  /** A `.unique()` lookup: the row when there is exactly one, an error
      (`Failed`) when there are several. */
  function UniqueRow(rows: seq<Streaks.StreakRecord>, user: UserId): (r: Outcome<Option<Streaks.StreakRecord>>)
    ensures r.Failed? <==> CountRows(rows, user) > 1
  {
    if CountRows(rows, user) > 1 then Failed(NotUnique)
    else if CountRows(rows, user) == 0 then Done(None)
    else Done(Some(FirstRow(rows, user)))
  }

  function FirstRow(rows: seq<Streaks.StreakRecord>, user: UserId): Streaks.StreakRecord
    requires CountRows(rows, user) > 0
  {
    if rows[|rows| - 1].user == user then rows[|rows| - 1] else FirstRow(rows[..|rows| - 1], user)
  }

  /** `getOrCreateUser` for a user with no `users` row, as written: the zeroed
      streak row is inserted without looking for one. */
  function CreateStreakRowAsWritten(rows: seq<Streaks.StreakRecord>, user: UserId, now: int): (r: seq<Streaks.StreakRecord>)
    ensures CountRows(r, user) == CountRows(rows, user) + 1
  {
    var r := rows + [ZeroedStreak(user, now)];
    assert r[..|r| - 1] == rows;
    r
  }

  /** The discrepancy: a user who saved a finished journal entry before ever
      opening onboarding already has a streak row (the journal mutations
      create one). Opening onboarding then inserts a second one, and every
      later `.unique()` lookup of the user's streak row, in
      `completeOnboarding` and `getUserDashboardData`, throws. */
  lemma DuplicateStreakRow(user: UserId, today: Streaks.Day, t1: int, t2: int)
    ensures var credited := [Streaks.Credit(None, user, today, t1)];
      var rows := CreateStreakRowAsWritten(credited, user, t2);
      CountRows(rows, user) == 2 && UniqueRow(rows, user).Failed?
  {
    var credited := [Streaks.Credit(None, user, today, t1)];
    assert credited[..0] == [];
  }

  /** The corrected insert: the zeroed row only when the user has none, so
      the table keeps one row per user and an existing streak survives. */
  function CreateStreakRow(rows: map<UserId, Streaks.StreakRecord>, user: UserId, now: int): (r: map<UserId, Streaks.StreakRecord>)
    ensures user in r && r.Keys == rows.Keys + {user}
    ensures user in rows ==> r == rows
    ensures user !in rows ==> r[user] == ZeroedStreak(user, now)
    ensures forall u :: u in rows ==> r[u] == rows[u]
  {
    if user in rows then rows else rows[user := ZeroedStreak(user, now)]
  }

  // ---------------------------------------------------------------------
  // The store

  class UserStore {
    var users: map<UserId, User>
    var responses: map<UserId, Response>
    const streaks: Streaks.StreakTable

    ghost predicate Valid()
      reads this, streaks
    {
      && (forall u :: u in users ==> users[u].clerkId == u)
      && (forall u :: u in responses ==> responses[u].clerkId == u && responses[u].currentStep <= CompletedStep)
      && streaks.Valid()
    }

    constructor (streaks: Streaks.StreakTable)
      requires streaks.Valid()
      ensures Valid() && this.streaks == streaks && users == map[] && responses == map[]
    {
      this.streaks := streaks;
      users := map[];
      responses := map[];
    }

    /** `getOrCreateUser`: an existing user is returned and nothing changes;
        otherwise the user is created, together with a zeroed streak row
        when the user has none yet. */
    method GetOrCreateUser(user: UserId, email: Option<string>, name: Option<string>, profileImage: Option<string>, now: int)
      returns (u: User)
      requires Valid()
      modifies this, streaks
      ensures Valid() && responses == old(responses)
      ensures user in old(users) ==> u == old(users)[user] && users == old(users) && streaks.rows == old(streaks.rows)
      ensures user !in old(users) ==>
        && u == NewUser(user, email, name, profileImage, now)
        && users == old(users)[user := u]
        && streaks.rows == CreateStreakRow(old(streaks.rows), user, now)
    {
      if user in users {
        return users[user];
      }
      u := NewUser(user, email, name, profileImage, now);
      users := users[user := u];
      if user !in streaks.rows {
        streaks.rows := streaks.rows[user := ZeroedStreak(user, now)];
      }
    }

    /** `startOnboarding`: stamps the start time and returns the user's
        response, creating it at step 0 only when there is none. */
    method StartOnboarding(user: UserId, now: int) returns (out: Outcome<Response>)
      requires Valid()
      modifies this
      ensures Valid()
      ensures user !in old(users) ==> out == Failed(UserNotFound) && users == old(users) && responses == old(responses)
      ensures user in old(users) ==>
        && users == old(users)[user := old(users)[user].(onboardingStarted := Some(now), updatedAt := now)]
        && (user in old(responses) ==> out == Done(old(responses)[user]) && responses == old(responses))
        && (user !in old(responses) ==> out == Done(NewResponse(user, now)) && responses == old(responses)[user := NewResponse(user, now)])
    {
      if user !in users {
        return Failed(UserNotFound);
      }
      users := users[user := users[user].(onboardingStarted := Some(now), updatedAt := now)];
      if user in responses {
        return Done(responses[user]);
      }
      var r := NewResponse(user, now);
      responses := responses[user := r];
      return Done(r);
    }

    /** The five step mutations (`updateMoodSnapshot` through
        `updateGoalsAndPreferences`). */
    method UpdateStep(user: UserId, d: StepData, now: int) returns (out: Outcome<Response>)
      requires Valid()
      modifies this
      ensures Valid() && users == old(users)
      ensures user !in old(responses) ==> out == Failed(OnboardingNotStarted) && responses == old(responses)
      ensures user in old(responses) ==>
        && out == Done(ApplyStep(old(responses)[user], d, now))
        && responses == old(responses)[user := ApplyStep(old(responses)[user], d, now)]
    {
      if user !in responses {
        return Failed(OnboardingNotStarted);
      }
      var r := ApplyStep(responses[user], d, now);
      responses := responses[user := r];
      return Done(r);
    }

    /** `completeOnboarding`: marks the user onboarded, the response at the
        final step, and replaces the achievements of the user's streak row
        (when there is one) by the single welcome entry. */
    method CompleteOnboarding(user: UserId, now: int) returns (out: Outcome<(User, Response)>)
      requires Valid()
      modifies this, streaks
      ensures Valid()
      ensures user !in old(users) ==>
        out == Failed(UserNotFound) && users == old(users) && responses == old(responses) && streaks.rows == old(streaks.rows)
      ensures user in old(users) && user !in old(responses) ==>
        out == Failed(OnboardingNotStarted) && users == old(users) && responses == old(responses) && streaks.rows == old(streaks.rows)
      ensures user in old(users) && user in old(responses) ==>
        && users == old(users)[user := old(users)[user].(onboardingCompleted := true, onboardingCompletedAt := Some(now), updatedAt := now)]
        && responses == old(responses)[user := old(responses)[user].(currentStep := CompletedStep, completedAt := Some(now), updatedAt := now)]
        && streaks.rows == (if user in old(streaks.rows) then old(streaks.rows)[user := WithWelcome(old(streaks.rows)[user], now)]
                            else old(streaks.rows))
        && out == Done((users[user], responses[user]))
        && users[user].onboardingCompleted && responses[user].currentStep == CompletedStep
    {
      if user !in users {
        return Failed(UserNotFound);
      }
      if user !in responses {
        return Failed(OnboardingNotStarted);
      }
      users := users[user := users[user].(onboardingCompleted := true, onboardingCompletedAt := Some(now), updatedAt := now)];
      responses := responses[user := responses[user].(currentStep := CompletedStep, completedAt := Some(now), updatedAt := now)];
      if user in streaks.rows {
        streaks.rows := streaks.rows[user := WithWelcome(streaks.rows[user], now)];
      }
      return Done((users[user], responses[user]));
    }
  }
}
