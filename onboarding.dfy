// The onboarding page of app/onboarding/page.tsx: a wizard of steps 0..6
// (welcome, mood, lifestyle, assessment, AI reflection, focus areas, done)
// that sends each answer to the onboarding mutations of convex/users.ts
// (module Users), asks for AI feedback once it knows the mood, and routes
// the user on.
//
// The backend calls are recorded in order in `sent` rather than performed;
// whether the backend rejects a call is the parameter `rejects`, and the
// reply of the feedback request is a parameter (`None` when the request or
// its parsing throws). A rejected call ends the submit handler that awaited
// it: the wizard does not move on and the page does not navigate. The
// signed-in user is `None` while signed out.

module OnboardingPage {
  import opened Common
  import Users

  type UserId = string

  /** The page's last step. */
  const LastStep: nat := 6

  /** `next`: one step on, never past the last. */
  function Next(step: nat): (r: nat)
    ensures r <= LastStep || r == step
    ensures step < LastStep ==> r == step + 1
    ensures step >= LastStep ==> r == LastStep
  {
    Min(step + 1, LastStep)
  }

  /** A five-point emoji score. */
  type Score = v: int | 1 <= v <= 5 witness 3

  /** `to10`: a five-point score on the backend's 0..10 scale. */
  function To10(v: Score): (r: int)
    ensures 2 <= r <= 10 && r % 2 == 0 && r / 2 == v
  {
    v * 2
  }

  datatype Scores = Scores(sleepQuality: Score, energyLevel: Score, stressLevel: Score, socialConnection: Score)

  /** The four lifestyle questions. */
  datatype LifestyleKey = SleepQuality | EnergyLevel | StressLevel | SocialConnection

  /** `lifestyle[k]`. */
  function ScoreOf(s: Scores, k: LifestyleKey): Score {
    match k
    case SleepQuality => s.sleepQuality
    case EnergyLevel => s.energyLevel
    case StressLevel => s.stressLevel
    case SocialConnection => s.socialConnection
  }

  /** `{ ...s, [k]: val }`: the score of question `k` becomes `v`, the
      others stay. */
  function WithScore(s: Scores, k: LifestyleKey, v: Score): (r: Scores)
    ensures ScoreOf(r, k) == v
    ensures forall q :: q != k ==> ScoreOf(r, q) == ScoreOf(s, q)
  {
    match k
    case SleepQuality => s.(sleepQuality := v)
    case EnergyLevel => s.(energyLevel := v)
    case StressLevel => s.(stressLevel := v)
    case SocialConnection => s.(socialConnection := v)
  }

  /** The two assessment questions. */
  datatype Question = AnxietyFrequency | InterestLossFrequency

  /** `assessment[k]`. */
  function AnswerOf(a: Users.Assessment, q: Question): Users.Frequency {
    match q
    case AnxietyFrequency => a.anxietyFrequency
    case InterestLossFrequency => a.interestLossFrequency
  }

  /** `{ ...a, [k]: val }`: the answer to question `q` becomes `f`, the
      other stays. */
  function WithAnswer(a: Users.Assessment, q: Question, f: Users.Frequency): (r: Users.Assessment)
    ensures AnswerOf(r, q) == f
    ensures forall p :: p != q ==> AnswerOf(r, p) == AnswerOf(a, p)
  {
    match q
    case AnxietyFrequency => a.(anxietyFrequency := f)
    case InterestLossFrequency => a.(interestLossFrequency := f)
  }

  /** The lifestyle answers as sent, each doubled. */
  function LifestyleSent(s: Scores): (l: Users.Lifestyle)
    ensures l.sleepQuality == To10(s.sleepQuality) && l.energyLevel == To10(s.energyLevel)
    ensures l.stressLevel == To10(s.stressLevel) && l.socialConnection == To10(s.socialConnection)
  {
    Users.Lifestyle(To10(s.sleepQuality), To10(s.energyLevel), To10(s.stressLevel), To10(s.socialConnection))
  }

  // ---------------------------------------------------------------------
  // Focus areas

  /** `arr.filter(v => v !== a)`. */
  function Without(arr: seq<Users.FocusArea>, a: Users.FocusArea): (r: seq<Users.FocusArea>)
    ensures forall x :: x in r <==> x in arr && x != a
    ensures a !in arr ==> r == arr
  {
    if arr == [] then []
    else
      var rest := Without(arr[1..], a);
      assert arr == [arr[0]] + arr[1..];
      if arr[0] == a then rest else [arr[0]] + rest
  }

  predicate NoDuplicates(arr: seq<Users.FocusArea>) {
    forall i, j :: 0 <= i < j < |arr| ==> arr[i] != arr[j]
  }

  /** The focus-area button: removes the area when chosen, appends it
      otherwise. */
  function ToggleFocus(arr: seq<Users.FocusArea>, a: Users.FocusArea): (r: seq<Users.FocusArea>)
    ensures a in r <==> a !in arr
    ensures forall x :: x != a ==> (x in r <==> x in arr)
  {
    if a in arr then Without(arr, a) else arr + [a]
  }

  /** Removing an element from a list without duplicates keeps it without
      duplicates. */
  lemma {:induction false} WithoutNoDuplicates(arr: seq<Users.FocusArea>, a: Users.FocusArea)
    requires NoDuplicates(arr)
    ensures NoDuplicates(Without(arr, a))
  {
    if arr != [] {
      assert NoDuplicates(arr[1..]) by {
        forall i, j | 0 <= i < j < |arr[1..]| ensures arr[1..][i] != arr[1..][j] {
          assert arr[1..][i] == arr[i + 1] && arr[1..][j] == arr[j + 1];
        }
      }
      WithoutNoDuplicates(arr[1..], a);
      var rest := Without(arr[1..], a);
      if arr[0] != a {
        assert arr[0] !in arr[1..] by {
          assert forall j :: 0 <= j < |arr[1..]| ==> arr[1..][j] == arr[j + 1] != arr[0];
        }
        assert arr[0] !in rest;
      }
    }
  }

  /** Toggling never creates a duplicate. */
  lemma ToggleNoDuplicates(arr: seq<Users.FocusArea>, a: Users.FocusArea)
    requires NoDuplicates(arr)
    ensures NoDuplicates(ToggleFocus(arr, a))
  {
    if a in arr {
      WithoutNoDuplicates(arr, a);
    }
  }

  /** Toggling an area twice restores the list when it was not chosen,
      and the set of chosen areas when it was (the area then moves to the
      end). */
  lemma ToggleTwice(arr: seq<Users.FocusArea>, a: Users.FocusArea)
    ensures a !in arr ==> ToggleFocus(ToggleFocus(arr, a), a) == arr
    ensures forall x :: x in ToggleFocus(ToggleFocus(arr, a), a) <==> x in arr
  {
    if a !in arr {
      var once := arr + [a];
      assert Without(once, a) == arr by {
        WithoutAppend(arr, a);
      }
    }
  }

  lemma {:induction false} WithoutAppend(arr: seq<Users.FocusArea>, a: Users.FocusArea)
    requires a !in arr
    ensures Without(arr + [a], a) == arr
  {
    if arr == [] {
      assert Without([a], a) == Without([], a);
    } else {
      assert (arr + [a])[1..] == arr[1..] + [a];
      WithoutAppend(arr[1..], a);
      assert arr == [arr[0]] + arr[1..];
    }
  }

  // ---------------------------------------------------------------------
  // AI reflection and routing

  datatype ActionType = Meditation | Journaling | Breathing | Movement | Reflection | Mindfulness

  datatype AiResponse = AiResponse(reflection: Users.Reflection, actionType: ActionType)

  /** The parsed reply of the feedback request. */
  datatype AiReply = AiReply(success: bool, data: Option<AiResponse>)

  const Fallback: AiResponse := AiResponse(
    Users.Reflection(
      "Hey friend, I hear you're feeling a bit drained but resilient.",
      "You show up even on tough days\U{201A}\U{00C4}\U{00EE}consistency is a strength.",
      "Try a gentle 5-minute walk outside this afternoon.",
      "You seem to be carrying some stress, yet your ability to keep going stands out. Focus on one small act of care today\U{201A}\U{00C4}\U{00EE}short walk, slow breathing, or a mindful sip of water."),
    Mindfulness)

  /** The response shown: the reply's data when it succeeded with data,
      otherwise (including a request that threw) the fixed fallback. */
  function ChooseResponse(reply: Option<AiReply>): (r: AiResponse)
    ensures reply.Some? && reply.value.success && reply.value.data.Some? ==> r == reply.value.data.value
    ensures !(reply.Some? && reply.value.success && reply.value.data.Some?) ==> r == Fallback && r.actionType == Mindfulness
  {
    if reply.Some? && reply.value.success && reply.value.data.Some? then reply.value.data.value else Fallback
  }

  datatype Route = DiaryToday | DiarySpace

  /** Where the suggestion's button leads. */
  function RouteFor(t: ActionType): (r: Route)
    ensures r == DiaryToday <==> t == Journaling || t == Reflection
    ensures r == DiarySpace <==> t in {Breathing, Meditation, Mindfulness, Movement}
  {
    match t
    case Journaling | Reflection => DiaryToday
    case Breathing | Meditation | Mindfulness => DiarySpace
    case Movement => DiarySpace
  }

  /** The redirect effect: a user whose status says no onboarding is
      needed is sent to the diary. */
  function Redirect(status: Option<Users.OnboardingStatus>): (r: Option<Route>)
    ensures r.Some? <==> status.Some? && !status.value.needsOnboarding
    ensures r.Some? ==> r.value == DiaryToday
  {
    if status.Some? && !status.value.needsOnboarding then Some(DiaryToday) else None
  }

  /** A known user who has completed onboarding is redirected; a new user
      or one still onboarding is not. */
  lemma RedirectIffCompleted(users: map<Users.UserId, Users.User>, user: Users.UserId)
    ensures Redirect(Some(Users.NeedsOnboarding(users, user))).Some? <==>
      user in users && users[user].onboardingCompleted
  {
  }

  // ---------------------------------------------------------------------
  // The wizard

  /** A backend call the page makes. */
  datatype Call = Update(data: Users.StepData) | FeedbackRequest | Complete

  class Wizard {
    var step: nat
    var moodScore: Option<int>
    var lifestyle: Scores
    var assessment: Users.Assessment
    var focusAreas: seq<Users.FocusArea>
    var aiResponse: Option<AiResponse>
    /** The backend calls made so far, oldest first. */
    var sent: seq<Call>

    ghost predicate Valid()
      reads this
    {
      step <= LastStep && NoDuplicates(focusAreas)
    }

    constructor ()
      ensures Valid()
      ensures step == 0 && moodScore.None? && focusAreas == [] && aiResponse.None? && sent == []
      ensures lifestyle == Scores(3, 3, 3, 3)
      ensures assessment == Users.Assessment(Users.SeveralDays, Users.SeveralDays)
    {
      step := 0;
      moodScore := None;
      lifestyle := Scores(3, 3, 3, 3);
      assessment := Users.Assessment(Users.SeveralDays, Users.SeveralDays);
      focusAreas := [];
      aiResponse := None;
      sent := [];
    }

    /** `next`. */
    method Advance()
      requires Valid()
      modifies this
      ensures Valid()
      ensures step == Next(old(step)) && step >= old(step)
      ensures moodScore == old(moodScore) && focusAreas == old(focusAreas) && aiResponse == old(aiResponse) && sent == old(sent)
      ensures lifestyle == old(lifestyle) && assessment == old(assessment)
    {
      step := Min(step + 1, LastStep);
    }

    /** `submitStep1`: remembers the mood, sends it when signed in, and
        moves on unless the backend rejects it. */
    method SubmitMood(user: Option<UserId>, value: int, rejects: Call -> bool) returns (ok: bool)
      requires Valid()
      modifies this
      ensures Valid()
      ensures moodScore == Some(value)
      ensures var c := Update(Users.MoodSnapshot(value));
        && sent == old(sent) + (if user.Some? then [c] else [])
        && (ok <==> user.None? || !rejects(c))
      ensures step == if ok then Next(old(step)) else old(step)
      ensures focusAreas == old(focusAreas) && aiResponse == old(aiResponse)
      ensures lifestyle == old(lifestyle) && assessment == old(assessment)
    {
      moodScore := Some(value);
      if user.Some? {
        var c := Update(Users.MoodSnapshot(value));
        sent := sent + [c];
        if rejects(c) {
          return false;
        }
      }
      Advance();
      ok := true;
    }

    /** A lifestyle emoji: question `k` gets score `v`. */
    method SetLifestyle(k: LifestyleKey, v: Score)
      requires Valid()
      modifies this
      ensures Valid() && lifestyle == WithScore(old(lifestyle), k, v)
      ensures step == old(step) && sent == old(sent) && focusAreas == old(focusAreas) && moodScore == old(moodScore)
      ensures assessment == old(assessment) && aiResponse == old(aiResponse)
    {
      lifestyle := WithScore(lifestyle, k, v);
    }

    /** An assessment button: question `q` gets answer `f`. */
    method SetAssessment(q: Question, f: Users.Frequency)
      requires Valid()
      modifies this
      ensures Valid() && assessment == WithAnswer(old(assessment), q, f)
      ensures step == old(step) && sent == old(sent) && focusAreas == old(focusAreas) && moodScore == old(moodScore)
      ensures lifestyle == old(lifestyle) && aiResponse == old(aiResponse)
    {
      assessment := WithAnswer(assessment, q, f);
    }

    /** `submitStep2`: sends the lifestyle scores doubled, and moves on
        unless the backend rejects them. */
    method SubmitLifestyle(user: Option<UserId>, rejects: Call -> bool) returns (ok: bool)
      requires Valid()
      modifies this
      ensures Valid()
      ensures var c := Update(Users.LifestyleCheck(LifestyleSent(lifestyle)));
        && sent == old(sent) + (if user.Some? then [c] else [])
        && (ok <==> user.None? || !rejects(c))
      ensures step == if ok then Next(old(step)) else old(step)
      ensures focusAreas == old(focusAreas) && aiResponse == old(aiResponse) && moodScore == old(moodScore)
      ensures lifestyle == old(lifestyle) && assessment == old(assessment)
    {
      if user.Some? {
        var c := Update(Users.LifestyleCheck(LifestyleSent(lifestyle)));
        sent := sent + [c];
        if rejects(c) {
          return false;
        }
      }
      Advance();
      ok := true;
    }

    /** `submitStep3`: sends the assessment; with a user and a (non-zero)
        mood, asks for feedback. When the request throws (`reply` is
        `None`), the `catch` shows the fallback and sends it once. When a
        reply arrives, the chosen reflection is shown and sent; its
        rejection lands in the same `catch`, so the fallback is shown and
        sent again. The wizard moves on unless the assessment or the last
        reflection sent is rejected. */
    method SubmitAssessment(user: Option<UserId>, reply: Option<AiReply>, rejects: Call -> bool) returns (ok: bool)
      requires Valid()
      modifies this
      ensures Valid()
      ensures var mh := Update(Users.MentalHealth(assessment));
        var asked := user.Some? && moodScore.Some? && moodScore.value != 0;
        var first := Update(Users.AIReflection(ChooseResponse(reply).reflection));
        var second := Update(Users.AIReflection(Fallback.reflection));
        if user.Some? && rejects(mh) then
          !ok && sent == old(sent) + [mh] && aiResponse == old(aiResponse)
        else if !asked then
          ok && sent == old(sent) + (if user.Some? then [mh] else []) && aiResponse == old(aiResponse)
        else if reply.None? then
          && (ok <==> !rejects(second))
          && sent == old(sent) + [mh, FeedbackRequest, second] && aiResponse == Some(Fallback)
        else if !rejects(first) then
          ok && sent == old(sent) + [mh, FeedbackRequest, first] && aiResponse == Some(ChooseResponse(reply))
        else
          && (ok <==> !rejects(second))
          && sent == old(sent) + [mh, FeedbackRequest, first, second] && aiResponse == Some(Fallback)
      ensures step == if ok then Next(old(step)) else old(step)
      ensures focusAreas == old(focusAreas) && moodScore == old(moodScore)
      ensures lifestyle == old(lifestyle) && assessment == old(assessment)
    {
      if user.Some? {
        var mh := Update(Users.MentalHealth(assessment));
        sent := sent + [mh];
        if rejects(mh) {
          return false;
        }
      }
      if user.Some? && moodScore.Some? && moodScore.value != 0 && reply.None? {
        aiResponse := Some(Fallback);
        var second := Update(Users.AIReflection(Fallback.reflection));
        sent := sent + [FeedbackRequest, second];
        if rejects(second) {
          return false;
        }
      } else if user.Some? && moodScore.Some? && moodScore.value != 0 {
        var chosen := ChooseResponse(reply);
        aiResponse := Some(chosen);
        var first := Update(Users.AIReflection(chosen.reflection));
        sent := sent + [FeedbackRequest, first];
        if rejects(first) {
          aiResponse := Some(Fallback);
          var second := Update(Users.AIReflection(Fallback.reflection));
          sent := sent + [second];
          if rejects(second) {
            return false;
          }
        }
      }
      Advance();
      ok := true;
    }

    /** The reflection step's "Continue". */
    method Continue()
      requires Valid() && step == 4
      modifies this
      ensures Valid() && step == 5
      ensures sent == old(sent) && focusAreas == old(focusAreas) && aiResponse == old(aiResponse)
    {
      step := 5;
    }

    /** A focus-area button. */
    method Toggle(a: Users.FocusArea)
      requires Valid()
      modifies this
      ensures Valid()
      ensures focusAreas == ToggleFocus(old(focusAreas), a)
      ensures step == old(step) && sent == old(sent) && aiResponse == old(aiResponse)
    {
      ToggleNoDuplicates(focusAreas, a);
      if a in focusAreas {
        focusAreas := Without(focusAreas, a);
      } else {
        focusAreas := focusAreas + [a];
      }
    }

    /** `submitStep5`: sends the focus areas and completes onboarding when
        signed in, then leads to the diary; a rejected call stops it before
        any navigation (`None`). */
    method Finish(user: Option<UserId>, rejects: Call -> bool) returns (r: Option<Route>)
      requires Valid()
      modifies this
      ensures Valid()
      ensures var goals := Update(Users.GoalsAndPreferences(focusAreas));
        if user.None? then
          r == Some(DiaryToday) && sent == old(sent)
        else if rejects(goals) then
          r == None && sent == old(sent) + [goals]
        else
          && sent == old(sent) + [goals, Complete]
          && r == if rejects(Complete) then None else Some(DiaryToday)
      ensures step == old(step) && focusAreas == old(focusAreas) && aiResponse == old(aiResponse)
    {
      if user.Some? {
        var goals := Update(Users.GoalsAndPreferences(focusAreas));
        sent := sent + [goals];
        if rejects(goals) {
          return None;
        }
        sent := sent + [Complete];
        if rejects(Complete) {
          return None;
        }
      }
      r := Some(DiaryToday);
    }
  }
}
