/** The onboarding wizard controller (app/client/src/components/OnBoardingPage.tsx): the
    current step, the chosen role and the accumulated answers, and the handlers that commit
    the role, create the profile, advance and go back. The back-end calls are recorded in a
    ghost log; whether the role call throws is a parameter, and so is the stored user id. */
module OnboardingPage {
  import opened Wrappers
  import opened JsText
  import opened OnboardingAnswers
  import UsersApi
  import CandidateFlow
  import RecruiterFlow
  import PyStr

  datatype Role = Candidate | Recruiter

  /** The stored `role`: the role's name, or `null` before one is chosen. */
  function RoleValue(r: Option<Role>): JsValue {
    match r
    case None => Null
    case Some(Candidate) => Str("candidate")
    case Some(Recruiter) => Str("recruiter")
  }

  /** The role the answers hold, if any. */
  function RoleOf(data: Answers): (r: Option<Role>)
    ensures r.Some? ==> "role" in data && data["role"] == RoleValue(r)
    ensures r.None? ==> "role" !in data || data["role"] !in {Str("candidate"), Str("recruiter")}
  {
    if "role" in data && data["role"] == Str("candidate") then Some(Candidate)
    else if "role" in data && data["role"] == Str("recruiter") then Some(Recruiter)
    else None
  }

  /** A back-end call the wizard makes. */
  datatype BackendCall =
    | UpdateUserRole(userId: real, role: Role)
    | CreateCandidateProfile(userId: real, candidate: UsersApi.CandidateProfileInput)
    | CreateRecruiterProfile(userId: real, recruiter: UsersApi.RecruiterProfileInput)

  /** The state `handleNext` leaves and the calls it makes. */
  datatype Outcome = Outcome(step: nat, data: Answers, calls: seq<BackendCall>)

  /** `handleNext(stepData)` at `step` with answers `data`, for the stored user id read as
      `userId`; `roleCallThrows` says whether `updateUserRole` rejects. */
  function Transition(step: nat, data: Answers, stepData: Option<Answers>, userId: JsNumber, roleCallThrows: bool): (t: Outcome)
    ensures |t.calls| <= 1
    ensures t.calls == [] ==> t.step == step + 1 && t.data == Merge(data, stepData)
    ensures t.calls != [] ==> NumberTruthy(userId) && (t.data == data || t.data == Merge(data, stepData))
  {
    var newData := Merge(data, stepData);
    var role := RoleOf(newData);
    if step == 0 && role.Some? && NumberTruthy(userId) then
      var call := UpdateUserRole(userId.value, role.value);
      if roleCallThrows then Outcome(step, data, [call]) else Outcome(1, newData, [call])
    else if NumberTruthy(userId) && role == Some(Candidate) && step == 7 then
      Outcome(step, data, [CreateCandidateProfile(userId.value, CandidateFlow.FinishInput(newData))])
    else if NumberTruthy(userId) && role == Some(Recruiter) && step == 6 then
      Outcome(step, data, [CreateRecruiterProfile(userId.value, RecruiterFlow.FinishInput(newData))])
    else Outcome(step + 1, newData, [])
  }

  /** `getTotalSteps`: the role screen plus the role's screens, completion included. */
  function TotalSteps(role: Option<Role>): (n: nat)
    ensures role == Some(Candidate) ==> n == 2 + |CandidateFlow.AnswerKeys|
    ensures role == Some(Recruiter) ==> n == 2 + |RecruiterFlow.AnswerKeys|
    ensures role.None? ==> n == 1
  {
    match role
    case Some(Candidate) => 8
    case Some(Recruiter) => 7
    case None => 1
  }

  class Wizard {
    var currentStep: nat
    var data: Answers
    /** The back-end calls made so far, in order. */
    ghost var calls: seq<BackendCall>

    /** Step 0, no role, no answers. */
    constructor ()
      ensures currentStep == 0 && data == map["role" := Null] && calls == []
      ensures RoleOf(data).None?
    {
      currentStep := 0;
      data := map["role" := Null];
      calls := [];
    }

    /** `handleRoleSelect`: only the role changes. */
    method HandleRoleSelect(role: Option<Role>)
      modifies this
      ensures data == old(data)["role" := RoleValue(role)] && RoleOf(data) == role
      ensures currentStep == old(currentStep) && calls == old(calls)
    {
      data := data["role" := RoleValue(role)];
    }

    /** `handleNext`. */
    method HandleNext(stepData: Option<Answers>, storedUserId: Option<string>, roleCallThrows: bool)
      modifies this
      ensures var t := Transition(old(currentStep), old(data), stepData, NumberOf(storedUserId), roleCallThrows);
        currentStep == t.step && data == t.data && calls == old(calls) + t.calls
    {
      var newData := Merge(data, stepData);
      var userId := NumberOf(storedUserId);
      var role := RoleOf(newData);
      if currentStep == 0 && role.Some? && NumberTruthy(userId) {
        calls := calls + [UpdateUserRole(userId.value, role.value)];
        if roleCallThrows {
          return;
        }
        data := newData;
        currentStep := 1;
        return;
      }
      if NumberTruthy(userId) && role == Some(Candidate) && currentStep == 7 {
        calls := calls + [CreateCandidateProfile(userId.value, CandidateFlow.FinishInput(newData))];
        return;
      }
      if NumberTruthy(userId) && role == Some(Recruiter) && currentStep == 6 {
        calls := calls + [CreateRecruiterProfile(userId.value, RecruiterFlow.FinishInput(newData))];
        return;
      }
      data := newData;
      currentStep := currentStep + 1;
    }

    /** `handleBack`: one step back, never below 0; the answers stay. */
    method HandleBack()
      modifies this
      ensures currentStep == if old(currentStep) > 0 then old(currentStep) - 1 else 0
      ensures data == old(data) && calls == old(calls)
    {
      if currentStep > 0 {
        currentStep := currentStep - 1;
      }
    }

    /** `getTotalSteps` on the current answers. */
    function Total(): (n: nat)
      reads this
      ensures n == TotalSteps(RoleOf(data))
    {
      TotalSteps(RoleOf(data))
    }
  }

  // ---------------------------------------------------------------------------
  // Properties of handleNext
  // ---------------------------------------------------------------------------

  /** At step 0 with a role and a usable user id, exactly one role call is made with that
      role; the wizard moves to step 1 and stores the answers only if the call succeeds. */
  lemma CommitRole(data: Answers, stepData: Option<Answers>, userId: JsNumber, throws: bool)
    requires RoleOf(Merge(data, stepData)).Some? && NumberTruthy(userId)
    ensures var t := Transition(0, data, stepData, userId, throws);
      && t.calls == [UpdateUserRole(userId.value, RoleOf(Merge(data, stepData)).value)]
      && (throws ==> t.step == 0 && t.data == data)
      && (!throws ==> t.step == 1 && t.data == Merge(data, stepData))
  {
  }

  /** At the last candidate step, one profile call carries the merged answers; the step stays
      and the merged answers are not stored. */
  lemma CreateCandidateAtLastStep(data: Answers, stepData: Option<Answers>, userId: JsNumber, throws: bool)
    requires RoleOf(Merge(data, stepData)) == Some(Candidate) && NumberTruthy(userId)
    ensures var t := Transition(7, data, stepData, userId, throws);
      && t.calls == [CreateCandidateProfile(userId.value, CandidateFlow.FinishInput(Merge(data, stepData)))]
      && t.step == 7 && t.data == data
  {
  }

  /** At the last recruiter step, one profile call carries the merged answers; the step
      stays and the merged answers are not stored. */
  lemma CreateRecruiterAtLastStep(data: Answers, stepData: Option<Answers>, userId: JsNumber, throws: bool)
    requires RoleOf(Merge(data, stepData)) == Some(Recruiter) && NumberTruthy(userId)
    ensures var t := Transition(6, data, stepData, userId, throws);
      && t.calls == [CreateRecruiterProfile(userId.value, RecruiterFlow.FinishInput(Merge(data, stepData)))]
      && t.step == 6 && t.data == data
  {
  }

  /** A call is made exactly at step 0 with a role, or at the role's last step, and only with
      a usable user id; in every other case the wizard advances by one and stores the
      merged answers. */
  lemma CallsOnlyAtEnds(step: nat, data: Answers, stepData: Option<Answers>, userId: JsNumber, throws: bool)
    ensures var t := Transition(step, data, stepData, userId, throws);
      var role := RoleOf(Merge(data, stepData));
      t.calls != [] <==> (NumberTruthy(userId) &&
        ((step == 0 && role.Some?) || (step == 7 && role == Some(Candidate)) || (step == 6 && role == Some(Recruiter))))
  {
  }

  /** No stored user id reads as `Number(null)`, which is 0 and falsy: even a chosen role is
      not committed and the wizard just advances. */
  lemma MissingUserIdJustAdvances(step: nat, data: Answers, stepData: Option<Answers>, throws: bool)
    ensures Transition(step, data, stepData, NumberOf(None), throws) == Outcome(step + 1, Merge(data, stepData), [])
  {
  }

  /** A stored user id that starts with a letter is not a number: it reads as NaN, which is
      falsy too, so the wizard just advances. */
  lemma NonNumericUserIdJustAdvances(step: nat, data: Answers, stepData: Option<Answers>, throws: bool, stored: string)
    requires stored != [] && 'a' <= stored[0] <= 'z'
    ensures Transition(step, data, stepData, NumberOf(Some(stored)), throws) == Outcome(step + 1, Merge(data, stepData), [])
  {
    LetterLeadIsNaN(stored);
  }

  lemma LetterLeadIsNaN(s: string)
    requires s != [] && 'a' <= s[0] <= 'z'
    ensures NumberOf(Some(s)) == NaN
  {
    TrimKeepsHead(s, 1);
    var t := Trim(s);
    assert t != [] && t[0] == s[0];
    assert SignStripped(t) == t;
    assert LeadingDigits(t) == [];
    assert t[0..] == t;
  }

  /** A user id the client stored as `String(id)` is usable exactly when it is not 0. */
  lemma StoredUserIdUsable(id: nat)
    ensures NumberTruthy(NumberOf(Some(PyStr.NatToDecimal(id)))) <==> id != 0
  {
    NumberOfDecimal(id);
  }

  /** The completion screens have no Next button, so `onNext` is only ever called from the
      data screens, at page steps 1 to 6 for a candidate and 1 to 5 for a recruiter: the
      profile-creation branches of `handleNext` are never reached from the screens, and the
      profiles are created by the screens' own `finish` instead. */
  lemma LastStepsUnreachableFromScreens(c: CandidateFlow.CandidateScreen, r: RecruiterFlow.RecruiterScreen, screen: int)
    ensures c.NextPayload(screen).Some? ==> screen + 1 != 7
    ensures r.NextPayload(screen).Some? ==> screen + 1 != 6
  {
  }
}
