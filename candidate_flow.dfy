/** The candidate screens of the onboarding wizard
    (app/client/src/components/onboardingComponents/CandidateFlow.tsx): the local state each
    screen edits, the skill list edits, when Next is enabled, what Next hands on and what the
    completion screen sends. */
module CandidateFlow {
  import opened Wrappers
  import opened JsText
  import opened ListSet
  import opened OnboardingAnswers
  import UsersApi
  import PyStr

  /** The skills offered as one-click suggestions, in display order. */
  const SuggestedSkills: seq<string> := [
    "JavaScript", "Python", "React", "Node.js", "TypeScript",
    "Leadership", "Communication", "Project Management", "SQL", "AWS"]

  /** The values of the experience buttons, in display order. */
  const ExperienceLevels: seq<string> := ["0-1", "1-2", "2-3", "3-5", "5-7", "7-10", "10+"]

  /** The lower end of each experience level, in years. */
  const LevelYears: seq<string> := ["0", "1", "2", "3", "5", "7", "10"]

  /** The answer each data screen (0 to 5) hands on. */
  const AnswerKeys: seq<string> := ["field", "desiredRole", "location", "experience", "skills", "bio"]

  /** A value that counts as an answer: non-empty text or a non-empty list. */
  predicate Filled(v: JsValue) {
    (v.Str? && v.s != "") || (v.Arr? && v.items != [])
  }

  class CandidateScreen {
    var field: string
    var desiredRole: string
    var location: string
    var experience: string
    var skills: seq<string>
    var skillInput: string
    var bio: string

    /** The local state starts from the accumulated answers, `''` or `[]` where absent. */
    constructor (data: Answers)
      ensures field == TextAnswer(data, "field") && desiredRole == TextAnswer(data, "desiredRole")
      ensures location == TextAnswer(data, "location") && experience == TextAnswer(data, "experience")
      ensures skills == ListAnswer(data, "skills") && bio == TextAnswer(data, "bio")
      ensures skillInput == ""
    {
      field := TextAnswer(data, "field");
      desiredRole := TextAnswer(data, "desiredRole");
      location := TextAnswer(data, "location");
      experience := TextAnswer(data, "experience");
      skills := ListAnswer(data, "skills");
      skillInput := "";
      bio := TextAnswer(data, "bio");
    }

    /** `handleAddSkill`: a non-empty skill not yet chosen is appended and the input cleared;
        anything else leaves the list and the input as they are. */
    method HandleAddSkill(skill: string)
      modifies this
      ensures skills == AddIfNew(old(skills), skill)
      ensures skillInput == if skill != "" && skill !in old(skills) then "" else old(skillInput)
      ensures field == old(field) && desiredRole == old(desiredRole) && location == old(location)
      ensures experience == old(experience) && bio == old(bio)
    {
      if skill != "" && skill !in skills {
        skills := skills + [skill];
        skillInput := "";
      }
    }

    /** `handleRemoveSkill`: every occurrence goes, the rest keep their order. */
    method HandleRemoveSkill(skill: string)
      modifies this
      ensures skills == RemoveAll(old(skills), skill)
      ensures skillInput == old(skillInput)
      ensures field == old(field) && desiredRole == old(desiredRole) && location == old(location)
      ensures experience == old(experience) && bio == old(bio)
    {
      skills := RemoveAll(skills, skill);
    }

    /** `handleKeyPress`: Enter adds the typed skill; other keys change nothing. */
    method HandleKeyPress(key: string)
      modifies this
      ensures key == "Enter" ==> skills == AddIfNew(old(skills), old(skillInput))
      ensures key == "Enter" && old(skillInput) != "" && old(skillInput) !in old(skills) ==> skillInput == ""
      ensures key != "Enter" || old(skillInput) == "" || old(skillInput) in old(skills) ==> skillInput == old(skillInput)
      ensures key != "Enter" ==> skills == old(skills)
      ensures field == old(field) && desiredRole == old(desiredRole) && location == old(location)
      ensures experience == old(experience) && bio == old(bio)
    {
      if key == "Enter" {
        HandleAddSkill(skillInput);
      }
    }

    /** A click on the `i`-th experience button. */
    method ChooseExperience(i: nat)
      requires i < |ExperienceLevels|
      modifies this
      ensures experience == ExperienceLevels[i]
      ensures field == old(field) && desiredRole == old(desiredRole) && location == old(location)
      ensures skills == old(skills) && skillInput == old(skillInput) && bio == old(bio)
    {
      experience := ExperienceLevels[i];
    }

    /** The value screen `step` hands on. */
    function StepValue(step: nat): JsValue
      requires step < 6
      reads this
    {
      match step
      case 0 => Str(field)
      case 1 => Str(desiredRole)
      case 2 => Str(location)
      case 3 => Str(experience)
      case 4 => Arr(StrItems(skills))
      case 5 => Str(bio)
    }

    /** What the Next button of screen `step` hands to `onNext`; `None` on the completion
        screen and past it, which have no Next button. */
    function NextPayload(step: int): (p: Option<Answers>)
      reads this
      ensures p.Some? <==> 0 <= step < 6
      ensures p.Some? ==> p.value.Keys == {AnswerKeys[step]} && p.value[AnswerKeys[step]] == StepValue(step)
    {
      if 0 <= step < 6 then Some(map[AnswerKeys[step] := StepValue(step)]) else None
    }

    /** Whether the Next button of screen `step` is enabled. */
    function NextEnabled(step: int): (b: bool)
      reads this
      ensures b ==> NextPayload(step).Some? && Filled(NextPayload(step).value[AnswerKeys[step]])
      ensures step == 0 ==> (b <==> Trim(field) != "")
      ensures step == 1 ==> (b <==> Trim(desiredRole) != "")
      ensures step == 2 ==> (b <==> Trim(location) != "")
      ensures step == 3 ==> (b <==> experience != "")
      ensures step == 4 ==> (b <==> skills != [])
      ensures step == 5 ==> (b <==> Trim(bio) != "")
    {
      match step
      case 0 => Trim(field) != ""
      case 1 => Trim(desiredRole) != ""
      case 2 => Trim(location) != ""
      case 3 => experience != ""
      case 4 => skills != []
      case 5 => Trim(bio) != ""
      case _ => false
    }

    /** The suggestions shown on the skills screen. */
    function ShownSuggestions(): (r: seq<string>)
      reads this
      ensures forall s :: s in r <==> s in SuggestedSkills && s !in skills
    {
      Suggestions(SuggestedSkills, skills)
    }
  }

  /** The second argument `finish` passes to `createCandidateProfile`: only the location,
      experience, skills and bio answers. */
  function FinishInput(data: Answers): (c: UsersApi.CandidateProfileInput)
    ensures c.location == OptTextAnswer(data, "location") && c.experience == OptTextAnswer(data, "experience")
    ensures c.skills == OptListAnswer(data, "skills") && c.bio == OptTextAnswer(data, "bio")
  {
    UsersApi.CandidateProfileInput(
      OptTextAnswer(data, "location"), OptTextAnswer(data, "experience"),
      OptListAnswer(data, "skills"), OptTextAnswer(data, "bio"))
  }

  // ---------------------------------------------------------------------------
  // Properties
  // ---------------------------------------------------------------------------

  /** Text that is blank only when trimmed is still text: an enabled Next never hands on
      an empty answer. Conversely an empty text screen can never advance. */
  lemma EmptyTextBlocksNext(f: CandidateScreen, step: int)
    requires step in {0, 1, 2, 5}
    requires f.StepValue(step) == Str("")
    ensures !f.NextEnabled(step)
  {
    assert Trim("") == "";
  }

  /** The answer a screen hands on is what the screen shows again when the wizard comes back
      to it: the screens' state is rebuilt from the merged answers. */
  lemma NextThenRemount(f: CandidateScreen, data: Answers, step: nat)
    requires step < 6
    ensures var d := Merge(data, f.NextPayload(step));
      && (step == 0 ==> TextAnswer(d, "field") == f.field)
      && (step == 1 ==> TextAnswer(d, "desiredRole") == f.desiredRole)
      && (step == 2 ==> TextAnswer(d, "location") == f.location)
      && (step == 3 ==> TextAnswer(d, "experience") == f.experience)
      && (step == 4 ==> ListAnswer(d, "skills") == f.skills)
      && (step == 5 ==> TextAnswer(d, "bio") == f.bio)
  {
    if step == 4 {
      ListAnswerOfMerge(data, "skills", f.skills);
    }
  }

  /** The answers after the location, experience, skills and bio screens handed theirs on. */
  function AnswersAfterScreens(f: CandidateScreen, data: Answers): Answers
    reads f
  {
    Merge(Merge(Merge(Merge(data, f.NextPayload(2)), f.NextPayload(3)), f.NextPayload(4)), f.NextPayload(5))
  }

  /** `finish` reads back the four answers the screens handed on. */
  lemma FinishInputOfScreens(f: CandidateScreen, data: Answers)
    ensures FinishInput(AnswersAfterScreens(f, data))
      == UsersApi.CandidateProfileInput(Some(f.location), Some(f.experience), Some(f.skills), Some(f.bio))
  {
    assert f.NextPayload(2) == Some(map["location" := Str(f.location)]);
    assert f.NextPayload(3) == Some(map["experience" := Str(f.experience)]);
    assert f.NextPayload(4) == Some(map["skills" := Arr(StrItems(f.skills))]);
    assert f.NextPayload(5) == Some(map["bio" := Str(f.bio)]);
    StoredAnswers(data, f.location, f.experience, f.skills, f.bio);
  }

  /** The answers once the four screens handed on the given values. */
  function Stored(data: Answers, location: string, experience: string, skills: seq<string>, bio: string): Answers {
    var d2 := Merge(data, Some(map["location" := Str(location)]));
    var d3 := Merge(d2, Some(map["experience" := Str(experience)]));
    var d4 := Merge(d3, Some(map["skills" := Arr(StrItems(skills))]));
    Merge(d4, Some(map["bio" := Str(bio)]))
  }

  /** Each value handed on is still there after the later screens. */
  lemma StoredAnswers(data: Answers, location: string, experience: string, skills: seq<string>, bio: string)
    ensures var d := Stored(data, location, experience, skills, bio);
      && "location" in d && d["location"] == Str(location)
      && "experience" in d && d["experience"] == Str(experience)
      && OptListAnswer(d, "skills") == Some(skills)
      && "bio" in d && d["bio"] == Str(bio)
  {
    var l, e, k, b := Str(location), Str(experience), Arr(StrItems(skills)), Str(bio);
    var d2 := Merge(data, Some(map["location" := l]));
    var d3 := Merge(d2, Some(map["experience" := e]));
    var d4 := Merge(d3, Some(map["skills" := k]));
    MergeOther(d2, "experience", e, "location");
    MergeOther(d3, "skills", k, "location");
    MergeOther(d3, "skills", k, "experience");
    MergeOther(d4, "bio", b, "location");
    MergeOther(d4, "bio", b, "experience");
    ListAnswerOfMerge(d3, "skills", skills);
    MergeOther(d4, "bio", b, "skills");
  }

  /** The profile `finish` creates after the location, experience, skills and bio screens
      handed on their answers carries exactly those answers; the field and desired role never
      reach the back end. */
  lemma FinishCarriesAnswers(f: CandidateScreen, data: Answers, cachedName: Option<string>)
    ensures
      var body := UsersApi.CandidatePayload(cachedName, FinishInput(AnswersAfterScreens(f, data)));
      && body["location"] == Str(f.location)
      && body["experience_years"] == OptStr(UsersApi.NormalizeExperience(Some(f.experience)))
      && body["skills"] == Arr(StrItems(f.skills))
      && body["summary"] == Str(f.bio)
      && "field" !in body && "desiredRole" !in body && "desired_role" !in body
  {
    FinishInputOfScreens(f, data);
    PayloadOfAnswers(cachedName, f.location, f.experience, f.skills, f.bio);
  }

  /** The profile body built from four present answers. */
  lemma PayloadOfAnswers(cachedName: Option<string>, location: string, experience: string, skills: seq<string>, bio: string)
    ensures
      var body := UsersApi.CandidatePayload(cachedName,
        UsersApi.CandidateProfileInput(Some(location), Some(experience), Some(skills), Some(bio)));
      && body["location"] == Str(location)
      && body["experience_years"] == OptStr(UsersApi.NormalizeExperience(Some(experience)))
      && body["skills"] == Arr(StrItems(skills))
      && body["summary"] == Str(bio)
      && "field" !in body && "desiredRole" !in body && "desired_role" !in body
  {
    var input := UsersApi.CandidateProfileInput(Some(location), Some(experience), Some(skills), Some(bio));
    PayloadLeavesOutRole(cachedName, input);
    assert OptList(input.skills) == Arr(StrItems(skills));
  }

  /** The field and the desired role are no keys of any profile body. */
  lemma PayloadLeavesOutRole(cachedName: Option<string>, input: UsersApi.CandidateProfileInput)
    ensures var body := UsersApi.CandidatePayload(cachedName, input);
      "field" !in body && "desiredRole" !in body && "desired_role" !in body
  {
    NoPayloadKey(cachedName, input, "field");
    NoPayloadKey(cachedName, input, "desiredRole");
    NoPayloadKey(cachedName, input, "desired_role");
  }

  /** A name whose length no key of the profile body has is none of its keys. */
  lemma NoPayloadKey(cachedName: Option<string>, input: UsersApi.CandidateProfileInput, k: string)
    requires |k| != 6 && |k| != 7 && |k| != 8 && |k| != 9 && |k| != 16
    ensures k !in UsersApi.CandidatePayload(cachedName, input)
  {
    var body := UsersApi.CandidatePayload(cachedName, input);
    assert body.Keys == {"full_name", "location", "experience_years", "skills", "summary"};
  }



  /** Every experience button normalises to the lower end of its range, so the
      `experience_years` the back end receives is that number of years. */
  lemma LevelsNormaliseToLowerBound(i: nat)
    requires i < |ExperienceLevels|
    ensures UsersApi.NormalizeExperience(Some(ExperienceLevels[i])) == Some(LevelYears[i])
  {
    if i < 6 {
      var n := [0, 1, 2, 3, 5, 7][i];
      var high := ["1", "2", "3", "5", "7", "10"][i];
      assert ExperienceLevels[i] == [('0' as int + n) as char] + "-" + high;
      assert LevelYears[i] == [('0' as int + n) as char];
      LevelNormalises(n, high);
    } else {
      TopLevelNormalises(ExperienceLevels[i], 10);
    }
  }

  lemma TopLevelNormalises(s: string, n: nat)
    requires s == ExperienceLevels[6] && n == 10
    ensures UsersApi.NormalizeExperience(Some(s)) == Some(LevelYears[6])
  {
    assert PyStr.NatToDecimal(n) == "10" by {
      assert n / 10 == 1 && n % 10 == 0;
    }
    UsersApi.NormalizeOpenRange(n);
    var d := PyStr.NatToDecimal(n);
    assert s == d + "+";
    assert LevelYears[6] == d;
  }

  lemma LevelNormalises(n: nat, high: string)
    requires n < 10
    ensures UsersApi.NormalizeExperience(Some([('0' as int + n) as char] + "-" + high)) == Some([('0' as int + n) as char])
  {
    UsersApi.NormalizeRange(n, high);
  }
}
