/** The recruiter screens of the onboarding wizard
    (app/client/src/components/onboardingComponents/RecruiterFlow.tsx): the local state each
    screen edits, the industry list edits, the logo upload, when Next is enabled, what Next
    hands on and what the completion screen sends. */
module RecruiterFlow {
  import opened Wrappers
  import opened JsText
  import opened ListSet
  import opened OnboardingAnswers
  import UsersApi

  /** The industries offered as one-click suggestions, in display order. */
  const SuggestedIndustries: seq<string> := [
    "Technology", "Finance", "Healthcare", "Education", "E-commerce",
    "Marketing", "Consulting", "Manufacturing", "Retail", "Media"]

  /** The answer each data screen (0 to 4) hands on. */
  const AnswerKeys: seq<string> := ["companyName", "title", "companyLogo", "companyDescription", "hiringIndustry"]

  class RecruiterScreen {
    var companyName: string
    var title: string
    var companyLogo: string
    var companyDescription: string
    var hiringIndustry: seq<string>
    var industryInput: string

    /** The local state starts from the accumulated answers, `''` or `[]` where absent. */
    constructor (data: Answers)
      ensures companyName == TextAnswer(data, "companyName") && title == TextAnswer(data, "title")
      ensures companyLogo == TextAnswer(data, "companyLogo")
      ensures companyDescription == TextAnswer(data, "companyDescription")
      ensures hiringIndustry == ListAnswer(data, "hiringIndustry") && industryInput == ""
    {
      companyName := TextAnswer(data, "companyName");
      title := TextAnswer(data, "title");
      companyLogo := TextAnswer(data, "companyLogo");
      companyDescription := TextAnswer(data, "companyDescription");
      hiringIndustry := ListAnswer(data, "hiringIndustry");
      industryInput := "";
    }

    /** `handleAddIndustry`: a non-empty industry not yet chosen is appended and the input
        cleared; anything else leaves the list and the input as they are. */
    method HandleAddIndustry(industry: string)
      modifies this
      ensures hiringIndustry == AddIfNew(old(hiringIndustry), industry)
      ensures industryInput == if industry != "" && industry !in old(hiringIndustry) then "" else old(industryInput)
      ensures companyName == old(companyName) && title == old(title) && companyLogo == old(companyLogo)
      ensures companyDescription == old(companyDescription)
    {
      if industry != "" && industry !in hiringIndustry {
        hiringIndustry := hiringIndustry + [industry];
        industryInput := "";
      }
    }

    /** `handleRemoveIndustry`: every occurrence goes, the rest keep their order. */
    method HandleRemoveIndustry(industry: string)
      modifies this
      ensures hiringIndustry == RemoveAll(old(hiringIndustry), industry)
      ensures industryInput == old(industryInput)
      ensures companyName == old(companyName) && title == old(title) && companyLogo == old(companyLogo)
      ensures companyDescription == old(companyDescription)
    {
      hiringIndustry := RemoveAll(hiringIndustry, industry);
    }

    /** `handleKeyPress`: Enter adds the typed industry; other keys change nothing. */
    method HandleKeyPress(key: string)
      modifies this
      ensures key == "Enter" ==> hiringIndustry == AddIfNew(old(hiringIndustry), old(industryInput))
      ensures key == "Enter" && old(industryInput) != "" && old(industryInput) !in old(hiringIndustry)
        ==> industryInput == ""
      ensures key != "Enter" || old(industryInput) == "" || old(industryInput) in old(hiringIndustry)
        ==> industryInput == old(industryInput)
      ensures key != "Enter" ==> hiringIndustry == old(hiringIndustry)
      ensures companyName == old(companyName) && title == old(title) && companyLogo == old(companyLogo)
      ensures companyDescription == old(companyDescription)
    {
      if key == "Enter" {
        HandleAddIndustry(industryInput);
      }
    }

    /** `handleFileUpload`: the data URL the file reader produces for the chosen file becomes
        the logo; with no file chosen nothing changes. */
    method HandleFileUpload(dataUrl: Option<string>)
      modifies this
      ensures companyLogo == if dataUrl.Some? then dataUrl.value else old(companyLogo)
      ensures companyName == old(companyName) && title == old(title)
      ensures companyDescription == old(companyDescription)
      ensures hiringIndustry == old(hiringIndustry) && industryInput == old(industryInput)
    {
      if dataUrl.Some? {
        companyLogo := dataUrl.value;
      }
    }

    /** The value screen `step` hands on. */
    function StepValue(step: nat): JsValue
      requires step < 5
      reads this
    {
      match step
      case 0 => Str(companyName)
      case 1 => Str(title)
      case 2 => Str(companyLogo)
      case 3 => Str(companyDescription)
      case 4 => Arr(StrItems(hiringIndustry))
    }

    /** What the Next button of screen `step` hands to `onNext`; `None` on the completion
        screen and past it. */
    function NextPayload(step: int): (p: Option<Answers>)
      reads this
      ensures p.Some? <==> 0 <= step < 5
      ensures p.Some? ==> p.value.Keys == {AnswerKeys[step]} && p.value[AnswerKeys[step]] == StepValue(step)
    {
      if 0 <= step < 5 then Some(map[AnswerKeys[step] := StepValue(step)]) else None
    }

    /** Whether the Next button of screen `step` is enabled: the logo screen's always is. */
    function NextEnabled(step: int): (b: bool)
      reads this
      ensures b ==> NextPayload(step).Some?
      ensures step == 0 ==> (b <==> Trim(companyName) != "")
      ensures step == 1 ==> (b <==> Trim(title) != "")
      ensures step == 2 ==> b
      ensures step == 3 ==> (b <==> Trim(companyDescription) != "")
      ensures step == 4 ==> (b <==> hiringIndustry != [])
    {
      match step
      case 0 => Trim(companyName) != ""
      case 1 => Trim(title) != ""
      case 2 => true
      case 3 => Trim(companyDescription) != ""
      case 4 => hiringIndustry != []
      case _ => false
    }

    /** The label of the logo screen's button. */
    function LogoButtonLabel(): (l: string)
      reads this
      ensures l == "Skip" <==> companyLogo == ""
      ensures l == "Next" <==> companyLogo != ""
    {
      if companyLogo != "" then "Next" else "Skip"
    }

    /** The suggestions shown on the industry screen. */
    function ShownSuggestions(): (r: seq<string>)
      reads this
      ensures forall s :: s in r <==> s in SuggestedIndustries && s !in hiringIndustry
    {
      Suggestions(SuggestedIndustries, hiringIndustry)
    }
  }

  /** The second argument `finish` passes to `createRecruiterProfile`: the five answers, each
      `null` when absent. */
  function FinishInput(data: Answers): (r: UsersApi.RecruiterProfileInput)
    ensures r.companyName == OptTextAnswer(data, "companyName") && r.title == OptTextAnswer(data, "title")
    ensures r.companyLogo == OptTextAnswer(data, "companyLogo")
    ensures r.companyDescription == OptTextAnswer(data, "companyDescription")
    ensures r.hiringIndustry == OptListAnswer(data, "hiringIndustry")
  {
    UsersApi.RecruiterProfileInput(
      OptTextAnswer(data, "companyName"), OptTextAnswer(data, "title"), OptTextAnswer(data, "companyLogo"),
      OptTextAnswer(data, "companyDescription"), OptListAnswer(data, "hiringIndustry"))
  }

  // ---------------------------------------------------------------------------
  // Properties
  // ---------------------------------------------------------------------------

  /** The answers after the five data screens handed theirs on. */
  function AnswersAfterScreens(f: RecruiterScreen, data: Answers): Answers
    reads f
  {
    Merge(Merge(Merge(Merge(Merge(data, f.NextPayload(0)), f.NextPayload(1)), f.NextPayload(2)),
      f.NextPayload(3)), f.NextPayload(4))
  }

  /** The answer a screen hands on is what the screen shows again when the wizard comes back
      to it. */
  lemma NextThenRemount(f: RecruiterScreen, data: Answers, step: nat)
    requires step < 5
    ensures var d := Merge(data, f.NextPayload(step));
      && (step == 0 ==> TextAnswer(d, "companyName") == f.companyName)
      && (step == 1 ==> TextAnswer(d, "title") == f.title)
      && (step == 2 ==> TextAnswer(d, "companyLogo") == f.companyLogo)
      && (step == 3 ==> TextAnswer(d, "companyDescription") == f.companyDescription)
      && (step == 4 ==> ListAnswer(d, "hiringIndustry") == f.hiringIndustry)
  {
    if step == 4 {
      ListAnswerOfMerge(data, "hiringIndustry", f.hiringIndustry);
    }
  }

  /** `finish` reads back the five answers the screens handed on. */
  lemma FinishInputOfScreens(f: RecruiterScreen, data: Answers)
    ensures FinishInput(AnswersAfterScreens(f, data)) == UsersApi.RecruiterProfileInput(
      Some(f.companyName), Some(f.title), Some(f.companyLogo), Some(f.companyDescription), Some(f.hiringIndustry))
  {
    ScreensStore(f, data);
  }

  /** After the five screens the answers hold what each screen handed on. */
  lemma ScreensStore(f: RecruiterScreen, data: Answers)
    ensures var d := AnswersAfterScreens(f, data);
      && "companyName" in d && d["companyName"] == Str(f.companyName)
      && "title" in d && d["title"] == Str(f.title)
      && "companyLogo" in d && d["companyLogo"] == Str(f.companyLogo)
      && "companyDescription" in d && d["companyDescription"] == Str(f.companyDescription)
      && OptListAnswer(d, "hiringIndustry") == Some(f.hiringIndustry)
  {
    ScreenPayloads(f);
    StoredAnswers(data, f.companyName, f.title, f.companyLogo, f.companyDescription, f.hiringIndustry);
  }

  /** The answers once the five screens handed on the given values. */
  function Stored(data: Answers, name: string, title: string, logo: string, about: string, fields: seq<string>): Answers {
    var d0 := Merge(data, Some(map["companyName" := Str(name)]));
    var d1 := Merge(d0, Some(map["title" := Str(title)]));
    var d2 := Merge(d1, Some(map["companyLogo" := Str(logo)]));
    var d3 := Merge(d2, Some(map["companyDescription" := Str(about)]));
    Merge(d3, Some(map["hiringIndustry" := Arr(StrItems(fields))]))
  }

  /** Each value handed on is still there after the later screens. */
  lemma StoredAnswers(data: Answers, name: string, title: string, logo: string, about: string, fields: seq<string>)
    ensures var d := Stored(data, name, title, logo, about, fields);
      && "companyName" in d && d["companyName"] == Str(name)
      && "title" in d && d["title"] == Str(title)
      && "companyLogo" in d && d["companyLogo"] == Str(logo)
      && "companyDescription" in d && d["companyDescription"] == Str(about)
      && OptListAnswer(d, "hiringIndustry") == Some(fields)
  {
    var n, t, l, c, h := Str(name), Str(title), Str(logo), Str(about), Arr(StrItems(fields));
    var d0 := Merge(data, Some(map["companyName" := n]));
    var d1 := Merge(d0, Some(map["title" := t]));
    var d2 := Merge(d1, Some(map["companyLogo" := l]));
    var d3 := Merge(d2, Some(map["companyDescription" := c]));
    MergeOther(d0, "title", t, "companyName");
    MergeOther(d1, "companyLogo", l, "companyName");
    MergeOther(d1, "companyLogo", l, "title");
    MergeOther(d2, "companyDescription", c, "companyName");
    MergeOther(d2, "companyDescription", c, "title");
    MergeOther(d2, "companyDescription", c, "companyLogo");
    MergeOther(d3, "hiringIndustry", h, "companyName");
    MergeOther(d3, "hiringIndustry", h, "title");
    MergeOther(d3, "hiringIndustry", h, "companyLogo");
    MergeOther(d3, "hiringIndustry", h, "companyDescription");
    ListAnswerOfMerge(d3, "hiringIndustry", fields);
  }

  /** What each data screen hands on, spelled out. */
  lemma ScreenPayloads(f: RecruiterScreen)
    ensures f.NextPayload(0) == Some(map["companyName" := Str(f.companyName)])
    ensures f.NextPayload(1) == Some(map["title" := Str(f.title)])
    ensures f.NextPayload(2) == Some(map["companyLogo" := Str(f.companyLogo)])
    ensures f.NextPayload(3) == Some(map["companyDescription" := Str(f.companyDescription)])
    ensures f.NextPayload(4) == Some(map["hiringIndustry" := Arr(StrItems(f.hiringIndustry))])
  {
  }

  /** The profile `finish` creates carries the five answers the screens handed on. A skipped
      logo is sent as the empty string, not as `null`: the screen hands on `''`, which `??`
      keeps. */
  lemma FinishCarriesAnswers(f: RecruiterScreen, data: Answers)
    ensures
      var body := UsersApi.RecruiterPayload(FinishInput(AnswersAfterScreens(f, data)));
      && body["company_name"] == Str(f.companyName) && body["recruiter_title"] == Str(f.title)
      && body["company_logo"] == Str(f.companyLogo) && body["about_company"] == Str(f.companyDescription)
      && body["hiring_fields"] == Arr(StrItems(f.hiringIndustry))
  {
    FinishInputOfScreens(f, data);
  }

  /** Whatever was stored before, a recruiter who skipped the logo screen sends an empty logo. */
  lemma SkippedLogoIsEmptyText(f: RecruiterScreen, data: Answers)
    requires f.LogoButtonLabel() == "Skip"
    ensures UsersApi.RecruiterPayload(FinishInput(AnswersAfterScreens(f, data)))["company_logo"] == Str("")
  {
    FinishCarriesAnswers(f, data);
  }
}
