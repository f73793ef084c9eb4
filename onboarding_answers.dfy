/** The answers the onboarding wizard accumulates (the `OnboardingData` object of
    app/client/src/components/OnBoardingPage.tsx) and the ways the screens read them. */
module OnboardingAnswers {
  import opened Wrappers
  import opened JsText

  /** The answers object: answer name to the value stored under it. */
  type Answers = map<string, JsValue>

  /** `stepData ? { ...data, ...stepData } : data`: the step's keys overwrite, the others stay. */
  function Merge(data: Answers, stepData: Option<Answers>): (r: Answers)
    ensures stepData.None? ==> r == data
    ensures stepData.Some? ==> r.Keys == data.Keys + stepData.value.Keys
    ensures stepData.Some? ==> forall k | k in stepData.value :: r[k] == stepData.value[k]
    ensures forall k | k in data && (stepData.None? || k !in stepData.value) :: k in r && r[k] == data[k]
  {
    if stepData.None? then data else data + stepData.value
  }

  /** The strings of an array whose items are all strings. */
  function StrList(items: seq<JsValue>): (r: Option<seq<string>>)
    ensures r.Some? ==> |r.value| == |items| && forall i | 0 <= i < |items| :: items[i] == Str(r.value[i])
    ensures r.None? ==> exists i | 0 <= i < |items| :: !items[i].Str?
  {
    if items == [] then Some([])
    else if !items[0].Str? then None
    else
      match StrList(items[1..])
      case None => None
      case Some(rest) => Some([items[0].s] + rest)
  }

  /** A list stored as an array of strings reads back as that list. */
  lemma {:induction false} StrListOfStrItems(xs: seq<string>)
    ensures StrList(StrItems(xs)) == Some(xs)
  {
    if xs != [] {
      StrListOfStrItems(xs[1..]);
      assert StrItems(xs)[1..] == StrItems(xs[1..]);
      assert [xs[0]] + xs[1..] == xs;
    }
  }

  /** `data[k] || ''` for a text answer. */
  function TextAnswer(data: Answers, k: string): string {
    if k in data && data[k].Str? then data[k].s else ""
  }

  /** `data[k] || []` for a list answer. */
  function ListAnswer(data: Answers, k: string): seq<string> {
    if k in data && data[k].Arr? && StrList(data[k].items).Some? then StrList(data[k].items).value else []
  }

  /** `data[k] ?? null` for a text answer, `None` standing for `null`. */
  function OptTextAnswer(data: Answers, k: string): Option<string> {
    if k in data && data[k].Str? then Some(data[k].s) else None
  }

  /** `data[k] ?? null` for a list answer. */
  function OptListAnswer(data: Answers, k: string): Option<seq<string>> {
    if k in data && data[k].Arr? && StrList(data[k].items).Some? then Some(StrList(data[k].items).value) else None
  }

  /** A text answer handed on as `{ k: text }` is read back as that text, whatever was stored
      before, and the other answers read as before. */
  lemma TextAnswerOfMerge(data: Answers, k: string, text: string, other: string)
    requires other != k
    ensures TextAnswer(Merge(data, Some(map[k := Str(text)])), k) == text
    ensures OptTextAnswer(Merge(data, Some(map[k := Str(text)])), k) == Some(text)
    ensures TextAnswer(Merge(data, Some(map[k := Str(text)])), other) == TextAnswer(data, other)
  {
  }

  /** A list answer handed on as `{ k: list }` is read back as that list. */
  lemma ListAnswerOfMerge(data: Answers, k: string, xs: seq<string>)
    ensures ListAnswer(Merge(data, Some(map[k := Arr(StrItems(xs))])), k) == xs
    ensures OptListAnswer(Merge(data, Some(map[k := Arr(StrItems(xs))])), k) == Some(xs)
  {
    StrListOfStrItems(xs);
  }

  /** Merging a one-answer step leaves every other answer as it was. */
  lemma MergeOther(data: Answers, k: string, v: JsValue, other: string)
    requires other != k && other in data
    ensures other in Merge(data, Some(map[k := v])) && Merge(data, Some(map[k := v]))[other] == data[other]
  {
  }
}
