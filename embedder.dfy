/** logics/embedder.py: a parsed resume or job description is turned into one text before it
    is embedded. Any exception while converting gives the empty text. The sentence-embedding
    model is a parameter: whether it loaded, and the vector it gives a text. */
module Embedder {
  import opened Wrappers
  import opened PyStr
  import opened PyJson
  import TextUtils

  /** `", ".join(sorted(set(v)))` for an iterable of strings; anything else raises. */
  function SortedJoin(v: Json): (r: Result<string, PyError>)
    ensures r.Success? <==> Iterate(v).Success? && StrItems(Iterate(v).value).Success?
  {
    match Iterate(v)
    case Failure(e) => Failure(e)
    case Success(items) =>
      match StrItems(items)
      case Failure(e) => Failure(e)
      case Success(ss) => Success(Join(SortedSet(ss), ", "))
  }

  /** The sorted list does not depend on the order of the strings or on repeats. */
  lemma SortedJoinOrderFree(v: Json, w: Json)
    requires SortedJoin(v).Success? && SortedJoin(w).Success?
    requires forall x :: x in StrItems(Iterate(v).value).value <==> x in StrItems(Iterate(w).value).value
    ensures SortedJoin(v) == SortedJoin(w)
  {
    SortedSetDependsOnElementsOnly(StrItems(Iterate(v).value).value, StrItems(Iterate(w).value).value);
  }

  // ---------------------------------------------------------------------------
  // json_to_text_cv
  // ---------------------------------------------------------------------------

  /** `sep.join(e.get(key, []))`. */
  function JoinedList(pairs: seq<(string, Json)>, key: string, sep: string): (r: Result<string, PyError>)
    ensures key !in KeyList(pairs) ==> r == Success("")
  {
    match Iterate(Get(pairs, key, JList([])))
    case Failure(e) => Failure(e)
    case Success(items) => JoinItems(items, sep)
  }

  /** `f"{role} at {org} ({yrs} yrs) - {highlights}"` for one experience; an entry that is not
      a dictionary has no `get` and raises AttributeError. */
  function ExperienceText(e: Json, show: Json -> string): (r: Result<seq<string>, PyError>)
    ensures !e.JDict? ==> r == Failure(AttributeError)
    ensures r.Success? ==> |r.value| == 1
  {
    if !e.JDict? then Failure(AttributeError)
    else match JoinedList(e.pairs, "highlights", "; ")
      case Failure(err) => Failure(err)
      case Success(highlights) =>
        Success([Str(Get(e.pairs, "role", JStr("")), show) + " at " + Str(Get(e.pairs, "organization", JStr("")), show)
                 + " (" + Str(Get(e.pairs, "years", JInt(0)), show) + " yrs) - " + highlights])
  }

  /** An experience with none of its four keys, whatever other keys it has, renders with an
      empty role and organization, 0 years and no highlight. */
  lemma ExperienceDefaults(pairs: seq<(string, Json)>, show: Json -> string)
    requires forall k | k in ["role", "organization", "years", "highlights"] :: k !in KeyList(pairs)
    ensures ExperienceText(JDict(pairs), show) == Success([" at  (0 yrs) - "])
  {
    assert "highlights" !in KeyList(pairs);
    assert IntToDecimal(0) == "0";
    assert Str(Get(pairs, "role", JStr("")), show) == "" && Str(Get(pairs, "organization", JStr("")), show) == "";
    assert Str(Get(pairs, "years", JInt(0)), show) == "0";
    assert "" + " at " + "" + " (" + "0" + " yrs) - " + "" == " at  (0 yrs) - ";
  }

  /** `f"{p.get('role','')} - {'; '.join(p.get('highlights', []))}"` for one project. */
  function ProjectText(p: Json, show: Json -> string): (r: Result<seq<string>, PyError>)
    ensures !p.JDict? ==> r == Failure(AttributeError)
    ensures r.Success? ==> |r.value| == 1
  {
    if !p.JDict? then Failure(AttributeError)
    else match JoinedList(p.pairs, "highlights", "; ")
      case Failure(err) => Failure(err)
      case Success(highlights) => Success([Str(Get(p.pairs, "role", JStr("")), show) + " - " + highlights])
  }

  /** `f"{degree} at {school} ({year}) GPA {gpa}"` for one education entry. */
  function EducationText(edu: Json, show: Json -> string): (r: Result<seq<string>, PyError>)
    ensures !edu.JDict? ==> r == Failure(AttributeError)
    ensures r.Success? ==> |r.value| == 1
  {
    if !edu.JDict? then Failure(AttributeError)
    else Success([Str(Get(edu.pairs, "degree", JStr("")), show) + " at " + Str(Get(edu.pairs, "school", JStr("")), show)
                  + " (" + Str(Get(edu.pairs, "year", JStr("")), show) + ") GPA " + Str(Get(edu.pairs, "gpa", JStr("")), show)])
  }

  /** `f"{c.get('name','')} ({c.get('year','')})"` for one certification. */
  function CertificationText(c: Json, show: Json -> string): (r: Result<seq<string>, PyError>)
    ensures !c.JDict? ==> r == Failure(AttributeError)
    ensures r.Success? ==> |r.value| == 1
  {
    if !c.JDict? then Failure(AttributeError)
    else Success([Str(Get(c.pairs, "name", JStr("")), show) + " (" + Str(Get(c.pairs, "year", JStr("")), show) + ")"])
  }

  /** The six resume fields, their labels, and how their entries are joined. */
  const CvFields: seq<string> := ["summary", "skills", "experiences", "projects", "education", "certifications"]
  const CvLabels: seq<string> := ["Summary: ", "Skills: ", "Experience: ", "Projects: ", "Education: ", "Certifications: "]

  /** The renderer of the entries of list field `k` (2 to 5). */
  function EntryOf(k: nat, show: Json -> string): Json -> Result<seq<string>, PyError> {
    if k == 2 then e => ExperienceText(e, show)
    else if k == 3 then e => ProjectText(e, show)
    else if k == 4 then e => EducationText(e, show)
    else e => CertificationText(e, show)
  }

  /** The separator of the entries of list field `k`. */
  function EntrySep(k: nat): string {
    if k == 5 then ", " else " | "
  }

  /** The part of field `k`: nothing for a falsy field, else one line starting with the
      field's label. */
  function CvPart(data: seq<(string, Json)>, k: nat, show: Json -> string): (r: Result<seq<string>, PyError>)
    requires k < 6
    ensures !Truthy(Get(data, CvFields[k], JNull)) ==> r == Success([])
    ensures r.Success? && Truthy(Get(data, CvFields[k], JNull)) ==>
      |r.value| == 1 && |CvLabels[k]| <= |r.value[0]| && r.value[0][..|CvLabels[k]|] == CvLabels[k]
  {
    var v := Get(data, CvFields[k], JNull);
    if !Truthy(v) then Success([])
    else if k == 0 then Success([CvLabels[k] + Str(v, show)])
    else if k == 1 then
      match SortedJoin(v)
      case Failure(e) => Failure(e)
      case Success(s) => Success([CvLabels[k] + s])
    else
      match Iterate(v)
      case Failure(e) => Failure(e)
      case Success(items) =>
        match TextUtils.EntryLines(items, EntryOf(k, show))
        case Failure(e) => Failure(e)
        case Success(texts) => Success([CvLabels[k] + Join(texts, EntrySep(k))])
  }

  /** The six parts, in order. */
  function CvParts(data: seq<(string, Json)>, show: Json -> string): (r: seq<Result<seq<string>, PyError>>)
    ensures |r| == 6 && forall k | 0 <= k < 6 :: r[k] == CvPart(data, k, show)
  {
    seq(6, k requires 0 <= k < 6 => CvPart(data, k, show))
  }

  /** What `json_to_text_cv(data)` returns: the parts joined by newlines and stripped; the
      empty text when anything raises. */
  function CvText(data: seq<(string, Json)>, show: Json -> string): (r: string)
    ensures TextUtils.Collect(CvParts(data, show)).Failure? ==> r == ""
    ensures r == [] || (!IsSpace(r[0]) && !IsSpace(r[|r| - 1]))
  {
    match TextUtils.Collect(CvParts(data, show))
    case Failure(_) => ""
    case Success(lines) => Strip(Join(lines, "\n"))
  }

  /** The part of field `k`, with the loop over the entries of the list fields. */
  method CvSection(data: seq<(string, Json)>, k: nat, show: Json -> string) returns (r: Result<seq<string>, PyError>)
    requires k < 6
    ensures r == CvPart(data, k, show)
  {
    var v := Get(data, CvFields[k], JNull);
    if !Truthy(v) {
      return Success([]);
    }
    if k == 0 {
      return Success([CvLabels[k] + Str(v, show)]);
    }
    if k == 1 {
      var s := SortedJoin(v);
      if s.Failure? {
        return Failure(s.error);
      }
      return Success([CvLabels[k] + s.value]);
    }
    var items := Iterate(v);
    if items.Failure? {
      return Failure(items.error);
    }
    var texts := TextUtils.EntryLoop(items.value, EntryOf(k, show));
    if texts.Failure? {
      return Failure(texts.error);
    }
    return Success([CvLabels[k] + Join(texts.value, EntrySep(k))]);
  }

  /** `json_to_text_cv(data)`. */
  method JsonToTextCv(data: seq<(string, Json)>, show: Json -> string) returns (text: string)
    ensures text == CvText(data, show)
  {
    ghost var rs := CvParts(data, show);
    var parts: seq<string> := [];
    for k := 0 to 6
      invariant TextUtils.Collect(rs[..k]) == Success(parts)
    {
      assert rs[..k + 1][..k] == rs[..k];
      var part := CvSection(data, k, show);
      if part.Failure? {
        TextUtils.CollectFailed(rs, k + 1);
        return "";
      }
      parts := parts + part.value;
    }
    assert rs[..6] == rs;
    return Strip(Join(parts, "\n"));
  }

  /** Two resumes that differ only in the order or the repeats of their skills give the same
      text. */
  lemma CvSkillsOrderFree(a: seq<(string, Json)>, b: seq<(string, Json)>, show: Json -> string)
    requires forall k | 0 <= k < 6 && k != 1 :: Get(a, CvFields[k], JNull) == Get(b, CvFields[k], JNull)
    requires Truthy(Get(a, "skills", JNull)) == Truthy(Get(b, "skills", JNull))
    requires SortedJoin(Get(a, "skills", JNull)).Success? && SortedJoin(Get(b, "skills", JNull)).Success?
    requires forall x :: x in StrItems(Iterate(Get(a, "skills", JNull)).value).value
                     <==> x in StrItems(Iterate(Get(b, "skills", JNull)).value).value
    ensures CvText(a, show) == CvText(b, show)
  {
    SortedJoinOrderFree(Get(a, "skills", JNull), Get(b, "skills", JNull));
    forall k | 0 <= k < 6 ensures CvPart(a, k, show) == CvPart(b, k, show) {
      if k == 1 {
        SkillsPartOfSortedJoin(a, b, show);
      } else {
        CvPartOfField(a, b, k, show);
      }
    }
    assert CvParts(a, show) == CvParts(b, show);
  }

  /** A part depends on its field's value only. */
  lemma CvPartOfField(a: seq<(string, Json)>, b: seq<(string, Json)>, k: nat, show: Json -> string)
    requires k < 6 && Get(a, CvFields[k], JNull) == Get(b, CvFields[k], JNull)
    ensures CvPart(a, k, show) == CvPart(b, k, show)
  {
  }

  /** The skills part depends on whether the skills are truthy and on their sorted join. */
  lemma SkillsPartOfSortedJoin(a: seq<(string, Json)>, b: seq<(string, Json)>, show: Json -> string)
    requires Truthy(Get(a, "skills", JNull)) == Truthy(Get(b, "skills", JNull))
    requires SortedJoin(Get(a, "skills", JNull)) == SortedJoin(Get(b, "skills", JNull))
    ensures CvPart(a, 1, show) == CvPart(b, 1, show)
  {
    assert CvFields[1] == "skills";
  }

  /** A resume without any of the six fields gives the empty text. */
  lemma EmptyCvText(data: seq<(string, Json)>, show: Json -> string)
    requires forall k | 0 <= k < 6 :: !Truthy(Get(data, CvFields[k], JNull))
    ensures CvText(data, show) == ""
  {
    var parts: seq<seq<string>> := seq(6, k => []);
    TextUtils.CollectAll(CvParts(data, show), parts);
    TextUtils.ConcatEmpty(parts, 6);
    assert parts[..6] == parts;
  }

  /** A resume whose experiences list holds something that is not a dictionary gives the
      empty text. */
  lemma ExperienceNotDictEmptiesText(data: seq<(string, Json)>, show: Json -> string, items: seq<Json>, i: nat)
    requires Get(data, "experiences", JNull) == JList(items)
    requires i < |items| && !items[i].JDict?
    ensures CvText(data, show) == ""
  {
    var rs := seq(|items|, j requires 0 <= j < |items| => EntryOf(2, show)(items[j]));
    assert EntryOf(2, show)(items[i]) == ExperienceText(items[i], show);
    assert rs[i].Failure?;
    TextUtils.CollectFailsOnFailedPart(rs, i);
    ExperiencePartFails(data, show, items);
    TextUtils.CollectFailsOnFailedPart(CvParts(data, show), 2);
  }

  /** The experience part fails when the lines of its entries do. */
  lemma ExperiencePartFails(data: seq<(string, Json)>, show: Json -> string, items: seq<Json>)
    requires Get(data, "experiences", JNull) == JList(items)
    requires TextUtils.Collect(seq(|items|, j requires 0 <= j < |items| => EntryOf(2, show)(items[j]))).Failure?
    ensures CvPart(data, 2, show).Failure?
  {
    assert CvFields[2] == "experiences";
    assert items != [];
  }

  // ---------------------------------------------------------------------------
  // json_to_text_jd
  // ---------------------------------------------------------------------------

  /** The seven job fields and their labels; the requirements, the tech stack and the
      nice-to-haves are sorted lists. */
  const JdFields: seq<string> := ["title", "summary", "requirements", "experience_level", "years_of_experience", "tech_stack", "nice_to_have"]
  const JdLabels: seq<string> := ["Job Title: ", "Summary: ", "Requirements: ", "Experience Level: ", "Years of Experience: ", "Tech Stack: ", "Nice to have: "]

  predicate IsListField(k: nat) { k == 2 || k == 5 || k == 6 }

  /** The part of job field `k`: nothing for a falsy field, else one line starting with the
      field's label. */
  function JdPart(data: seq<(string, Json)>, k: nat, show: Json -> string): (r: Result<seq<string>, PyError>)
    requires k < 7
    ensures !Truthy(Get(data, JdFields[k], JNull)) ==> r == Success([])
    ensures r.Success? && Truthy(Get(data, JdFields[k], JNull)) ==>
      |r.value| == 1 && |JdLabels[k]| <= |r.value[0]| && r.value[0][..|JdLabels[k]|] == JdLabels[k]
  {
    var v := Get(data, JdFields[k], JNull);
    if !Truthy(v) then Success([])
    else if IsListField(k) then
      match SortedJoin(v)
      case Failure(e) => Failure(e)
      case Success(s) => Success([JdLabels[k] + s])
    else Success([JdLabels[k] + Str(v, show)])
  }

  /** What `json_to_text_jd(data)` returns: the parts joined by newlines and stripped; the
      empty text when a list field is not a list of strings. */
  function JdText(data: seq<(string, Json)>, show: Json -> string): (r: string)
    ensures r == [] || (!IsSpace(r[0]) && !IsSpace(r[|r| - 1]))
  {
    match TextUtils.Collect(seq(7, k requires 0 <= k < 7 => JdPart(data, k, show)))
    case Failure(_) => ""
    case Success(lines) => Strip(Join(lines, "\n"))
  }

  /** A job description fails to convert exactly when one of its truthy list fields is not
      an iterable of strings. */
  lemma JdTextFails(data: seq<(string, Json)>, show: Json -> string)
    ensures TextUtils.Collect(seq(7, k requires 0 <= k < 7 => JdPart(data, k, show))).Failure? <==>
      exists k | 0 <= k < 7 :: IsListField(k) && Truthy(Get(data, JdFields[k], JNull))
                               && SortedJoin(Get(data, JdFields[k], JNull)).Failure?
  {
    var rs := seq(7, k requires 0 <= k < 7 => JdPart(data, k, show));
    if TextUtils.Collect(rs).Success? {
      TextUtils.CollectSucceeded(rs);
      forall k | 0 <= k < 7 && IsListField(k) && Truthy(Get(data, JdFields[k], JNull))
        ensures SortedJoin(Get(data, JdFields[k], JNull)).Success?
      {
        assert rs[k].Success?;
      }
    } else {
      CollectFailureHasCause(rs);
      var k :| 0 <= k < 7 && rs[k].Failure?;
      assert rs[k] == JdPart(data, k, show);
    }
  }

  /** A failed collection has a failed part. */
  lemma {:induction false} CollectFailureHasCause(rs: seq<Result<seq<string>, PyError>>)
    requires TextUtils.Collect(rs).Failure?
    ensures exists k | 0 <= k < |rs| :: rs[k].Failure?
  {
    var init := rs[..|rs| - 1];
    if TextUtils.Collect(init).Failure? {
      CollectFailureHasCause(init);
      var k :| 0 <= k < |init| && init[k].Failure?;
      assert rs[k] == init[k];
    } else {
      assert rs[|rs| - 1].Failure?;
    }
  }

  // ---------------------------------------------------------------------------
  // json_to_text_auto and embed_json
  // ---------------------------------------------------------------------------

  /** `json_to_text_auto(data)`: a resume when it has a skills, education or experiences key
      (even an empty one), else a job description when it has a requirements, tech_stack or
      experience_level key, else `str(data)`. */
  function AutoText(data: seq<(string, Json)>, show: Json -> string): (r: string)
    ensures ("skills" in KeyList(data) || "education" in KeyList(data) || "experiences" in KeyList(data)) ==> r == CvText(data, show)
    ensures !("skills" in KeyList(data) || "education" in KeyList(data) || "experiences" in KeyList(data))
            && ("requirements" in KeyList(data) || "tech_stack" in KeyList(data) || "experience_level" in KeyList(data))
            ==> r == JdText(data, show)
  {
    var keys := KeyList(data);
    if "skills" in keys || "education" in keys || "experiences" in keys then CvText(data, show)
    else if "requirements" in keys || "tech_stack" in keys || "experience_level" in keys then JdText(data, show)
    else show(JDict(data))
  }

  /** A dictionary holding only an empty skills list is read as a resume, so it converts to
      the empty text rather than to its printed form. */
  lemma EmptySkillsIsResume(data: seq<(string, Json)>, show: Json -> string)
    requires data == [("skills", JList([]))]
    ensures AutoText(data, show) == ""
  {
    assert KeyList(data) == ["skills"];
    forall k | 0 <= k < 6 ensures !Truthy(Get(data, CvFields[k], JNull)) {
      if k != 1 { assert CvFields[k] !in KeyList(data); }
      else { assert Lookup(data, "skills") == Some(JList([])); }
    }
    EmptyCvText(data, show);
  }

  /** `embed_json(data)`: the text and its vector, or an empty text and an empty vector when
      the text is blank or the model did not load. */
  function EmbedJson(data: seq<(string, Json)>, show: Json -> string, modelLoaded: bool, encode: string -> seq<real>): (r: (string, seq<real>))
    ensures r.0 != "" ==> r.0 == AutoText(data, show) && r.1 == encode(r.0) && Strip(r.0) != "" && modelLoaded
    ensures Strip(AutoText(data, show)) == "" || !modelLoaded ==> r == ("", [])
  {
    var text := AutoText(data, show);
    if Strip(text) == "" || !modelLoaded then ("", []) else (text, encode(text))
  }
}
