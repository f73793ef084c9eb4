/** `CVRepository`: the `candidate_resumes` collection, keyed by `cv_id`. */
module CvRepository {
  import opened Wrappers
  import opened PyJson
  import opened Documents

  const IdKey := "cv_id"

  /** The stored `CandidateResume` as `create` builds it. */
  function CvDoc(cvId: int, userId: int, title: string, location: Option<string>, experienceYears: int,
                 skills: seq<string>, summary: Option<string>, fullText: Option<string>, pdfUrl: Option<string>,
                 isMain: bool): Doc
  {
    map[IdKey := JInt(cvId), "user_id" := JInt(userId), "title" := JStr(title), "location" := OptStr(location),
        "experience_years" := JInt(experienceYears), "skills" := Strs(skills), "summary" := OptStr(summary),
        "full_text" := OptStr(fullText), "pdf_url" := OptStr(pdfUrl), "is_main" := JBool(isMain)]
  }

  /** `create(...)`: one new CV under the next id, found by that id afterwards; the other
      CVs, their `is_main` flags included, are left as they were. */
  method Create(cvs: Collection, userId: int, title: string, location: Option<string>, experienceYears: int,
                skills: seq<string>, summary: Option<string>, fullText: Option<string>, pdfUrl: Option<string>,
                isMain: bool)
    returns (cv: Doc)
    modifies cvs
    ensures cv == CvDoc(NextId(old(cvs.docs), IdKey), userId, title, location, experienceYears, skills, summary,
                        fullText, pdfUrl, isMain)
    ensures cvs.docs == old(cvs.docs) + [cv]
    ensures FindOne(cvs.docs, By(IdKey, cv[IdKey])) == Some(cv)
    ensures Unique(old(cvs.docs), IdKey) ==> Unique(cvs.docs, IdKey)
  {
    cv := CvDoc(NextId(cvs.docs, IdKey), userId, title, location, experienceYears, skills, summary, fullText,
                pdfUrl, isMain);
    InsertWithNextId(cvs.docs, IdKey, cv);
    cvs.Insert(cv);
  }

  /** The query of `get_main_by_user_id`. */
  function MainOf(userId: int): Query {
    map["user_id" := JInt(userId), "is_main" := JBool(true)]
  }

  /** `get_main_by_user_id(user_id)`: a CV of that user flagged main, None when there is
      none. */
  function GetMainByUserId(docs: seq<Doc>, userId: int): (r: Option<Doc>)
    ensures r.Some? <==> exists j | 0 <= j < |docs| ::
      "user_id" in docs[j] && docs[j]["user_id"] == JInt(userId) && "is_main" in docs[j] && docs[j]["is_main"] == JBool(true)
    ensures r.Some? ==> (r.value in docs && "user_id" in r.value && r.value["user_id"] == JInt(userId)
      && "is_main" in r.value && r.value["is_main"] == JBool(true))
  {
    var q := MainOf(userId);
    assert forall d: Doc :: Matches(d, q) <==> "user_id" in d && d["user_id"] == JInt(userId) && "is_main" in d && d["is_main"] == JBool(true);
    FindOne(docs, q)
  }

  /** Creating never clears a main flag: after two main CVs are created for a user, both are
      listed as main, besides any that were already. */
  lemma TwoMainCvs(docs: seq<Doc>, userId: int, a: Doc, b: Doc)
    requires Matches(a, MainOf(userId)) && Matches(b, MainOf(userId))
    ensures FindAll(docs + [a] + [b], MainOf(userId)) == FindAll(docs, MainOf(userId)) + [a, b]
    ensures |FindAll(docs + [a] + [b], MainOf(userId))| >= 2
  {
    InsertedIsListed(docs, MainOf(userId), a);
    InsertedIsListed(docs + [a], MainOf(userId), b);
  }
}
