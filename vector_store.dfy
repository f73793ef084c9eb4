/** The vector-store side of the pipeline: db/cv_storage.py, db/job_storage.py and the helper
    methods of `ChromaDBManager` in db/chromaDB.py, which repeat one another. The collection
    itself (its embeddings, `query`, `add`, `get`, `delete`) is outside the model: a query's
    answer, the uuid's hex digits, the clock's ISO time and whether `add` succeeds are
    parameters. */
module VectorStore {
  import opened Wrappers
  import opened PyStr
  import opened PyJson
  import Scoring
  import TextUtils
  import PyRound

  // ---------------------------------------------------------------------------
  // search_similar_cvs / search_similar_jobs: the threshold filter
  // ---------------------------------------------------------------------------

  /** What a collection's `query` answers for one query text: one list per query text of
      ids, distances, metadata and documents. An absent (`None`) metadata or document list
      is written as an empty one, which Python treats alike. */
  datatype QueryResult = QueryResult(ids: seq<seq<string>>, distances: seq<seq<real>>,
                                     metadatas: seq<seq<Json>>, documents: seq<seq<string>>)

  /** One entry of the search result. */
  datatype Hit = Hit(id: string, similarity: real, metadata: Json, document: string)

  /** How many `(id, distance)` pairs `zip` yields. */
  function PairCount(q: QueryResult): nat
    requires q.ids != [] && q.distances != []
  {
    if |q.ids[0]| <= |q.distances[0]| then |q.ids[0]| else |q.distances[0]|
  }

  /** The similarity of pair `i`: one minus its distance. */
  function Similarity(q: QueryResult, i: nat): real
    requires q.ids != [] && q.distances != [] && i < PairCount(q)
  {
    1.0 - q.distances[0][i]
  }

  /** Reading the metadata or the document of pair `i` raises IndexError: the list is
      present but too short. */
  predicate IndexFails(q: QueryResult, i: nat) {
    (q.metadatas != [] && i >= |q.metadatas[0]|) || (q.documents != [] && i >= |q.documents[0]|)
  }

  /** The hit built from pair `i`: `{}` when there is no metadata list, `""` when there is
      no document list. */
  function HitAt(q: QueryResult, i: nat): Hit
    requires q.ids != [] && q.distances != [] && i < PairCount(q) && !IndexFails(q, i)
  {
    Hit(q.ids[0][i], Similarity(q, i),
        if q.metadatas != [] then q.metadatas[0][i] else JDict([]),
        if q.documents != [] then q.documents[0][i] else "")
  }

  /** The loop over the first `n` pairs: a hit is kept when its similarity reaches the
      threshold; None when building a kept hit raises. */
  function Hits(q: QueryResult, threshold: real, n: nat): Option<seq<Hit>>
    requires q.ids != [] && q.distances != [] && n <= PairCount(q)
  {
    if n == 0 then Some([])
    else match Hits(q, threshold, n - 1)
      case None => None
      case Some(hs) =>
        if Similarity(q, n - 1) < threshold then Some(hs)
        else if IndexFails(q, n - 1) then None
        else Some(hs + [HitAt(q, n - 1)])
  }

  /** The pairs among the first `n` whose similarity reaches the threshold, in order. */
  function Kept(q: QueryResult, threshold: real, n: nat): seq<nat>
    requires q.ids != [] && q.distances != [] && n <= PairCount(q)
  {
    if n == 0 then []
    else Kept(q, threshold, n - 1) + (if Similarity(q, n - 1) >= threshold then [n - 1] else [])
  }

  /** What `search_similar_cvs(query, n_results, similarity_threshold)` (and the job search,
      and both searches of `ChromaDBManager`) returns for the collection's answer `answer`
      (None when the query itself raises): nothing when there is no id, and nothing when
      any exception is raised on the way. */
  function SimilarHits(answer: Option<QueryResult>, threshold: real): (r: seq<Hit>)
    ensures answer.None? ==> r == []
  {
    if answer.None? then []
    else
      var q := answer.value;
      if q.ids == [] || q.ids[0] == [] || q.distances == [] then []
      else match Hits(q, threshold, PairCount(q))
        case None => []
        case Some(hs) => hs
  }

  /** The kept pairs are exactly those below `n` whose similarity reaches the threshold, in
      increasing order. */
  lemma {:induction false} KeptExactly(q: QueryResult, threshold: real, n: nat)
    requires q.ids != [] && q.distances != [] && n <= PairCount(q)
    ensures forall i: nat :: i in Kept(q, threshold, n) <==> i < n && Similarity(q, i) >= threshold
    ensures forall a, b | 0 <= a < b < |Kept(q, threshold, n)| :: Kept(q, threshold, n)[a] < Kept(q, threshold, n)[b]
  {
    if n > 0 {
      KeptExactly(q, threshold, n - 1);
      var ks := Kept(q, threshold, n - 1);
      if Similarity(q, n - 1) >= threshold {
        assert Kept(q, threshold, n) == ks + [n - 1];
        assert forall i | 0 <= i < |ks| :: ks[i] < n - 1 by {
          forall i | 0 <= i < |ks| ensures ks[i] < n - 1 { assert ks[i] in ks; }
        }
      } else {
        assert Kept(q, threshold, n) == ks;
      }
    }
  }

  /** The loop raises exactly when some kept pair's metadata or document is out of
      range. */
  lemma {:induction false} HitsFail(q: QueryResult, threshold: real, n: nat)
    requires q.ids != [] && q.distances != [] && n <= PairCount(q)
    ensures Hits(q, threshold, n).None? <==> exists i | 0 <= i < |Kept(q, threshold, n)| :: IndexFails(q, Kept(q, threshold, n)[i])
  {
    if n > 0 {
      HitsFail(q, threshold, n - 1);
      var ks := Kept(q, threshold, n - 1);
      if Similarity(q, n - 1) >= threshold {
        var ks' := ks + [n - 1];
        assert Kept(q, threshold, n) == ks';
        assert forall i | 0 <= i < |ks| :: ks'[i] == ks[i];
        if Hits(q, threshold, n - 1).None? {
          var i :| 0 <= i < |ks| && IndexFails(q, ks[i]);
          assert IndexFails(q, ks'[i]);
        } else if IndexFails(q, n - 1) {
          assert IndexFails(q, ks'[|ks|]);
        }
      } else {
        assert Kept(q, threshold, n) == ks;
      }
    }
  }

  /** When no exception is raised, the hits are the kept pairs, one for one and in order,
      each with its id, its similarity, its metadata (or `{}`) and its document (or `""`). */
  lemma {:induction false} HitsExactly(q: QueryResult, threshold: real, n: nat)
    requires q.ids != [] && q.distances != [] && n <= PairCount(q)
    requires Hits(q, threshold, n).Some?
    ensures |Hits(q, threshold, n).value| == |Kept(q, threshold, n)|
    ensures forall i | 0 <= i < |Kept(q, threshold, n)| :: Kept(q, threshold, n)[i] < n && !IndexFails(q, Kept(q, threshold, n)[i])
              && Hits(q, threshold, n).value[i] == HitAt(q, Kept(q, threshold, n)[i])
  {
    if n > 0 {
      HitsExactly(q, threshold, n - 1);
      var ks := Kept(q, threshold, n - 1);
      var hs := Hits(q, threshold, n - 1).value;
      if Similarity(q, n - 1) >= threshold {
        assert Kept(q, threshold, n) == ks + [n - 1];
        assert Hits(q, threshold, n).value == hs + [HitAt(q, n - 1)];
      } else {
        assert Kept(q, threshold, n) == ks;
      }
    }
  }

  /** Every hit returned reaches the threshold. */
  lemma SimilarHitsReachThreshold(answer: Option<QueryResult>, threshold: real, h: Hit)
    requires h in SimilarHits(answer, threshold)
    ensures h.similarity >= threshold
  {
    var q := answer.value;
    HitsExactly(q, threshold, PairCount(q));
    KeptExactly(q, threshold, PairCount(q));
    var hs := SimilarHits(answer, threshold);
    var i :| 0 <= i < |hs| && hs[i] == h;
    var ks := Kept(q, threshold, PairCount(q));
    assert ks[i] in ks;
  }

  /** The loop of the searches. */
  method SearchSimilar(answer: Option<QueryResult>, threshold: real) returns (r: seq<Hit>)
    ensures r == SimilarHits(answer, threshold)
  {
    if answer.None? {
      return [];
    }
    var q := answer.value;
    if q.ids == [] || q.ids[0] == [] || q.distances == [] {
      return [];
    }
    var n := PairCount(q);
    var similar: seq<Hit> := [];
    for i := 0 to n
      invariant Hits(q, threshold, i) == Some(similar)
    {
      var similarity := 1.0 - q.distances[0][i];
      if similarity >= threshold {
        if IndexFails(q, i) {
          HitsFailLater(q, threshold, i + 1, n);
          return [];
        }
        var metadata := if q.metadatas != [] then q.metadatas[0][i] else JDict([]);
        var document := if q.documents != [] then q.documents[0][i] else "";
        similar := similar + [Hit(q.ids[0][i], similarity, metadata, document)];
      }
    }
    r := similar;
  }

  /** Once the loop has raised, it stays raised. */
  lemma {:induction false} HitsFailLater(q: QueryResult, threshold: real, m: nat, n: nat)
    requires q.ids != [] && q.distances != [] && m <= n <= PairCount(q)
    requires Hits(q, threshold, m).None?
    ensures Hits(q, threshold, n).None?
    decreases n - m
  {
    if m < n {
      HitsFailLater(q, threshold, m + 1, n);
    }
  }

  // ---------------------------------------------------------------------------
  // Ids
  // ---------------------------------------------------------------------------

  /** The lower-case hexadecimal digits `uuid4().hex` is made of. */
  predicate IsHex(s: string) { forall i | 0 <= i < |s| :: s[i] in "0123456789abcdef" }

  /** `f"cv_{owner}_{uuid.uuid4().hex[:8]}"`, `hex` being the uuid's 32 hex digits. */
  function CvId(owner: string, hex: string): (r: string)
    requires |hex| == 32 && IsHex(hex)
    ensures |r| == |owner| + 12 && r[..3] == "cv_" && r[3..|owner| + 3] == owner
    ensures r[|owner| + 3] == '_' && IsHex(r[|owner| + 4..])
  {
    "cv_" + owner + "_" + hex[..8]
  }

  /** `f"jd_{uuid.uuid4().hex[:8]}"`. */
  function JobId(hex: string): (r: string)
    requires |hex| == 32 && IsHex(hex)
    ensures |r| == 11 && r[..3] == "jd_" && IsHex(r[3..])
  {
    "jd_" + hex[..8]
  }

  /** A resume id gives back its owner and its eight hex digits, whatever the owner's name
      holds (underscores included). */
  lemma CvIdInjective(owner: string, hex: string, owner': string, hex': string)
    requires |hex| == 32 && IsHex(hex) && |hex'| == 32 && IsHex(hex')
    requires CvId(owner, hex) == CvId(owner', hex')
    ensures owner == owner' && hex[..8] == hex'[..8]
  {
    var id := CvId(owner, hex);
    assert |owner| == |owner'|;
    assert id[|owner| + 4..] == hex[..8] && CvId(owner', hex')[|owner| + 4..] == hex'[..8];
  }

  /** A resume id is never a job id. */
  lemma CvIdIsNotJobId(owner: string, hex: string, hex': string)
    requires |hex| == 32 && IsHex(hex) && |hex'| == 32 && IsHex(hex')
    ensures CvId(owner, hex) != JobId(hex')
  {
    assert CvId(owner, hex)[0] == 'c' && JobId(hex')[0] == 'j';
  }

  // ---------------------------------------------------------------------------
  // Resume metadata
  // ---------------------------------------------------------------------------

  /** `calculate_total_experience(cv_data)` of the resume store: the same sum, rounded to two
      decimals. */
  function RoundedTotalExperience(cv: seq<(string, Json)>): (r: Result<real, PyError>)
    ensures r.Success? <==> Scoring.TotalExperience(cv).Success?
    ensures r.Success? ==> r.value >= 0.0 && -0.005 <= r.value - Scoring.TotalExperience(cv).value <= 0.005
  {
    match Scoring.TotalExperience(cv)
    case Failure(e) => Failure(e)
    case Success(total) => Success(PyRound.Round2(total))
  }

  /** The metadata stored with a resume. */
  datatype CvMetadata = CvMetadata(id: string, owner: string, sourceUrl: string, name: Json,
                                   postedAt: string, skills: Json, experienceYears: real,
                                   educationLevel: string, location: Json, createdAt: string)

  /** `source_url or ""`. */
  function UrlOrEmpty(sourceUrl: Option<string>): string {
    if sourceUrl.Some? then sourceUrl.value else ""
  }

  /** The resume metadata, `prepare_cv_metadata(cv_data, owner, source_url, cv_id)` when
      `rounded` (its default for education and location is "Unknown") and the literal of
      `ChromaDBManager.save_cv` otherwise (its default is ""). A helper that raises makes the
      whole raise. */
  function CvMetadataOf(cv: seq<(string, Json)>, owner: string, sourceUrl: Option<string>, id: string,
                        now: string, rounded: bool, default: string): (r: Result<CvMetadata, PyError>)
    ensures r.Success? <==> Scoring.TotalExperience(cv).Success? && Scoring.HighestEducation(cv, default).Success?
                            && Scoring.Location(cv, default).Success?
    ensures r.Success? ==> r.value.id == id && r.value.owner == owner && r.value.experienceYears >= 0.0
    ensures r.Success? && (sourceUrl.None? || sourceUrl == Some("")) ==> r.value.sourceUrl == ""
    ensures r.Success? && "name" !in KeyList(cv) ==> r.value.name == JStr("")
    ensures r.Success? && "skills" !in KeyList(cv) ==> r.value.skills == JList([])
    ensures r.Success? && !rounded ==> r.value.experienceYears == Scoring.TotalExperience(cv).value
  {
    var total := if rounded then RoundedTotalExperience(cv) else Scoring.TotalExperience(cv);
    match total
    case Failure(e) => Failure(e)
    case Success(years) =>
      match Scoring.HighestEducation(cv, default)
      case Failure(e) => Failure(e)
      case Success(education) =>
        match Scoring.Location(cv, default)
        case Failure(e) => Failure(e)
        case Success(location) =>
          Success(CvMetadata(id, owner, UrlOrEmpty(sourceUrl), Get(cv, "name", JStr("")), now,
                             Get(cv, "skills", JList([])), years, education, location, now))
  }

  /** `save_cv_to_database(cv_data, owner, source_url)` and `ChromaDBManager.save_cv`: the id
      when the metadata and the embedding text are built and the collection's `add`
      succeeds (`added`), else None rather than an exception. */
  function SaveCv(cv: seq<(string, Json)>, owner: string, sourceUrl: Option<string>, hex: string, now: string,
                  rounded: bool, default: string, show: Json -> string, added: bool): (r: Option<string>)
    requires |hex| == 32 && IsHex(hex)
    ensures r.Some? <==> CvMetadataOf(cv, owner, sourceUrl, CvId(owner, hex), now, rounded, default).Success?
                         && TextUtils.EmbeddingContent(cv, show).Success? && added
    ensures r.Some? ==> r.value == CvId(owner, hex)
  {
    var id := CvId(owner, hex);
    if CvMetadataOf(cv, owner, sourceUrl, id, now, rounded, default).Failure? then None
    else if TextUtils.EmbeddingContent(cv, show).Failure? then None
    else if !added then None
    else Some(id)
  }

  // ---------------------------------------------------------------------------
  // Job metadata and embedding text
  // ---------------------------------------------------------------------------

  /** The metadata stored with a job; `postedBy` is None where the literal has no
      `posted_by` key. */
  datatype JobMetadata = JobMetadata(id: string, title: Json, company: Json, location: Json,
                                     employmentType: Json, salaryRange: Json, requiredSkills: Json,
                                     requiredExperienceYears: Json, sourceUrl: Json,
                                     postedBy: Option<Json>, postedDate: Json, createdAt: string)

  /** `prepare_job_metadata(job_data, jd_id)` (with `posted_by`) and the literal of
      `ChromaDBManager.save_job_description` (without): text fields default to "", the
      skills to [], the years to 0 and the posting date to now. */
  function JobMetadataOf(job: seq<(string, Json)>, id: string, now: string, withPostedBy: bool): (r: JobMetadata)
    ensures r.id == id && r.createdAt == now
    ensures r.postedBy.Some? <==> withPostedBy
    ensures "title" !in KeyList(job) ==> r.title == JStr("")
    ensures "required_skills" !in KeyList(job) ==> r.requiredSkills == JList([])
    ensures "required_experience_years" !in KeyList(job) ==> r.requiredExperienceYears == JInt(0)
    ensures "posted_date" !in KeyList(job) ==> r.postedDate == JStr(now)
  {
    JobMetadata(id, Get(job, "title", JStr("")), Get(job, "company", JStr("")), Get(job, "location", JStr("")),
                Get(job, "employment_type", JStr("")), Get(job, "salary_range", JStr("")),
                Get(job, "required_skills", JList([])), Get(job, "required_experience_years", JInt(0)),
                Get(job, "source_url", JStr("")),
                if withPostedBy then Some(Get(job, "posted_by", JStr(""))) else None,
                Get(job, "posted_date", JStr(now)), now)
  }

  /** The six job fields the embedding text shows, and their labels. */
  const JobFields: seq<string> := ["title", "company", "location", "description", "required_skills", "required_experience_years"]
  const JobLabels: seq<string> := ["Job Title: ", "Company: ", "Location: ", "Description: ", "Required Skills: ", "Required Experience: "]

  /** The line of field `k`: nothing for a falsy field; the skills joined by ", " (a
      non-iterable value or an item that is not a string raises TypeError); the years
      followed by " years"; any other field as `str` shows it. */
  function JobLine(job: seq<(string, Json)>, k: nat, show: Json -> string): (r: Result<seq<string>, PyError>)
    requires k < 6
    ensures !Truthy(Get(job, JobFields[k], JNull)) ==> r == Success([])
    ensures r.Success? && Truthy(Get(job, JobFields[k], JNull)) ==>
      |r.value| == 1 && |JobLabels[k]| <= |r.value[0]| && r.value[0][..|JobLabels[k]|] == JobLabels[k]
  {
    var v := Get(job, JobFields[k], JNull);
    if !Truthy(v) then Success([])
    else if k == 4 then
      match Iterate(v)
      case Failure(e) => Failure(e)
      case Success(items) =>
        match JoinItems(items, ", ")
        case Failure(e) => Failure(e)
        case Success(s) => Success([JobLabels[k] + s])
    else if k == 5 then Success([JobLabels[k] + Str(v, show) + " years"])
    else Success([JobLabels[k] + Str(v, show)])
  }

  /** What `create_job_embedding_text(job_data)` and `ChromaDBManager._create_jd_embedding_text`
      return: the lines of the six fields, in order, joined by newlines. */
  function JobEmbeddingText(job: seq<(string, Json)>, show: Json -> string): Result<string, PyError> {
    match TextUtils.Collect(seq(6, k requires 0 <= k < 6 => JobLine(job, k, show)))
    case Failure(e) => Failure(e)
    case Success(lines) => Success(Join(lines, "\n"))
  }

  /** A job with no truthy field among the six, an experience of 0 included, has an empty
      embedding text. */
  lemma EmptyJobText(job: seq<(string, Json)>, show: Json -> string)
    requires forall k | 0 <= k < 6 :: !Truthy(Get(job, JobFields[k], JNull))
    ensures JobEmbeddingText(job, show) == Success("")
  {
    var rs := seq(6, k requires 0 <= k < 6 => JobLine(job, k, show));
    var parts: seq<seq<string>> := seq(6, k => []);
    TextUtils.CollectAll(rs, parts);
    TextUtils.ConcatEmpty(parts, 6);
    assert parts[..6] == parts;
  }

  /** When the embedding text is built, every field's line was built, and the lines are
      those of the six fields one after another. */
  lemma JobTextLines(job: seq<(string, Json)>, show: Json -> string)
    requires JobEmbeddingText(job, show).Success?
    ensures forall k | 0 <= k < 6 :: JobLine(job, k, show).Success?
    ensures TextUtils.Collect(seq(6, k requires 0 <= k < 6 => JobLine(job, k, show))) ==
      Success(TextUtils.Concat(seq(6, k requires 0 <= k < 6 && JobLine(job, k, show).Success? => JobLine(job, k, show).value)))
  {
    var rs := seq(6, k requires 0 <= k < 6 => JobLine(job, k, show));
    TextUtils.CollectSucceeded(rs);
    assert forall k | 0 <= k < 6 :: JobLine(job, k, show) == rs[k];
    var parts := seq(6, k requires 0 <= k < 6 && JobLine(job, k, show).Success? => JobLine(job, k, show).value);
    assert forall k | 0 <= k < 6 :: rs[k] == Success(parts[k]);
    TextUtils.CollectAll(rs, parts);
  }

  // ---------------------------------------------------------------------------
  // Saving a job
  // ---------------------------------------------------------------------------

  /** `save_job_to_database(job_data)` and `ChromaDBManager.save_job_description`: the id
      when the embedding text is built and the collection's `add` succeeds (`added`), else
      None rather than an exception. The metadata of either (`JobMetadataOf`) is made of
      `get` lookups, which never raise. */
  function SaveJob(job: seq<(string, Json)>, hex: string, show: Json -> string, added: bool): (r: Option<string>)
    requires |hex| == 32 && IsHex(hex)
    ensures r.Some? <==> JobEmbeddingText(job, show).Success? && added
    ensures r.Some? ==> r.value == JobId(hex)
  {
    if JobEmbeddingText(job, show).Failure? then None
    else if !added then None
    else Some(JobId(hex))
  }

  /** A `required_skills` value the embedding text can join: a falsy value (skipped), or an
      iterable whose items are strings. A string iterates to its characters and a
      dictionary to its keys, so both qualify. */
  predicate JoinableSkills(v: Json) {
    !Truthy(v) || v.JStr? || v.JDict? || (v.JList? && forall i | 0 <= i < |v.items| :: v.items[i].JStr?)
  }

  /** Only the skills line can raise: a job is saved exactly when its skills are joinable
      and the collection accepts it. */
  lemma SaveJobSucceeds(job: seq<(string, Json)>, hex: string, show: Json -> string, added: bool)
    requires |hex| == 32 && IsHex(hex)
    ensures SaveJob(job, hex, show, added).Some? <==> added && JoinableSkills(Get(job, "required_skills", JNull))
  {
    var v := Get(job, "required_skills", JNull);
    if JobEmbeddingText(job, show).Success? {
      JobTextLines(job, show);
      assert JobLine(job, 4, show).Success?;
    }
    if JoinableSkills(v) {
      forall k | 0 <= k < 6 ensures JobLine(job, k, show).Success? {
        if k == 4 && Truthy(v) {
          assert Iterate(v).Success?;
        }
      }
      var rs := seq(6, k requires 0 <= k < 6 => JobLine(job, k, show));
      TextUtils.CollectAll(rs, seq(6, k requires 0 <= k < 6 => rs[k].value));
    }
  }
}
