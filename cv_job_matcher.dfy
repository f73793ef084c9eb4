/** logic/cv_job_matcher.py: the text a CV is searched with, the selection, evaluation
    and ordering of the jobs the search finds, and the weighted match score. The vector
    search and the language-model evaluation are parameters. */
module CvJobMatcher {
  import opened Wrappers
  import opened PyStr
  import opened PyJson
  import VectorStore
  import Ranking
  import Seqs

  // ---------------------------------------------------------------------------
  // create_cv_search_query
  // ---------------------------------------------------------------------------

  /** One entry of the experience or education list as "<first> <sep> <second>", when it is
      a dictionary whose two fields are both truthy. */
  function PairText(item: Json, first: string, second: string, sep: string, show: Json -> string): (r: Option<string>)
    ensures r.Some? <==> item.JDict? && Truthy(Get(item.pairs, first, JStr(""))) && Truthy(Get(item.pairs, second, JStr("")))
  {
    match item
    case JDict(ps) =>
      var a := Get(ps, first, JStr(""));
      var b := Get(ps, second, JStr(""));
      if Truthy(a) && Truthy(b) then Some(Str(a, show) + sep + Str(b, show)) else None
    case _ => None
  }

  /** The texts of the entries that have both fields, in list order. */
  function PairTexts(items: seq<Json>, first: string, second: string, sep: string, show: Json -> string): (r: seq<string>)
    ensures |r| <= |items|
  {
    if items == [] then []
    else
      var last := items[|items| - 1];
      PairTexts(items[..|items| - 1], first, second, sep, show)
        + (match PairText(last, first, second, sep, show) case Some(t) => [t] case None => [])
  }

  /** A text is listed exactly when some entry has both fields and renders as it. */
  lemma PairTextsExactly(items: seq<Json>, first: string, second: string, sep: string,
                         show: Json -> string, x: string)
    ensures x in PairTexts(items, first, second, sep, show)
        <==> exists i | 0 <= i < |items| :: PairText(items[i], first, second, sep, show) == Some(x)
  {
    if x in PairTexts(items, first, second, sep, show) {
      var i := PairTextSource(items, first, second, sep, show, x);
    }
    if exists i | 0 <= i < |items| :: PairText(items[i], first, second, sep, show) == Some(x) {
      var i :| 0 <= i < |items| && PairText(items[i], first, second, sep, show) == Some(x);
      PairTextListed(items, first, second, sep, show, i, x);
    }
  }

  /** A listed text comes from some entry. */
  lemma {:induction false} PairTextSource(items: seq<Json>, first: string, second: string, sep: string,
                                          show: Json -> string, x: string) returns (i: nat)
    requires x in PairTexts(items, first, second, sep, show)
    ensures i < |items| && PairText(items[i], first, second, sep, show) == Some(x)
  {
    var init, last := items[..|items| - 1], items[|items| - 1];
    if x in PairTexts(init, first, second, sep, show) {
      i := PairTextSource(init, first, second, sep, show, x);
      assert items[i] == init[i];
    } else {
      i := |items| - 1;
    }
  }

  /** Every entry that renders is listed. */
  lemma {:induction false} PairTextListed(items: seq<Json>, first: string, second: string, sep: string,
                                          show: Json -> string, i: nat, x: string)
    requires i < |items| && PairText(items[i], first, second, sep, show) == Some(x)
    ensures x in PairTexts(items, first, second, sep, show)
  {
    var init := items[..|items| - 1];
    if i < |init| {
      assert init[i] == items[i];
      PairTextListed(init, first, second, sep, show, i, x);
    }
  }

  /** The loop over the experience or education list. */
  method CollectPairs(items: seq<Json>, first: string, second: string, sep: string, show: Json -> string)
    returns (texts: seq<string>)
    ensures texts == PairTexts(items, first, second, sep, show)
  {
    texts := [];
    for i := 0 to |items|
      invariant texts == PairTexts(items[..i], first, second, sep, show)
    {
      assert items[..i + 1][..i] == items[..i];
      match PairText(items[i], first, second, sep, show)
      case Some(t) => texts := texts + [t];
      case None =>
    }
    assert items[..|items|] == items;
  }

  /** The "Experience: ..." or "Education: ..." part for a list field: absent when the field
      is falsy or no entry has both fields; TypeError when the field is not iterable. */
  function PairSection(v: Json, heading: string, first: string, second: string, sep: string, show: Json -> string)
    : (r: Result<Option<string>, PyError>)
    ensures r.Failure? <==> Truthy(v) && Iterate(v).Failure?
    ensures r.Success? && r.value.Some? ==> StartsWith(r.value.value, heading)
  {
    if !Truthy(v) then Success(None)
    else match Iterate(v)
      case Failure(e) => Failure(e)
      case Success(items) =>
        var texts := PairTexts(items, first, second, sep, show);
        if texts == [] then Success(None)
        else
          var s := heading + Join(texts, ", ");
          assert s[..|heading|] == heading;
          Success(Some(s))
  }

  /** The "Skills: ..." part: absent when the field is falsy; TypeError when it is not
      iterable or holds a non-string. */
  function SkillsSection(v: Json): (r: Result<Option<string>, PyError>)
    ensures r.Failure? <==> Truthy(v) && (Iterate(v).Failure? || JoinItems(Iterate(v).value, ", ").Failure?)
    ensures r.Success? ==> (r.value.Some? <==> Truthy(v))
  {
    if !Truthy(v) then Success(None)
    else match Iterate(v)
      case Failure(e) => Failure(e)
      case Success(items) =>
        match JoinItems(items, ", ")
        case Failure(e) => Failure(e)
        case Success(s) => Success(Some("Skills: " + s))
  }

  /** Appends an optional part. */
  function Maybe(part: Option<string>): seq<Json> {
    match part
    case Some(s) => [JStr(s)]
    case None => []
  }

  /** The name and summary parts: "Looking for <name>" and the summary as it is. */
  function Head(cv: seq<(string, Json)>, show: Json -> string): (r: seq<Json>)
    ensures forall i | 0 <= i < |r| :: r[i].JStr? || r[i] == Get(cv, "summary", JNull)
    ensures Truthy(Get(cv, "summary", JNull)) ==> Get(cv, "summary", JNull) in r
  {
    var name := Get(cv, "name", JNull);
    var summary := Get(cv, "summary", JNull);
    (if Truthy(name) then [JStr("Looking for " + Str(name, show))] else [])
      + (if Truthy(summary) then [summary] else [])
  }

  function ExperienceSection(cv: seq<(string, Json)>, show: Json -> string): Result<Option<string>, PyError> {
    PairSection(Get(cv, "experiences", JList([])), "Experience: ", "role", "organization", " at ", show)
  }

  function EducationSection(cv: seq<(string, Json)>, show: Json -> string): Result<Option<string>, PyError> {
    PairSection(Get(cv, "education", JList([])), "Education: ", "degree", "school", " from ", show)
  }

  /** The experience, skills and education parts that are present. */
  function Tail(exp: Option<string>, skills: Option<string>, edu: Option<string>): (t: seq<Json>)
    ensures forall i | 0 <= i < |t| :: t[i].JStr?
  {
    Maybe(exp) + Maybe(skills) + Maybe(edu)
  }

  /** The parts of the query, in order. */
  function QueryParts(cv: seq<(string, Json)>, show: Json -> string): (r: Result<seq<Json>, PyError>)
    ensures r.Failure? <==> ExperienceSection(cv, show).Failure? || SkillsSection(Get(cv, "skills", JList([]))).Failure?
                            || EducationSection(cv, show).Failure?
    ensures r.Success? ==> var h := Head(cv, show);
      |h| <= |r.value| && r.value[..|h|] == h && forall i | |h| <= i < |r.value| :: r.value[i].JStr?
  {
    match ExperienceSection(cv, show)
    case Failure(e) => Failure(e)
    case Success(exp) =>
      match SkillsSection(Get(cv, "skills", JList([])))
      case Failure(e) => Failure(e)
      case Success(skills) =>
        match EducationSection(cv, show)
        case Failure(e) => Failure(e)
        case Success(edu) =>
          var h := Head(cv, show);
          var t := Tail(exp, skills, edu);
          var r := h + t;
          assert r[..|h|] == h;
          assert forall i | |h| <= i < |r| :: r[i] == t[i - |h|];
          Success(r)
  }

  /** `create_cv_search_query(cv_data)`: the available parts joined by single spaces. */
  function CvSearchQuery(cv: seq<(string, Json)>, show: Json -> string): (r: Result<string, PyError>) {
    match QueryParts(cv, show)
    case Failure(e) => Failure(e)
    case Success(parts) => JoinItems(parts, " ")
  }

  /** The query cannot be built, and `create_cv_search_query` raises, exactly when a truthy
      summary is not a string, a truthy experience, skill or education field is not
      iterable, or a skill is not a string. */
  lemma CvSearchQueryFails(cv: seq<(string, Json)>, show: Json -> string)
    ensures CvSearchQuery(cv, show).Failure? <==>
      var summary := Get(cv, "summary", JNull);
      var skills := Get(cv, "skills", JList([]));
      (Truthy(summary) && !summary.JStr?)
      || (Truthy(Get(cv, "experiences", JList([]))) && Iterate(Get(cv, "experiences", JList([]))).Failure?)
      || (Truthy(skills) && (Iterate(skills).Failure? || JoinItems(Iterate(skills).value, ", ").Failure?))
      || (Truthy(Get(cv, "education", JList([]))) && Iterate(Get(cv, "education", JList([]))).Failure?)
  {
    var summary := Get(cv, "summary", JNull);
    var q := QueryParts(cv, show);
    if q.Success? {
      var h := Head(cv, show);
      var parts := q.value;
      forall i | 0 <= i < |parts| && parts[i] != summary ensures parts[i].JStr? {
        if i < |h| {
          assert parts[i] == h[i];
        }
      }
      if Truthy(summary) {
        var j :| 0 <= j < |h| && h[j] == summary;
        assert parts[j] == summary;
      }
    }
  }

  /** The "Experience: ..." or "Education: ..." part, with its loop. */
  method PairSectionLoop(v: Json, heading: string, first: string, second: string, sep: string, show: Json -> string)
    returns (r: Result<Option<string>, PyError>)
    ensures r == PairSection(v, heading, first, second, sep, show)
  {
    if !Truthy(v) {
      return Success(None);
    }
    match Iterate(v)
    case Failure(e) =>
      return Failure(e);
    case Success(items) =>
      var texts := CollectPairs(items, first, second, sep, show);
      if texts == [] {
        return Success(None);
      }
      return Success(Some(heading + Join(texts, ", ")));
  }

  /** The loops of `create_cv_search_query`. */
  method CreateCvSearchQuery(cv: seq<(string, Json)>, show: Json -> string) returns (r: Result<string, PyError>)
    ensures r == CvSearchQuery(cv, show)
  {
    var parts: seq<Json> := [];
    var name := Get(cv, "name", JNull);
    if Truthy(name) {
      parts := parts + [JStr("Looking for " + Str(name, show))];
    }
    var summary := Get(cv, "summary", JNull);
    if Truthy(summary) {
      parts := parts + [summary];
    }
    assert parts == Head(cv, show);
    var exp := PairSectionLoop(Get(cv, "experiences", JList([])), "Experience: ", "role", "organization", " at ", show);
    if exp.Failure? {
      return Failure(exp.error);
    }
    var skills := SkillsSection(Get(cv, "skills", JList([])));
    if skills.Failure? {
      return Failure(skills.error);
    }
    var edu := PairSectionLoop(Get(cv, "education", JList([])), "Education: ", "degree", "school", " from ", show);
    if edu.Failure? {
      return Failure(edu.error);
    }
    parts := parts + Tail(exp.value, skills.value, edu.value);
    r := JoinItems(parts, " ");
  }

  /** An empty CV gives the empty query. */
  lemma EmptyCvEmptyQuery(show: Json -> string)
    ensures CvSearchQuery([], show) == Success("")
  {
    assert QueryParts([], show) == Success([]);
  }

  /** A query built from a name alone reads "Looking for <name>". */
  lemma NameOnlyQuery(cv: seq<(string, Json)>, show: Json -> string)
    requires Truthy(Get(cv, "name", JNull))
    requires !Truthy(Get(cv, "summary", JNull)) && !Truthy(Get(cv, "experiences", JList([])))
    requires !Truthy(Get(cv, "skills", JList([]))) && !Truthy(Get(cv, "education", JList([])))
    ensures CvSearchQuery(cv, show) == Success("Looking for " + Str(Get(cv, "name", JNull), show))
  {
    var s := "Looking for " + Str(Get(cv, "name", JNull), show);
    assert Head(cv, show) == [JStr(s)];
    assert ExperienceSection(cv, show) == Success(None);
    assert SkillsSection(Get(cv, "skills", JList([]))) == Success(None);
    assert EducationSection(cv, show) == Success(None);
    assert QueryParts(cv, show) == Success([JStr(s)]);
    var one := [JStr(s)];
    assert one[1..] == [];
    assert StrItems(one[1..]) == Success([]);
    assert StrItems(one) == Success([s] + []);
    assert Join([s], " ") == s;
  }

  // ---------------------------------------------------------------------------
  // find_matching_jobs_for_cv
  // ---------------------------------------------------------------------------

  /** What evaluating one job with the language model did: raise with a message, or return
      a value. */
  datatype Evaluation = Raised(message: string) | Returned(value: Json)

  /** A job as `find_matching_jobs_for_cv` returns it: the search hit with the evaluation
      and the score it was given. */
  datatype EvaluatedJob = EvaluatedJob(hit: VectorStore.Hit, evaluation: Json, llmScore: Json)

  /** The evaluation recorded for a job whose evaluation failed. */
  function FailedEvaluation(message: string): Json {
    JDict([("score", JInt(0)), ("error", JStr(message))])
  }

  /** Python's name of the type of a value. */
  function TypeName(v: Json): string {
    match v
    case JNull => "NoneType"
    case JBool(_) => "bool"
    case JInt(_) => "int"
    case JFloat(_) => "float"
    case JStr(_) => "str"
    case JList(_) => "list"
    case JDict(_) => "dict"
  }

  /** One pass of the evaluation loop. A truthy dictionary is kept with its "score" (0 when
      missing); any other truthy value fails on `.get` with AttributeError; a falsy value
      records "Evaluation failed"; a raised error records its message. Every failure scores
      0, and the hit is always kept. */
  function EvaluateJob(hit: VectorStore.Hit, outcome: Evaluation): (r: EvaluatedJob)
    ensures r.hit == hit
    ensures (outcome.Returned? && outcome.value.JDict? && outcome.value.pairs != [])
      ==> r.evaluation == outcome.value && r.llmScore == Get(outcome.value.pairs, "score", JInt(0))
    ensures !(outcome.Returned? && outcome.value.JDict? && outcome.value.pairs != [])
      ==> r.llmScore == JInt(0) && r.evaluation.JDict?
  {
    match outcome
    case Raised(m) => EvaluatedJob(hit, FailedEvaluation(m), JInt(0))
    case Returned(v) =>
      if !Truthy(v) then EvaluatedJob(hit, FailedEvaluation("Evaluation failed"), JInt(0))
      else if v.JDict? then EvaluatedJob(hit, v, Get(v.pairs, "score", JInt(0)))
      else EvaluatedJob(hit, FailedEvaluation("'" + TypeName(v) + "' object has no attribute 'get'"), JInt(0))
  }

  /** Every hit, evaluated, in order. */
  function EvaluateAll(hits: seq<VectorStore.Hit>, evaluate: VectorStore.Hit -> Evaluation): (r: seq<EvaluatedJob>)
    ensures |r| == |hits| && forall i | 0 <= i < |hits| :: r[i] == EvaluateJob(hits[i], evaluate(hits[i]))
  {
    seq(|hits|, i requires 0 <= i < |hits| => EvaluateJob(hits[i], evaluate(hits[i])))
  }

  /** The sort key: the numeric value of the score. */
  function ScoreKey(job: EvaluatedJob): real {
    if IsNumber(job.llmScore) then NumValue(job.llmScore) else 0.0
  }

  /** Sorting by score needs the scores to be comparable: with two or more jobs every score
      must be a number. */
  predicate Sortable(jobs: seq<EvaluatedJob>) {
    |jobs| <= 1 || forall i | 0 <= i < |jobs| :: IsNumber(jobs[i].llmScore)
  }

  const SearchThreshold: real := 0.6

  /** `find_matching_jobs_for_cv(cv_data, max_jobs)`, where `search(query, n, threshold)` is
      what `search_similar_jobs` returns and `evaluate(hit)` what evaluating the CV against
      that job did. */
  function FindMatchingJobs(cv: seq<(string, Json)>, maxJobs: int, show: Json -> string,
                            search: (string, int, real) -> seq<VectorStore.Hit>,
                            evaluate: VectorStore.Hit -> Evaluation): seq<EvaluatedJob>
  {
    match CvSearchQuery(cv, show)
    case Failure(_) => []
    case Success(query) =>
      var similar := search(query, maxJobs * 2, SearchThreshold);
      if similar == [] then []
      else
        var evaluated := EvaluateAll(Ranking.Prefix(similar, maxJobs), evaluate);
        if Sortable(evaluated) then Ranking.SortDesc(evaluated, ScoreKey) else []
  }

  /** The evaluation loop and the sort of `find_matching_jobs_for_cv`. */
  method FindMatchingJobsForCv(cv: seq<(string, Json)>, maxJobs: int, show: Json -> string,
                               search: (string, int, real) -> seq<VectorStore.Hit>,
                               evaluate: VectorStore.Hit -> Evaluation)
    returns (jobs: seq<EvaluatedJob>)
    ensures jobs == FindMatchingJobs(cv, maxJobs, show, search, evaluate)
  {
    var query := CreateCvSearchQuery(cv, show);
    if query.Failure? {
      return [];
    }
    var similar := search(query.value, maxJobs * 2, SearchThreshold);
    if similar == [] {
      return [];
    }
    var evaluated := EvaluateHits(Ranking.Prefix(similar, maxJobs), evaluate);
    if !Sortable(evaluated) {
      return [];
    }
    jobs := Ranking.SortDesc(evaluated, ScoreKey);
  }

  /** The evaluation loop: every hit is evaluated once, in search order. */
  method EvaluateHits(hits: seq<VectorStore.Hit>, evaluate: VectorStore.Hit -> Evaluation)
    returns (evaluated: seq<EvaluatedJob>)
    ensures evaluated == EvaluateAll(hits, evaluate)
  {
    evaluated := [];
    for i := 0 to |hits|
      invariant |evaluated| == i
      invariant forall k | 0 <= k < i :: evaluated[k] == EvaluateJob(hits[k], evaluate(hits[k]))
    {
      evaluated := evaluated + [EvaluateJob(hits[i], evaluate(hits[i]))];
    }
  }

  /** When the search finds nothing, no job is evaluated and the result is empty. */
  lemma NothingFound(cv: seq<(string, Json)>, maxJobs: int, show: Json -> string,
                     search: (string, int, real) -> seq<VectorStore.Hit>, evaluate: VectorStore.Hit -> Evaluation)
    requires CvSearchQuery(cv, show).Success?
    requires search(CvSearchQuery(cv, show).value, maxJobs * 2, SearchThreshold) == []
    ensures FindMatchingJobs(cv, maxJobs, show, search, evaluate) == []
  {
  }

  /** Otherwise, when the scores can be compared, the result holds the first `max_jobs` hits
      the search found, each evaluated once, ordered by score from highest to lowest, and
      jobs with equal scores in search order. */
  lemma MatchingJobsRanked(cv: seq<(string, Json)>, maxJobs: int, show: Json -> string,
                           search: (string, int, real) -> seq<VectorStore.Hit>,
                           evaluate: VectorStore.Hit -> Evaluation, v: real)
    requires CvSearchQuery(cv, show).Success? && maxJobs >= 0
    requires var similar := search(CvSearchQuery(cv, show).value, maxJobs * 2, SearchThreshold);
      similar != [] && Sortable(EvaluateAll(Ranking.Prefix(similar, maxJobs), evaluate))
    ensures var similar := search(CvSearchQuery(cv, show).value, maxJobs * 2, SearchThreshold);
      var evaluated := EvaluateAll(Ranking.Prefix(similar, maxJobs), evaluate);
      var r := FindMatchingJobs(cv, maxJobs, show, search, evaluate);
      |r| == (if maxJobs < |similar| then maxJobs else |similar|)
      && multiset(r) == multiset(evaluated)
      && Ranking.Descending(r, ScoreKey)
      && Seqs.Filter(r, Ranking.HasKey(ScoreKey, v)) == Seqs.Filter(evaluated, Ranking.HasKey(ScoreKey, v))
  {
    var similar := search(CvSearchQuery(cv, show).value, maxJobs * 2, SearchThreshold);
    var evaluated := EvaluateAll(Ranking.Prefix(similar, maxJobs), evaluate);
    Ranking.SortDescDescending(evaluated, ScoreKey);
    Ranking.SortDescPermutes(evaluated, ScoreKey);
    Ranking.SortDescStable(evaluated, ScoreKey, v);
  }

  // ---------------------------------------------------------------------------
  // calculate_cv_job_match_score
  // ---------------------------------------------------------------------------

  /** `calculate_cv_job_match_score(cv_data, job)`: 30% of the job's similarity and 70% of
      its language-model score, each 0 when missing; 0.0 when either is not a number (the
      multiplication raises). The result lies between the two scores. */
  function MatchScore(job: seq<(string, Json)>): (r: real)
    ensures var s := Get(job, "similarity", JInt(0)); var l := Get(job, "llm_score", JInt(0));
      IsNumber(s) && IsNumber(l) ==>
        (NumValue(s) <= NumValue(l) ==> NumValue(s) <= r <= NumValue(l))
        && (NumValue(l) <= NumValue(s) ==> NumValue(l) <= r <= NumValue(s))
    ensures "similarity" !in KeyList(job) && "llm_score" !in KeyList(job) ==> r == 0.0
  {
    var s := Get(job, "similarity", JInt(0));
    var l := Get(job, "llm_score", JInt(0));
    if IsNumber(s) && IsNumber(l) then NumValue(s) * 0.3 + NumValue(l) * 0.7 else 0.0
  }

  /** A higher language-model score never lowers the match score. */
  lemma MatchScoreGrows(job: seq<(string, Json)>, job': seq<(string, Json)>)
    requires Get(job, "similarity", JInt(0)) == Get(job', "similarity", JInt(0))
    requires IsNumber(Get(job, "similarity", JInt(0)))
    requires IsNumber(Get(job, "llm_score", JInt(0))) && IsNumber(Get(job', "llm_score", JInt(0)))
    requires NumValue(Get(job, "llm_score", JInt(0))) <= NumValue(Get(job', "llm_score", JInt(0)))
    ensures MatchScore(job) <= MatchScore(job')
  {
  }
}
