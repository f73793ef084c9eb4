/** app/server/ragmodel/logics/matchingLogic.py: the in-memory CV and JD stores, the
    five-field weighted score of a CV against a JD, and the ranking of every stored CV for
    a JD (`find_best_candidates`) and of every stored JD for a CV (`find_best_jobs`).
    Parsing and embedding the query, the cosine of two embeddings and the language-model
    evaluation are parameters. */
module MatchingLogic {
  import opened Wrappers
  import opened PyJson
  import Ranking

  /** What a store keeps for one id: `{"data": ..., "emb": ...}`. */
  datatype Entry = Entry(data: Json, emb: Json)

  /** A store is a dictionary from ids to entries, written as its pairs in insertion order. */
  predicate DistinctKeys(entries: seq<(string, Entry)>) {
    forall i, j | 0 <= i < j < |entries| :: entries[i].0 != entries[j].0
  }

  /** `store.get(id)`. */
  function Find(entries: seq<(string, Entry)>, id: string): (r: Option<Entry>)
    ensures r.Some? <==> exists i | 0 <= i < |entries| :: entries[i].0 == id
  {
    if entries == [] then None
    else if entries[0].0 == id then Some(entries[0].1)
    else
      var r := Find(entries[1..], id);
      assert forall i | 1 <= i < |entries| :: entries[i] == entries[1..][i - 1];
      r
  }

  /** `store[id] = e`: an existing id keeps its place and takes the new entry; a new id is
      added at the end. */
  function Upsert(entries: seq<(string, Entry)>, id: string, e: Entry): (r: seq<(string, Entry)>)
    ensures |r| == |entries| || r == entries + [(id, e)]
  {
    if entries == [] then [(id, e)]
    else if entries[0].0 == id then [(id, e)] + entries[1..]
    else
      var rest := Upsert(entries[1..], id, e);
      assert [entries[0]] + (entries[1..] + [(id, e)]) == entries + [(id, e)];
      [entries[0]] + rest
  }

  /** After an upsert the id holds the new entry and every other id holds what it held. */
  lemma {:induction false} UpsertFind(entries: seq<(string, Entry)>, id: string, e: Entry, other: string)
    ensures Find(Upsert(entries, id, e), id) == Some(e)
    ensures other != id ==> Find(Upsert(entries, id, e), other) == Find(entries, other)
  {
    if entries != [] && entries[0].0 != id {
      UpsertFind(entries[1..], id, e, other);
    }
  }

  /** Upserting an id that is present changes no key. */
  lemma {:induction false} UpsertPresent(entries: seq<(string, Entry)>, id: string, e: Entry)
    requires Find(entries, id).Some?
    ensures var r := Upsert(entries, id, e);
      |r| == |entries| && forall k | 0 <= k < |r| :: r[k].0 == entries[k].0
  {
    if entries[0].0 != id {
      UpsertPresent(entries[1..], id, e);
    }
  }

  /** Upserting a new id appends it. */
  lemma {:induction false} UpsertAbsent(entries: seq<(string, Entry)>, id: string, e: Entry)
    requires Find(entries, id).None?
    ensures Upsert(entries, id, e) == entries + [(id, e)]
  {
    if entries != [] {
      UpsertAbsent(entries[1..], id, e);
      assert [entries[0]] + (entries[1..] + [(id, e)]) == entries + [(id, e)];
    }
  }

  /** An upsert keeps one pair per id, and adds a pair exactly when the id is new. */
  lemma UpsertKeepsDistinct(entries: seq<(string, Entry)>, id: string, e: Entry)
    requires DistinctKeys(entries)
    ensures DistinctKeys(Upsert(entries, id, e))
    ensures |Upsert(entries, id, e)| == |entries| + (if Find(entries, id).None? then 1 else 0)
  {
    if Find(entries, id).Some? {
      UpsertPresent(entries, id, e);
    } else {
      UpsertAbsent(entries, id, e);
    }
  }

  // ---------------------------------------------------------------------------
  // score_cv_for_jd / score_jd_for_cv
  // ---------------------------------------------------------------------------

  const WSummary: real := 0.35
  const WSkills: real := 0.35
  const WExp: real := 0.15
  const WProj: real := 0.10
  const WFull: real := 0.05

  /** `emb[key]`: KeyError when the key is missing, TypeError when `emb` is no
      dictionary. */
  function Field(emb: Json, key: string): Option<Json> {
    if emb.JDict? then Lookup(emb.pairs, key) else None
  }

  /** The five field pairs compared, CV side first. */
  const CvFields: seq<string> := ["emb_summary", "emb_skills", "emb_experience", "emb_projects", "emb_full"]
  const JdFields: seq<string> := ["emb_description", "emb_required_skills", "emb_responsibilities", "emb_techstack", "emb_full"]

  /** `score_cv_for_jd(cv_emb, jd_emb)`, with `cosine` the similarity of two embeddings;
      None when a field is missing. The five weights sum to 1, so the score is a weighted
      average of the five cosines: it lies between their least and their greatest. */
  function ScoreCvForJd(cvEmb: Json, jdEmb: Json, cosine: (Json, Json) -> real): (r: Option<real>)
    ensures r.Some? <==> forall k | 0 <= k < 5 :: Field(cvEmb, CvFields[k]).Some? && Field(jdEmb, JdFields[k]).Some?
  {
    var cs := seq(5, k requires 0 <= k < 5 => Field(cvEmb, CvFields[k]));
    var js := seq(5, k requires 0 <= k < 5 => Field(jdEmb, JdFields[k]));
    if forall k | 0 <= k < 5 :: cs[k].Some? && js[k].Some? then
      var s := seq(5, k requires 0 <= k < 5 => cosine(cs[k].value, js[k].value));
      Some(WSummary * s[0] + WSkills * s[1] + WExp * s[2] + WProj * s[3] + WFull * s[4])
    else None
  }

  /** The five weights sum to 1: when every cosine lies in [lo, hi], so does the score. */
  lemma ScoreBetween(cvEmb: Json, jdEmb: Json, cosine: (Json, Json) -> real, lo: real, hi: real)
    requires ScoreCvForJd(cvEmb, jdEmb, cosine).Some?
    requires forall k | 0 <= k < 5 :: lo <= cosine(Field(cvEmb, CvFields[k]).value, Field(jdEmb, JdFields[k]).value) <= hi
    ensures lo <= ScoreCvForJd(cvEmb, jdEmb, cosine).value <= hi
  {
    var s := seq(5, k requires 0 <= k < 5 => cosine(Field(cvEmb, CvFields[k]).value, Field(jdEmb, JdFields[k]).value));
    assert ScoreCvForJd(cvEmb, jdEmb, cosine).value == WSummary * s[0] + WSkills * s[1] + WExp * s[2] + WProj * s[3] + WFull * s[4];
  }

  /** `score_jd_for_cv(jd_emb, cv_emb)`: the same score with the arguments swapped, so a
      pair scores the same from either side. */
  function ScoreJdForCv(jdEmb: Json, cvEmb: Json, cosine: (Json, Json) -> real): (r: Option<real>)
    ensures r == ScoreCvForJd(cvEmb, jdEmb, cosine)
  {
    ScoreCvForJd(cvEmb, jdEmb, cosine)
  }

  // ---------------------------------------------------------------------------
  // The ranking shared by find_best_candidates and find_best_jobs
  // ---------------------------------------------------------------------------

  /** One element of `scored`: `(id, data, score)`. */
  datatype Scored = Scored(id: string, data: Json, score: real)

  /** One element of `results`. */
  datatype Ranked = Ranked(target: string, semanticScore: real, llmScore: Json, reason: Json)

  function ScoreOf(s: Scored): real { s.score }

  /** Scoring every stored entry in store order; None when a score cannot be computed. */
  function ScoreAll(entries: seq<(string, Entry)>, scoreOf: Json -> Option<real>): Option<seq<Scored>> {
    if entries == [] then Some([])
    else
      var last := entries[|entries| - 1];
      match ScoreAll(entries[..|entries| - 1], scoreOf)
      case None => None
      case Some(init) =>
        match scoreOf(last.1.emb)
        case None => None
        case Some(s) => Some(init + [Scored(last.0, last.1.data, s)])
  }

  /** Scoring succeeds exactly when every entry has a score, and then lists each entry with
      its score, in store order. */
  lemma {:induction false} ScoreAllExactly(entries: seq<(string, Entry)>, scoreOf: Json -> Option<real>)
    ensures ScoreAll(entries, scoreOf).Some? <==> forall i | 0 <= i < |entries| :: scoreOf(entries[i].1.emb).Some?
    ensures ScoreAll(entries, scoreOf).Some? ==> var ss := ScoreAll(entries, scoreOf).value;
      |ss| == |entries|
      && forall i | 0 <= i < |entries| :: ss[i] == Scored(entries[i].0, entries[i].1.data, scoreOf(entries[i].1.emb).value)
  {
    if entries != [] {
      var init := entries[..|entries| - 1];
      ScoreAllExactly(init, scoreOf);
      assert forall i | 0 <= i < |init| :: init[i] == entries[i];
    }
  }

  /** `record["full_text"]` for a stored or query document. */
  function FullText(data: Json): Option<Json> {
    Field(data, "full_text")
  }

  /** One result: the first `explain` results carry the language model's score and reason
      for the pair of full texts, the others None. `queryIsJd` says which side the query is
      on, as `evaluate_match` takes the JD text first. */
  function RankedAt(s: Scored, i: nat, queryFull: Option<Json>, explain: int, queryIsJd: bool,
                    evaluate: (Json, Json) -> seq<(string, Json)>): (r: Option<Ranked>)
    ensures r.Some? <==> queryFull.Some? && FullText(s.data).Some?
    ensures r.Some? ==> r.value.target == s.id && r.value.semanticScore == s.score
    ensures r.Some? && i >= explain ==> r.value.llmScore == JNull && r.value.reason == JNull
    ensures r.Some? && i < explain ==> var q := queryFull.value; var f := FullText(s.data).value;
      var answer := if queryIsJd then evaluate(q, f) else evaluate(f, q);
      r.value.llmScore == Get(answer, "score", JNull) && r.value.reason == Get(answer, "reason", JNull)
  {
    match queryFull
    case None => None
    case Some(q) =>
      match FullText(s.data)
      case None => None
      case Some(f) =>
        if i < explain then
          var answer := if queryIsJd then evaluate(q, f) else evaluate(f, q);
          Some(Ranked(s.id, s.score, Get(answer, "score", JNull), Get(answer, "reason", JNull)))
        else Some(Ranked(s.id, s.score, JNull, JNull))
  }

  /** The results loop over `top`. */
  function Explain(top: seq<Scored>, queryFull: Option<Json>, explain: int, queryIsJd: bool,
                   evaluate: (Json, Json) -> seq<(string, Json)>): Option<seq<Ranked>>
  {
    if top == [] then Some([])
    else
      match Explain(top[..|top| - 1], queryFull, explain, queryIsJd, evaluate)
      case None => None
      case Some(rs) =>
        match RankedAt(top[|top| - 1], |top| - 1, queryFull, explain, queryIsJd, evaluate)
        case None => None
        case Some(x) => Some(rs + [x])
  }

  /** The results are built exactly when every item of `top` has its full text (and so
      does the query, if there is an item); each result keeps the item's id and score. */
  lemma {:induction false} ExplainExactly(top: seq<Scored>, queryFull: Option<Json>, explain: int, queryIsJd: bool,
                                          evaluate: (Json, Json) -> seq<(string, Json)>)
    ensures Explain(top, queryFull, explain, queryIsJd, evaluate).Some?
      <==> forall i | 0 <= i < |top| :: queryFull.Some? && FullText(top[i].data).Some?
    ensures Explain(top, queryFull, explain, queryIsJd, evaluate).Some? ==>
      var rs := Explain(top, queryFull, explain, queryIsJd, evaluate).value;
      |rs| == |top|
      && forall i | 0 <= i < |top| :: Some(rs[i]) == RankedAt(top[i], i, queryFull, explain, queryIsJd, evaluate)
  {
    if top != [] {
      var init := top[..|top| - 1];
      ExplainExactly(init, queryFull, explain, queryIsJd, evaluate);
      assert forall i | 0 <= i < |init| :: init[i] == top[i];
    }
  }

  /** Score every entry, sort by score from highest to lowest (stably), keep the first
      `topK`, and explain the first `explain` of those; [] on any error. */
  function Rank(entries: seq<(string, Entry)>, scoreOf: Json -> Option<real>, queryFull: Option<Json>,
                topK: int, explain: int, queryIsJd: bool, evaluate: (Json, Json) -> seq<(string, Json)>): seq<Ranked>
  {
    match ScoreAll(entries, scoreOf)
    case None => []
    case Some(scored) =>
      match Explain(Top(scored, topK), queryFull, explain, queryIsJd, evaluate)
      case None => []
      case Some(rs) => rs
  }

  /** The scoring loop: `scored.append((cv_id, cv_data, score))` for each stored entry. */
  method ScoreLoop(entries: seq<(string, Entry)>, scoreOf: Json -> Option<real>) returns (scored: Option<seq<Scored>>)
    ensures scored == ScoreAll(entries, scoreOf)
  {
    var acc: seq<Scored> := [];
    for i := 0 to |entries|
      invariant ScoreAll(entries[..i], scoreOf) == Some(acc)
    {
      assert entries[..i + 1][..i] == entries[..i];
      var s := scoreOf(entries[i].1.emb);
      if s.None? {
        ScoreAllExactly(entries, scoreOf);
        return None;
      }
      acc := acc + [Scored(entries[i].0, entries[i].1.data, s.value)];
    }
    assert entries[..|entries|] == entries;
    return Some(acc);
  }

  /** The results loop over `top`. */
  method ExplainLoop(top: seq<Scored>, queryFull: Option<Json>, explain: int, queryIsJd: bool,
                     evaluate: (Json, Json) -> seq<(string, Json)>)
    returns (results: Option<seq<Ranked>>)
    ensures results == Explain(top, queryFull, explain, queryIsJd, evaluate)
  {
    var acc: seq<Ranked> := [];
    for i := 0 to |top|
      invariant Explain(top[..i], queryFull, explain, queryIsJd, evaluate) == Some(acc)
    {
      assert top[..i + 1][..i] == top[..i];
      var x := RankedAt(top[i], i, queryFull, explain, queryIsJd, evaluate);
      if x.None? {
        ExplainExactly(top, queryFull, explain, queryIsJd, evaluate);
        return None;
      }
      acc := acc + [x.value];
    }
    assert top[..|top|] == top;
    return Some(acc);
  }

  /** The ranking with its loops: scoring, the sort, the slice and the results. */
  method RankLoop(entries: seq<(string, Entry)>, scoreOf: Json -> Option<real>, queryFull: Option<Json>,
                  topK: int, explain: int, queryIsJd: bool, evaluate: (Json, Json) -> seq<(string, Json)>)
    returns (results: seq<Ranked>)
    ensures results == Rank(entries, scoreOf, queryFull, topK, explain, queryIsJd, evaluate)
  {
    var scored := ScoreLoop(entries, scoreOf);
    if scored.None? {
      return [];
    }
    var top := Top(scored.value, topK);
    var explained := ExplainLoop(top, queryFull, explain, queryIsJd, evaluate);
    if explained.None? {
      return [];
    }
    results := explained.value;
  }

  /** `sorted(scored, key=lambda x: x[2], reverse=True)[:top_k]`. */
  function Top(scored: seq<Scored>, topK: int): seq<Scored> {
    Ranking.Prefix(Ranking.SortDesc(scored, ScoreOf), topK)
  }

  /** The items kept after sorting and slicing are scored entries, by non-increasing
      score, and there are min(topK, number scored) of them. */
  lemma TopItems(scored: seq<Scored>, topK: int)
    ensures var top := Top(scored, topK);
      (forall i | 0 <= i < |top| :: top[i] in scored)
      && (forall i, j | 0 <= i < j < |top| :: top[i].score >= top[j].score)
      && (topK >= 0 ==> |top| == (if topK < |scored| then topK else |scored|))
  {
    var sorted := Ranking.SortDesc(scored, ScoreOf);
    Ranking.SortDescDescending(scored, ScoreOf);
    Ranking.SortDescPermutes(scored, ScoreOf);
    var top := Top(scored, topK);
    forall i | 0 <= i < |top| ensures top[i] in scored {
      assert top[i] in multiset(scored);
    }
    forall i, j | 0 <= i < j < |top| ensures top[i].score >= top[j].score {
      assert ScoreOf(sorted[i]) >= ScoreOf(sorted[j]);
    }
  }

  /** Each kept item is a stored entry with its score. */
  lemma TopFromEntries(entries: seq<(string, Entry)>, scoreOf: Json -> Option<real>, topK: int, i: nat)
    requires ScoreAll(entries, scoreOf).Some?
    requires i < |Top(ScoreAll(entries, scoreOf).value, topK)|
    ensures var t := Top(ScoreAll(entries, scoreOf).value, topK)[i];
      exists k | 0 <= k < |entries| ::
        (entries[k].0 == t.id && entries[k].1.data == t.data && scoreOf(entries[k].1.emb) == Some(t.score))
  {
    var scored := ScoreAll(entries, scoreOf).value;
    ScoreAllExactly(entries, scoreOf);
    TopItems(scored, topK);
    var top := Top(scored, topK);
    assert top[i] in scored;
    var k :| 0 <= k < |scored| && scored[k] == top[i];
    assert top[i] == Scored(entries[k].0, entries[k].1.data, scoreOf(entries[k].1.emb).value);
  }

  /** When scoring and every result succeed, the ranking lists the results in order. */
  lemma RankResults(entries: seq<(string, Entry)>, scoreOf: Json -> Option<real>, queryFull: Option<Json>,
                    topK: int, explain: int, queryIsJd: bool, evaluate: (Json, Json) -> seq<(string, Json)>)
    requires ScoreAll(entries, scoreOf).Some?
    ensures var top := Top(ScoreAll(entries, scoreOf).value, topK);
      var r := Rank(entries, scoreOf, queryFull, topK, explain, queryIsJd, evaluate);
      (r == [] || |r| == |top|)
      && (forall i | 0 <= i < |r| :: Some(r[i]) == RankedAt(top[i], i, queryFull, explain, queryIsJd, evaluate))
  {
    var top := Top(ScoreAll(entries, scoreOf).value, topK);
    ExplainExactly(top, queryFull, explain, queryIsJd, evaluate);
  }

  /** When nothing fails, the ranking has min(topK, number of entries) results, ordered by
      score from highest to lowest; only the first `explain` carry an evaluation. */
  lemma RankShape(entries: seq<(string, Entry)>, scoreOf: Json -> Option<real>, queryFull: Option<Json>,
                  topK: int, explain: int, queryIsJd: bool, evaluate: (Json, Json) -> seq<(string, Json)>)
    requires topK >= 0 && queryFull.Some?
    requires forall i | 0 <= i < |entries| :: scoreOf(entries[i].1.emb).Some? && FullText(entries[i].1.data).Some?
    ensures var r := Rank(entries, scoreOf, queryFull, topK, explain, queryIsJd, evaluate);
      |r| == (if topK < |entries| then topK else |entries|)
      && (forall i, j | 0 <= i < j < |r| :: r[i].semanticScore >= r[j].semanticScore)
      && (forall i | 0 <= i < |r| && i >= explain :: r[i].llmScore == JNull && r[i].reason == JNull)
  {
    ScoreAllExactly(entries, scoreOf);
    var scored := ScoreAll(entries, scoreOf).value;
    var top := Top(scored, topK);
    TopItems(scored, topK);
    forall i | 0 <= i < |top| ensures FullText(top[i].data).Some? {
      TopFromEntries(entries, scoreOf, topK, i);
    }
    ExplainExactly(top, queryFull, explain, queryIsJd, evaluate);
    RankResults(entries, scoreOf, queryFull, topK, explain, queryIsJd, evaluate);
  }

  /** Every result is a stored entry with the score it was given, and no entry is listed
      twice. */
  lemma RankEntries(entries: seq<(string, Entry)>, scoreOf: Json -> Option<real>, queryFull: Option<Json>,
                    topK: int, explain: int, queryIsJd: bool, evaluate: (Json, Json) -> seq<(string, Json)>)
    requires DistinctKeys(entries)
    ensures var r := Rank(entries, scoreOf, queryFull, topK, explain, queryIsJd, evaluate);
      (forall i | 0 <= i < |r| :: exists k | 0 <= k < |entries| ::
        entries[k].0 == r[i].target && scoreOf(entries[k].1.emb) == Some(r[i].semanticScore))
      && forall i, j | 0 <= i < j < |r| :: r[i].target != r[j].target
  {
    var r := Rank(entries, scoreOf, queryFull, topK, explain, queryIsJd, evaluate);
    if ScoreAll(entries, scoreOf).Some? {
      ScoreAllExactly(entries, scoreOf);
      var scored := ScoreAll(entries, scoreOf).value;
      var sorted := Ranking.SortDesc(scored, ScoreOf);
      Ranking.SortDescPermutes(scored, ScoreOf);
      var top := Top(scored, topK);
      RankResults(entries, scoreOf, queryFull, topK, explain, queryIsJd, evaluate);
      forall i | 0 <= i < |r| ensures exists k | 0 <= k < |entries| ::
        entries[k].0 == r[i].target && scoreOf(entries[k].1.emb) == Some(r[i].semanticScore)
      {
        TopFromEntries(entries, scoreOf, topK, i);
      }
      forall i, j | 0 <= i < j < |r| ensures r[i].target != r[j].target {
        SortedIdsDistinct(entries, scored, sorted, i, j);
      }
    }
  }

  lemma SortedIdsDistinct(entries: seq<(string, Entry)>, scored: seq<Scored>, sorted: seq<Scored>, i: nat, j: nat)
    requires DistinctKeys(entries) && |scored| == |entries|
    requires forall k | 0 <= k < |scored| :: scored[k].id == entries[k].0
    requires multiset(sorted) == multiset(scored)
    requires i < j < |sorted|
    ensures sorted[i].id != sorted[j].id
  {
    Ranking.PermutationDistinct(scored, sorted);
    assert sorted[i] in multiset(scored) && sorted[j] in multiset(scored);
    var p :| 0 <= p < |scored| && scored[p] == sorted[i];
    var q :| 0 <= q < |scored| && scored[q] == sorted[j];
    if p != q {
      assert scored[p].id != scored[q].id;
    }
  }

  // ---------------------------------------------------------------------------
  // The stores
  // ---------------------------------------------------------------------------

  /** `find_best_candidates(jd_text, top_k, explain_top_n)` once the JD is parsed into
      `jdData` and embedded into `jdEmb`. */
  function BestCandidates(cvs: seq<(string, Entry)>, jdData: Json, jdEmb: Json, topK: int, explain: int,
                          cosine: (Json, Json) -> real, evaluate: (Json, Json) -> seq<(string, Json)>): seq<Ranked>
  {
    Rank(cvs, e => ScoreCvForJd(e, jdEmb, cosine), FullText(jdData), topK, explain, true, evaluate)
  }

  /** `find_best_jobs(cv_path, top_k, explain_top_n)` once the CV is parsed into `cvData`
      and embedded into `cvEmb`: the mirror image over the JD store. */
  function BestJobs(jds: seq<(string, Entry)>, cvData: Json, cvEmb: Json, topK: int, explain: int,
                    cosine: (Json, Json) -> real, evaluate: (Json, Json) -> seq<(string, Json)>): seq<Ranked>
  {
    Rank(jds, e => ScoreJdForCv(e, cvEmb, cosine), FullText(cvData), topK, explain, false, evaluate)
  }

  /** A JD listed for a CV carries the score that CV would be given against that JD. */
  lemma JobScoreIsCandidateScore(jds: seq<(string, Entry)>, cvData: Json, cvEmb: Json, topK: int, explain: int,
                                 cosine: (Json, Json) -> real, evaluate: (Json, Json) -> seq<(string, Json)>, i: nat)
    requires DistinctKeys(jds)
    requires i < |BestJobs(jds, cvData, cvEmb, topK, explain, cosine, evaluate)|
    ensures var r := BestJobs(jds, cvData, cvEmb, topK, explain, cosine, evaluate)[i];
      Find(jds, r.target).Some? && ScoreCvForJd(cvEmb, Find(jds, r.target).value.emb, cosine) == Some(r.semanticScore)
  {
    var scoreOf := e => ScoreJdForCv(e, cvEmb, cosine);
    RankEntries(jds, scoreOf, FullText(cvData), topK, explain, false, evaluate);
    var r := BestJobs(jds, cvData, cvEmb, topK, explain, cosine, evaluate)[i];
    var k :| 0 <= k < |jds| && jds[k].0 == r.target && scoreOf(jds[k].1.emb) == Some(r.semanticScore);
    FindDistinct(jds, k);
  }

  /** In a store with one pair per id, looking an id up finds its pair. */
  lemma {:induction false} FindDistinct(entries: seq<(string, Entry)>, k: nat)
    requires DistinctKeys(entries) && k < |entries|
    ensures Find(entries, entries[k].0) == Some(entries[k].1)
  {
    if k > 0 {
      FindDistinct(entries[1..], k - 1);
    }
  }

  /** The module-level `CV_STORE` and `JD_STORE`. */
  class MatchingStore {
    var cvs: seq<(string, Entry)>
    var jds: seq<(string, Entry)>

    predicate Valid()
      reads this
    {
      DistinctKeys(cvs) && DistinctKeys(jds)
    }

    constructor ()
      ensures Valid() && cvs == [] && jds == []
    {
      cvs := [];
      jds := [];
    }

    /** `upsert_cv(cv_id, cv_data, cv_emb)`. */
    method UpsertCv(id: string, data: Json, emb: Json)
      requires Valid()
      modifies this
      ensures Valid()
      ensures cvs == Upsert(old(cvs), id, Entry(data, emb)) && jds == old(jds)
    {
      UpsertKeepsDistinct(cvs, id, Entry(data, emb));
      cvs := Upsert(cvs, id, Entry(data, emb));
    }

    /** `upsert_jd(jd_id, jd_data, jd_emb)`. */
    method UpsertJd(id: string, data: Json, emb: Json)
      requires Valid()
      modifies this
      ensures Valid()
      ensures jds == Upsert(old(jds), id, Entry(data, emb)) && cvs == old(cvs)
    {
      UpsertKeepsDistinct(jds, id, Entry(data, emb));
      jds := Upsert(jds, id, Entry(data, emb));
    }

    /** `find_best_candidates`, ranking the CV store. */
    method FindBestCandidates(jdData: Json, jdEmb: Json, topK: int, explain: int,
                              cosine: (Json, Json) -> real, evaluate: (Json, Json) -> seq<(string, Json)>)
      returns (results: seq<Ranked>)
      ensures results == BestCandidates(cvs, jdData, jdEmb, topK, explain, cosine, evaluate)
    {
      results := RankLoop(cvs, e => ScoreCvForJd(e, jdEmb, cosine), FullText(jdData), topK, explain, true, evaluate);
    }

    /** `find_best_jobs`, ranking the JD store. */
    method FindBestJobs(cvData: Json, cvEmb: Json, topK: int, explain: int,
                        cosine: (Json, Json) -> real, evaluate: (Json, Json) -> seq<(string, Json)>)
      returns (results: seq<Ranked>)
      ensures results == BestJobs(jds, cvData, cvEmb, topK, explain, cosine, evaluate)
    {
      results := RankLoop(jds, e => ScoreJdForCv(e, cvEmb, cosine), FullText(cvData), topK, explain, false, evaluate);
    }
  }
}
