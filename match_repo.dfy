/** `MatchRepository`: the `match_results` collection, one score per (cv_id, job_id) pair. */
module MatchRepository {
  import opened Wrappers
  import opened PyJson
  import opened Documents

  const ScoreKey := "score"

  /** The query of `get_by_cv_job(cv_id, job_id)`. */
  function PairOf(cvId: int, jobId: int): Query {
    map["cv_id" := JInt(cvId), "job_id" := JInt(jobId)]
  }

  /** A new `MatchResult(cv_id, job_id, score)`. */
  function MatchDoc(cvId: int, jobId: int, score: real): Doc {
    map["cv_id" := JInt(cvId), "job_id" := JInt(jobId), ScoreKey := JFloat(score)]
  }

  /** The two results are for the same (cv_id, job_id) pair. */
  predicate SamePair(a: Doc, b: Doc) {
    "cv_id" in a && "cv_id" in b && "job_id" in a && "job_id" in b
    && a["cv_id"] == b["cv_id"] && a["job_id"] == b["job_id"]
  }

  /** At most one result per pair, as the unique index on (cv_id, job_id) demands. */
  predicate UniquePairs(docs: seq<Doc>) {
    forall i, j | 0 <= i < j < |docs| :: !SamePair(docs[i], docs[j])
  }

  /** The collection after `create_or_update(cv_id, job_id, score)`. */
  function Upserted(docs: seq<Doc>, cvId: int, jobId: int, score: real): seq<Doc> {
    if FirstMatch(docs, PairOf(cvId, jobId)).Some? then SetFirst(docs, PairOf(cvId, jobId), map[ScoreKey := JFloat(score)])
    else docs + [MatchDoc(cvId, jobId, score)]
  }

  /** `create_or_update(cv_id, job_id, score)`: sets the score of the pair's result when there
      is one and re-reads it, otherwise inserts a result for the pair. */
  method CreateOrUpdate(matches: Collection, cvId: int, jobId: int, score: real) returns (m: Option<Doc>)
    modifies matches
    ensures matches.docs == Upserted(old(matches.docs), cvId, jobId, score)
    ensures m == FindOne(matches.docs, PairOf(cvId, jobId))
  {
    var q := PairOf(cvId, jobId);
    var existing := FindOne(matches.docs, q);
    if existing.Some? {
      m := matches.Update(q, map[ScoreKey := JFloat(score)]);
      UpsertFinds(old(matches.docs), cvId, jobId, score);
    } else {
      var d := MatchDoc(cvId, jobId, score);
      matches.Insert(d);
      UpsertFinds(old(matches.docs), cvId, jobId, score);
      m := Some(d);
    }
  }

  /** After the call the pair has a result carrying the new score. */
  lemma UpsertFinds(docs: seq<Doc>, cvId: int, jobId: int, score: real)
    ensures var r := FindOne(Upserted(docs, cvId, jobId, score), PairOf(cvId, jobId));
      r.Some? && ScoreKey in r.value && r.value[ScoreKey] == JFloat(score)
    ensures FirstMatch(docs, PairOf(cvId, jobId)).None? ==>
      FindOne(Upserted(docs, cvId, jobId, score), PairOf(cvId, jobId)) == Some(MatchDoc(cvId, jobId, score))
  {
    var q := PairOf(cvId, jobId);
    if FirstMatch(docs, q).Some? {
      SetThenFind(docs, q, map[ScoreKey := JFloat(score)]);
    } else {
      InsertedIsFound(docs, q, MatchDoc(cvId, jobId, score));
    }
  }

  /** The call inserts at most one result, for the pair, and leaves the results of every other
      pair as they were. */
  lemma UpsertKeepsOthers(docs: seq<Doc>, cvId: int, jobId: int, score: real)
    ensures var r := Upserted(docs, cvId, jobId, score);
      |docs| <= |r| <= |docs| + 1
      && (forall j | 0 <= j < |docs| && !Matches(docs[j], PairOf(cvId, jobId)) :: r[j] == docs[j])
      && (forall j | |docs| <= j < |r| :: Matches(r[j], PairOf(cvId, jobId)))
  {
    var q := PairOf(cvId, jobId);
    if FirstMatch(docs, q).None? {
      assert Matches(MatchDoc(cvId, jobId, score), q);
    }
  }

  /** The call keeps at most one result per pair. */
  lemma UpsertKeepsUniquePairs(docs: seq<Doc>, cvId: int, jobId: int, score: real)
    requires UniquePairs(docs)
    ensures UniquePairs(Upserted(docs, cvId, jobId, score))
  {
    var q := PairOf(cvId, jobId);
    var r := Upserted(docs, cvId, jobId, score);
    if FirstMatch(docs, q).Some? {
      forall a, b | 0 <= a < b < |r| ensures !SamePair(r[a], r[b]) {
        SetScoreKeepsPair(docs, q, score, a);
        SetScoreKeepsPair(docs, q, score, b);
      }
    } else {
      var d := MatchDoc(cvId, jobId, score);
      forall a, b | 0 <= a < b < |r| ensures !SamePair(r[a], r[b]) {
        if b == |docs| {
          assert !Matches(docs[a], q);
        }
      }
    }
  }

  /** Setting the score leaves a result's pair as it was. */
  lemma SetScoreKeepsPair(docs: seq<Doc>, q: Query, score: real, x: nat)
    requires x < |docs|
    ensures var r := SetFirst(docs, q, map[ScoreKey := JFloat(score)]);
      ("cv_id" in r[x] <==> "cv_id" in docs[x]) && ("job_id" in r[x] <==> "job_id" in docs[x])
      && ("cv_id" in docs[x] ==> r[x]["cv_id"] == docs[x]["cv_id"])
      && ("job_id" in docs[x] ==> r[x]["job_id"] == docs[x]["job_id"])
  {
  }

  /** `get_by_cv_id(cv_id)`: exactly the results for that CV, in order. */
  function GetByCvId(docs: seq<Doc>, cvId: int): (r: seq<Doc>)
    ensures forall d :: d in r <==> d in docs && "cv_id" in d && d["cv_id"] == JInt(cvId)
  {
    FindAll(docs, By("cv_id", JInt(cvId)))
  }

  /** `get_by_job_id(job_id)`: exactly the results for that job, in order. */
  function GetByJobId(docs: seq<Doc>, jobId: int): (r: seq<Doc>)
    ensures forall d :: d in r <==> d in docs && "job_id" in d && d["job_id"] == JInt(jobId)
  {
    FindAll(docs, By("job_id", JInt(jobId)))
  }
}
