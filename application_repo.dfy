/** `ApplicationRepository`: the `applications` collection, keyed by `app_id`. */
module ApplicationRepository {
  import opened Wrappers
  import opened PyJson
  import opened Documents

  const IdKey := "app_id"
  const StatusKey := "status"

  /** The statuses the `Application` model admits; the API updates an application only
      with one of them. */
  const Statuses: set<string> := {"pending", "viewed", "interviewing", "rejected", "hired"}

  /** The stored `Application` as `create` builds it: always "pending". */
  function ApplicationDoc(appId: int, jobId: int, candidateId: int, cvId: int): Doc {
    map[IdKey := JInt(appId), "job_id" := JInt(jobId), "candidate_id" := JInt(candidateId), "cv_id" := JInt(cvId),
        StatusKey := JStr("pending")]
  }

  /** The application holds one of the admitted statuses. */
  predicate KnownStatus(d: Doc) {
    StatusKey in d && d[StatusKey].JStr? && d[StatusKey].s in Statuses
  }

  /** Every application holds one of the admitted statuses. */
  predicate KnownStatuses(docs: seq<Doc>) {
    forall j | 0 <= j < |docs| :: KnownStatus(docs[j])
  }

  /** `create(job_id, candidate_id, cv_id)`: one new pending application under the next id,
      found by that id afterwards; nothing else changes. */
  method Create(apps: Collection, jobId: int, candidateId: int, cvId: int) returns (app: Doc)
    modifies apps
    ensures app == ApplicationDoc(NextId(old(apps.docs), IdKey), jobId, candidateId, cvId)
    ensures apps.docs == old(apps.docs) + [app]
    ensures app[StatusKey] == JStr("pending")
    ensures FindOne(apps.docs, By(IdKey, app[IdKey])) == Some(app)
    ensures Unique(old(apps.docs), IdKey) ==> Unique(apps.docs, IdKey)
    ensures KnownStatuses(old(apps.docs)) ==> KnownStatuses(apps.docs)
  {
    app := ApplicationDoc(NextId(apps.docs, IdKey), jobId, candidateId, cvId);
    InsertWithNextId(apps.docs, IdKey, app);
    apps.Insert(app);
  }

  /** `get_by_job_id(job_id)`: exactly the applications to that job, in order. */
  function GetByJobId(docs: seq<Doc>, jobId: int): (r: seq<Doc>)
    ensures forall d :: d in r <==> d in docs && "job_id" in d && d["job_id"] == JInt(jobId)
  {
    FindAll(docs, By("job_id", JInt(jobId)))
  }

  /** `get_by_candidate_id(candidate_id)`: exactly the applications of that candidate, in
      order. */
  function GetByCandidateId(docs: seq<Doc>, candidateId: int): (r: seq<Doc>)
    ensures forall d :: d in r <==> d in docs && "candidate_id" in d && d["candidate_id"] == JInt(candidateId)
  {
    FindAll(docs, By("candidate_id", JInt(candidateId)))
  }

  /** Updating an application's status with an admitted one keeps every status admitted. */
  lemma StatusUpdateKeepsKnown(docs: seq<Doc>, appId: int, status: string)
    requires KnownStatuses(docs) && status in Statuses
    ensures KnownStatuses(SetFirst(docs, By(IdKey, JInt(appId)), map[StatusKey := JStr(status)]))
  {
    var r: seq<Doc> := SetFirst(docs, By(IdKey, JInt(appId)), map[StatusKey := JStr(status)]);
    forall j | 0 <= j < |r| ensures KnownStatus(r[j]) {
      assert StatusKey in docs[j];
    }
  }
}
