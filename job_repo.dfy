/** `JobRepository`: the `job_posts` collection, keyed by `job_id`. */
module JobRepository {
  import opened Wrappers
  import opened PyJson
  import opened Documents
  import Seqs

  const IdKey := "job_id"

  /** The stored `JobPost` as `create` builds it. */
  function JobDoc(jobId: int, recruiterId: int, title: string, role: string, location: string, jobType: string,
                  experienceLevel: string, skills: seq<string>, salaryMin: Option<real>, salaryMax: Option<real>,
                  fullText: Option<string>, pdfUrl: Option<string>): Doc
  {
    map[IdKey := JInt(jobId), "recruiter_id" := JInt(recruiterId), "title" := JStr(title), "role" := JStr(role),
        "location" := JStr(location), "job_type" := JStr(jobType), "experience_level" := JStr(experienceLevel),
        "skills" := Strs(skills), "salary_min" := OptReal(salaryMin), "salary_max" := OptReal(salaryMax),
        "full_text" := OptStr(fullText), "pdf_url" := OptStr(pdfUrl)]
  }

  /** `create(...)`: one new job under the next id, found by that id afterwards; nothing
      else changes. */
  method Create(jobs: Collection, recruiterId: int, title: string, role: string, location: string, jobType: string,
                experienceLevel: string, skills: seq<string>, salaryMin: Option<real>, salaryMax: Option<real>,
                fullText: Option<string>, pdfUrl: Option<string>)
    returns (job: Doc)
    modifies jobs
    ensures job == JobDoc(NextId(old(jobs.docs), IdKey), recruiterId, title, role, location, jobType, experienceLevel,
                          skills, salaryMin, salaryMax, fullText, pdfUrl)
    ensures jobs.docs == old(jobs.docs) + [job]
    ensures FindOne(jobs.docs, By(IdKey, job[IdKey])) == Some(job)
    ensures Unique(old(jobs.docs), IdKey) ==> Unique(jobs.docs, IdKey)
  {
    job := JobDoc(NextId(jobs.docs, IdKey), recruiterId, title, role, location, jobType, experienceLevel, skills,
                  salaryMin, salaryMax, fullText, pdfUrl);
    InsertWithNextId(jobs.docs, IdKey, job);
    jobs.Insert(job);
  }

  /** `get_all()`, a `find()` with no condition: every job, in order. */
  function GetAll(docs: seq<Doc>): (r: seq<Doc>)
    ensures r == docs
  {
    Seqs.FilterAll(docs, Matching(map[]));
    FindAll(docs, map[])
  }
}
