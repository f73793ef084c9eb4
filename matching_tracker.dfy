/** The recruiter's job list filter (app/client/src/components/recruiterComponents/MatchingTracker.tsx):
    a job post is shown when the search query occurs, ignoring case, in its title, in one of
    its tags or in one of its top skills. */
module MatchingTracker {
  import opened JsText
  import Seqs

  /** A job post as the tracker lists it; the counters and dates it only displays are left out. */
  datatype JobPost = JobPost(id: int, title: string, tags: seq<string>, topSkills: seq<string>)

  /** The test of `filteredJobs`. */
  predicate JobMatches(job: JobPost, query: string) {
    || IncludesIgnoringCase(job.title, query)
    || (exists t | t in job.tags :: IncludesIgnoringCase(t, query))
    || (exists k | k in job.topSkills :: IncludesIgnoringCase(k, query))
  }

  /** `filteredJobs`: the job posts the search keeps, in list order. */
  function FilteredJobs(jobs: seq<JobPost>, query: string): (r: seq<JobPost>)
    ensures forall j :: j in r <==> j in jobs && JobMatches(j, query)
    ensures Seqs.Subsequence(r, jobs)
  {
    Seqs.FilterIsSubsequence(jobs, job => JobMatches(job, query));
    Seqs.Filter(jobs, job => JobMatches(job, query))
  }

  /** With an empty search box every job is listed. */
  lemma EmptyQueryKeepsAll(jobs: seq<JobPost>)
    ensures FilteredJobs(jobs, "") == jobs
  {
    forall i | 0 <= i < |jobs|
      ensures JobMatches(jobs[i], "")
    {
      IncludesEmptyQuery(jobs[i].title);
    }
    Seqs.FilterAll(jobs, job => JobMatches(job, ""));
  }

  /** The "No matches found" card is shown exactly when no job post matches the query. */
  predicate ShowsEmptyState(jobs: seq<JobPost>, query: string) {
    |FilteredJobs(jobs, query)| == 0
  }

  lemma EmptyStateIffNoMatch(jobs: seq<JobPost>, query: string)
    ensures ShowsEmptyState(jobs, query) <==> forall i | 0 <= i < |jobs| :: !JobMatches(jobs[i], query)
  {
    Seqs.FilterEmpty(jobs, job => JobMatches(job, query));
  }
}
