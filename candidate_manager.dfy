/** The recruiter's candidate list filter (app/client/src/components/recruiterComponents/CandidateManager.tsx):
    a candidate is shown when the search query occurs, ignoring case, in the name, the role
    or one of the skills. */
module CandidateManager {
  import opened JsText
  import Seqs

  /** A candidate as the manager lists it; the avatar, location and score it only displays are
      left out. */
  datatype Candidate = Candidate(id: int, name: string, role: string, skills: seq<string>)

  /** The test of `filteredCandidates`. */
  predicate CandidateMatches(c: Candidate, query: string) {
    || IncludesIgnoringCase(c.name, query)
    || IncludesIgnoringCase(c.role, query)
    || (exists k | k in c.skills :: IncludesIgnoringCase(k, query))
  }

  /** `filteredCandidates`: the candidates the search keeps, in list order. */
  function FilteredCandidates(cs: seq<Candidate>, query: string): (r: seq<Candidate>)
    ensures forall c :: c in r <==> c in cs && CandidateMatches(c, query)
    ensures Seqs.Subsequence(r, cs)
  {
    Seqs.FilterIsSubsequence(cs, c => CandidateMatches(c, query));
    Seqs.Filter(cs, c => CandidateMatches(c, query))
  }

  /** With an empty search box every candidate is listed. */
  lemma EmptyQueryKeepsAll(cs: seq<Candidate>)
    ensures FilteredCandidates(cs, "") == cs
  {
    forall i | 0 <= i < |cs|
      ensures CandidateMatches(cs[i], "")
    {
      IncludesEmptyQuery(cs[i].name);
    }
    Seqs.FilterAll(cs, c => CandidateMatches(c, ""));
  }

  /** Typing more characters into the search box never brings a candidate back: the longer
      query keeps a subsequence of what the shorter one keeps. */
  lemma LongerQueryNarrows(cs: seq<Candidate>, query: string, more: string)
    ensures Seqs.Subsequence(FilteredCandidates(cs, query + more), FilteredCandidates(cs, query))
  {
    forall i | 0 <= i < |cs| && CandidateMatches(cs[i], query + more)
      ensures CandidateMatches(cs[i], query)
    {
      var c := cs[i];
      if IncludesIgnoringCase(c.name, query + more) {
        IncludesPrefixOfQuery(c.name, query, more);
      } else if IncludesIgnoringCase(c.role, query + more) {
        IncludesPrefixOfQuery(c.role, query, more);
      } else {
        var k :| k in c.skills && IncludesIgnoringCase(k, query + more);
        IncludesPrefixOfQuery(k, query, more);
      }
    }
    Seqs.FilterMonotone(cs, c => CandidateMatches(c, query + more), c => CandidateMatches(c, query));
  }
}
