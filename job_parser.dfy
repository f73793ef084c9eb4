/** The retrieval pipeline's job-post parser (app/server/ragmodel/dataPreprocess/jobParser.py):
    a job post is cut at its headings, its required skills are read from the comma-separated
    lines of its requirements (or else its tech stack), its responsibilities and tech stack
    bullets are condensed, and five fields come out. The language model's answers are
    parameters: `describe` for the description prompt and `condense` for the bullet prompt,
    each a function of the text put into its prompt. */
module JobParser {
  import opened PyStr
  import opened TextSections

  /** The headings `parse_jobpost` cuts the text at. */
  const JobHeadings: seq<string> := ["DESCRIPTION", "RESPONSIBILITIES", "REQUIREMENTS", "TECH STACK", "TECHNOLOGIES"]

  /** What `extract_skill_list(text)` returns. */
  function SkillList(text: string): seq<string> {
    Dedupe(CommaPieces(SplitOn(text, '\n'), NonEmpty))
  }

  /** `extract_skill_list(text)`: the stripped, non-empty pieces of the lines holding a comma,
      each once, in the order first seen; no character is filtered out. */
  method ExtractSkillList(text: string) returns (r: seq<string>)
    ensures r == SkillList(text)
    ensures NoDups(r)
  {
    var lines := SplitOn(text, '\n');
    var out: seq<string> := [];
    for i := 0 to |lines|
      invariant out == CommaPieces(lines[..i], NonEmpty)
    {
      assert lines[..i + 1][..i] == lines[..i];
      if ',' in lines[i] {
        out := out + KeptPieces(SplitOn(lines[i], ','), NonEmpty);
      }
    }
    assert lines[..|lines|] == lines;
    r := Dedupe(out);
  }

  /** A skill is listed exactly when it is a non-empty stripped piece, between two commas, of
      a line holding a comma. */
  lemma SkillListExactly(text: string, x: string)
    ensures x in SkillList(text) <==>
      x != "" && exists i | 0 <= i < |SplitOn(text, '\n')| ::
        ',' in SplitOn(text, '\n')[i] && exists j | 0 <= j < |SplitOn(SplitOn(text, '\n')[i], ',')| ::
          x == Strip(SplitOn(SplitOn(text, '\n')[i], ',')[j])
  {
    var lines := SplitOn(text, '\n');
    CommaPiecesExactly(lines, NonEmpty, x);
    forall i | 0 <= i < |lines| {
      KeptPiecesExactly(SplitOn(lines[i], ','), NonEmpty, x);
    }
  }

  /** Every skill listed is stripped and non-empty. */
  lemma SkillListStripped(text: string, x: string)
    requires x in SkillList(text)
    ensures x != "" && Strip(x) == x
  {
    SkillListExactly(text, x);
    var lines := SplitOn(text, '\n');
    var i :| 0 <= i < |lines| && ',' in lines[i] && exists j | 0 <= j < |SplitOn(lines[i], ',')| ::
      x == Strip(SplitOn(lines[i], ',')[j]);
    var j :| 0 <= j < |SplitOn(lines[i], ',')| && x == Strip(SplitOn(lines[i], ',')[j]);
    StripWithIdempotent(SplitOn(lines[i], ',')[j], Whitespace);
  }

  /** `llm_clean_desc(text)`: only the first 300 characters go into the prompt, and the
      answer comes back stripped. */
  function LlmCleanDesc(text: string, describe: string -> string): (r: string)
    ensures r == [] || (!IsSpace(r[0]) && !IsSpace(r[|r| - 1]))
  {
    Strip(describe(Take(text, 300)))
  }

  /** `llm_clean_text(text)`: nothing, and no model call, for an empty text; otherwise the
      stripped answer. A text of spaces only still goes to the model. */
  function LlmCleanText(text: string, condense: string -> string): (r: string)
    ensures text == "" ==> r == ""
    ensures text != "" ==> r == Strip(condense(text))
  {
    if text == "" then "" else Strip(condense(text))
  }

  /** The five fields `parse_jobpost` returns. */
  datatype JobPost = JobPost(jobDescription: string, requiredSkills: seq<string>, responsibilities: string,
                             techstack: string, fullText: string)

  /** The skills as read before sorting: from the requirements section, else from the tech
      stack section, else none. */
  function RawSkills(sections: map<string, string>): (r: seq<string>)
    ensures "requirements" !in sections && "tech stack" !in sections ==> r == []
  {
    if "requirements" in sections then SkillList(sections["requirements"])
    else if "tech stack" in sections then SkillList(sections["tech stack"])
    else []
  }

  /** The condensed bullets of a section, or nothing when the section is missing. */
  function BulletText(sections: map<string, string>, key: string, condense: string -> string): (r: string)
    ensures key !in sections ==> r == ""
  {
    if key in sections then LlmCleanText(Join(Bullets(SplitOn(sections[key], '\n')), "\n"), condense) else ""
  }

  /** What `parse_jobpost(jd_text)` returns. */
  function JobPostOf(jd: string, describe: string -> string, condense: string -> string): (r: JobPost)
    ensures r.fullText == Strip(jd)
    ensures StrictlyAscending(r.requiredSkills)
    ensures forall x :: x in r.requiredSkills <==> x in RawSkills(Sections(jd, JobHeadings))
    ensures "requirements" !in Sections(jd, JobHeadings) && "tech stack" !in Sections(jd, JobHeadings)
      ==> r.requiredSkills == []
    ensures "description" !in Sections(jd, JobHeadings) ==> r.jobDescription == LlmCleanDesc(jd, describe)
    ensures "responsibilities" !in Sections(jd, JobHeadings) ==> r.responsibilities == ""
    ensures "tech stack" !in Sections(jd, JobHeadings) ==> r.techstack == ""
  {
    var sections := Sections(jd, JobHeadings);
    var jobDesc := if "description" in sections then LlmCleanDesc(sections["description"], describe)
                   else LlmCleanDesc(Take(jd, 300), describe);
    var rawSkills := RawSkills(sections);
    SkillsOfStrippedPieces(rawSkills, sections);
    assert Take(Take(jd, 300), 300) == Take(jd, 300);
    JobPost(jobDesc, SortedSkills(rawSkills), BulletText(sections, "responsibilities", condense),
            BulletText(sections, "tech stack", condense), Strip(jd))
  }

  /** Re-stripping the skills read and dropping the empty ones changes nothing. */
  lemma SkillsOfStrippedPieces(rawSkills: seq<string>, sections: map<string, string>)
    requires rawSkills == RawSkills(sections)
    ensures forall x :: x in KeptPieces(rawSkills, NonEmpty) <==> x in rawSkills
  {
    forall x ensures x in KeptPieces(rawSkills, NonEmpty) <==> x in rawSkills {
      KeptPiecesExactly(rawSkills, NonEmpty, x);
      if x in rawSkills {
        RawSkillStripped(sections, x);
        var i :| 0 <= i < |rawSkills| && rawSkills[i] == x;
      }
      if x in KeptPieces(rawSkills, NonEmpty) {
        var i :| 0 <= i < |rawSkills| && x == Strip(rawSkills[i]) && NonEmpty(x);
        RawSkillStripped(sections, rawSkills[i]);
      }
    }
  }

  lemma RawSkillStripped(sections: map<string, string>, x: string)
    requires x in RawSkills(sections)
    ensures x != "" && Strip(x) == x
  {
    if "requirements" in sections {
      SkillListStripped(sections["requirements"], x);
    } else {
      SkillListStripped(sections["tech stack"], x);
    }
  }

  /** `parse_jobpost(jd_text)`. */
  method ParseJobpost(jd: string, describe: string -> string, condense: string -> string) returns (r: JobPost)
    ensures r == JobPostOf(jd, describe, condense)
  {
    var sections := FindSection(jd, JobHeadings);
    var jobDesc: string;
    if "description" in sections {
      jobDesc := LlmCleanDesc(sections["description"], describe);
    } else {
      jobDesc := LlmCleanDesc(Take(jd, 300), describe);
    }
    var resBullets := "";
    if "responsibilities" in sections {
      var bullets := ExtractBullets(sections["responsibilities"]);
      resBullets := LlmCleanText(Join(bullets, "\n"), condense);
    }
    var rawSkills: seq<string> := [];
    if "requirements" in sections {
      rawSkills := ExtractSkillList(sections["requirements"]);
    } else if "tech stack" in sections {
      rawSkills := ExtractSkillList(sections["tech stack"]);
    }
    var skills := SortedSkills(rawSkills);
    var techText := "";
    if "tech stack" in sections {
      var bullets := ExtractBullets(sections["tech stack"]);
      techText := LlmCleanText(Join(bullets, "\n"), condense);
    }
    r := JobPost(jobDesc, skills, resBullets, techText, Strip(jd));
  }
}
