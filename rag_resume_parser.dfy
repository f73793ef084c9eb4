/** The retrieval pipeline's resume parser (app/server/ragmodel/dataPreprocess/resumeParser.py):
    a resume's raw text is cut at its headings, its skills are read from comma-separated
    lines, its experience and project bullets are condensed, and five fields come out.
    The language model's answers are parameters: `summarize` for the summary prompt and
    `condense` for the bullet prompt, each a function of the text put into its prompt. */
module RagResumeParser {
  import opened PyStr
  import opened TextSections

  /** The headings `build_final_cv` cuts the text at. */
  const CvHeadings: seq<string> := ["SUMMARY", "PROFESSIONAL SUMMARY", "PROFILE", "SKILLS", "EXPERIENCE", "PROJECTS"]

  // ---------------------------------------------------------------------------
  // regex_extract_skills
  // ---------------------------------------------------------------------------

  /** The regex class `[A-Za-z0-9#\+\.\-\s]`. */
  predicate IsSkillChar(c: char) { IsAsciiAlnum(c) || c in {'#', '+', '.', '-'} || IsSpace(c) }

  /** `re.match(r"[A-Za-z0-9#\+\.\-\s]+$", s)`: one or more skill characters and nothing
      else (a string whose only extra is a final newline passes too, and a newline is itself
      whitespace). */
  predicate IsSkillText(s: string) { |s| >= 1 && forall i | 0 <= i < |s| :: IsSkillChar(s[i]) }

  predicate LongerThanOne(s: string) { |s| > 1 }

  /** The candidates made only of skill characters, in order. */
  function SkillTextsOnly(xs: seq<string>): seq<string> {
    if xs == [] then []
    else SkillTextsOnly(xs[..|xs| - 1]) + (if IsSkillText(xs[|xs| - 1]) then [xs[|xs| - 1]] else [])
  }

  lemma {:induction false} SkillTextsOnlyMembers(xs: seq<string>, x: string)
    ensures x in SkillTextsOnly(xs) <==> x in xs && IsSkillText(x)
  {
    if xs != [] {
      var init := xs[..|xs| - 1];
      SkillTextsOnlyMembers(init, x);
      assert xs == init + [xs[|xs| - 1]];
    }
  }

  /** What `regex_extract_skills(text)` returns. */
  function RegexSkills(text: string): seq<string> {
    Dedupe(SkillTextsOnly(CommaPieces(SplitOn(text, '\n'), LongerThanOne)))
  }

  /** `regex_extract_skills(text)`: the stripped pieces, longer than one character, of the
      lines holding a comma; those made only of skill characters; each once, in the order
      first seen. */
  method RegexExtractSkills(text: string) returns (clean: seq<string>)
    ensures clean == RegexSkills(text)
    ensures NoDups(clean)
  {
    var lines := SplitOn(text, '\n');
    var candidates: seq<string> := [];
    for i := 0 to |lines|
      invariant candidates == CommaPieces(lines[..i], LongerThanOne)
    {
      assert lines[..i + 1][..i] == lines[..i];
      if ',' in lines[i] {
        candidates := candidates + KeptPieces(SplitOn(lines[i], ','), LongerThanOne);
      }
    }
    assert lines[..|lines|] == lines;
    clean := [];
    for i := 0 to |candidates|
      invariant clean == SkillTextsOnly(candidates[..i])
    {
      assert candidates[..i + 1][..i] == candidates[..i];
      if IsSkillText(candidates[i]) {
        clean := clean + [candidates[i]];
      }
    }
    assert candidates[..|candidates|] == candidates;
    clean := Dedupe(clean);
  }

  /** A skill is found exactly when it is the stripped piece, between two commas, of a line
      holding a comma, is longer than one character, and holds only skill characters. */
  lemma RegexSkillsExactly(text: string, x: string)
    ensures x in RegexSkills(text) <==>
      IsSkillText(x) && |x| > 1 && exists i | 0 <= i < |SplitOn(text, '\n')| ::
        ',' in SplitOn(text, '\n')[i] && exists j | 0 <= j < |SplitOn(SplitOn(text, '\n')[i], ',')| ::
          x == Strip(SplitOn(SplitOn(text, '\n')[i], ',')[j])
  {
    var lines := SplitOn(text, '\n');
    var pieces := CommaPieces(lines, LongerThanOne);
    SkillTextsOnlyMembers(pieces, x);
    CommaPiecesExactly(lines, LongerThanOne, x);
    forall i | 0 <= i < |lines| {
      KeptPiecesExactly(SplitOn(lines[i], ','), LongerThanOne, x);
    }
  }

  /** Every skill found is stripped and longer than one character. */
  lemma RegexSkillsStripped(text: string, x: string)
    requires x in RegexSkills(text)
    ensures |x| > 1 && Strip(x) == x
  {
    RegexSkillsExactly(text, x);
    var lines := SplitOn(text, '\n');
    var i :| 0 <= i < |lines| && ',' in lines[i] && exists j | 0 <= j < |SplitOn(lines[i], ',')| ::
      x == Strip(SplitOn(lines[i], ',')[j]);
    var j :| 0 <= j < |SplitOn(lines[i], ',')| && x == Strip(SplitOn(lines[i], ',')[j]);
    StripWithIdempotent(SplitOn(lines[i], ',')[j], Whitespace);
  }

  // ---------------------------------------------------------------------------
  // The language-model cleaners
  // ---------------------------------------------------------------------------

  /** `llm_clean_summary(text)`: only the first 300 characters go into the prompt, and the
      answer comes back stripped. */
  function LlmCleanSummary(text: string, summarize: string -> string): (r: string)
    ensures r == [] || (!IsSpace(r[0]) && !IsSpace(r[|r| - 1]))
  {
    Strip(summarize(Take(text, 300)))
  }

  /** `llm_clean_block(text)`: nothing, and no model call, for a text with fewer than five
      characters once stripped; otherwise the stripped answer. */
  function LlmCleanBlock(text: string, condense: string -> string): (r: string)
    ensures |Strip(text)| < 5 ==> r == ""
    ensures |Strip(text)| >= 5 ==> r == Strip(condense(text))
  {
    if text == "" || |Strip(text)| < 5 then "" else Strip(condense(text))
  }

  // ---------------------------------------------------------------------------
  // build_final_cv
  // ---------------------------------------------------------------------------

  /** The five fields `build_final_cv` returns. */
  datatype FinalCv = FinalCv(summary: string, skills: seq<string>, experienceText: string,
                             projectsText: string, fullText: string)

  /** Where the skills are read from: the skills section when there is one, else the whole
      text. */
  function SkillSource(raw: string): string {
    var sections := Sections(raw, CvHeadings);
    if "skills" in sections then sections["skills"] else raw
  }

  /** The condensed bullets of a section, or nothing when the section is missing. */
  function BulletBlock(sections: map<string, string>, key: string, condense: string -> string): (r: string)
    ensures key !in sections ==> r == ""
  {
    if key in sections then LlmCleanBlock(Join(Bullets(SplitOn(sections[key], '\n')), "\n"), condense) else ""
  }

  /** What `build_final_cv(raw_text)` returns. */
  function FinalCvOf(raw: string, summarize: string -> string, condense: string -> string): (r: FinalCv)
    ensures r.fullText == raw
    ensures StrictlyAscending(r.skills)
    ensures forall x :: x in r.skills <==> x in RegexSkills(SkillSource(raw))
    ensures "summary" !in Sections(raw, CvHeadings) ==> r.summary == LlmCleanSummary(Take(raw, 300), summarize)
    ensures "experience" !in Sections(raw, CvHeadings) ==> r.experienceText == ""
    ensures "experience" in Sections(raw, CvHeadings)
      && |Strip(Join(Bullets(SplitOn(Sections(raw, CvHeadings)["experience"], '\n')), "\n"))| < 5
      ==> r.experienceText == ""
    ensures "projects" !in Sections(raw, CvHeadings) ==> r.projectsText == ""
  {
    var sections := Sections(raw, CvHeadings);
    var summary := if "summary" in sections then LlmCleanSummary(sections["summary"], summarize)
                   else LlmCleanSummary(Take(raw, 350), summarize);
    var rawSkills := RegexSkills(SkillSource(raw));
    SkillsOfStrippedPieces(rawSkills, SkillSource(raw));
    var skills := SortedSkills(rawSkills);
    assert Take(Take(raw, 350), 300) == Take(raw, 300);
    FinalCv(summary, skills, BulletBlock(sections, "experience", condense),
            BulletBlock(sections, "projects", condense), raw)
  }

  /** Re-stripping the skills found and dropping the empty ones changes nothing. */
  lemma SkillsOfStrippedPieces(rawSkills: seq<string>, source: string)
    requires rawSkills == RegexSkills(source)
    ensures forall x :: x in KeptPieces(rawSkills, NonEmpty) <==> x in rawSkills
  {
    forall x ensures x in KeptPieces(rawSkills, NonEmpty) <==> x in rawSkills {
      KeptPiecesExactly(rawSkills, NonEmpty, x);
      if x in rawSkills {
        RegexSkillsStripped(source, x);
        var i :| 0 <= i < |rawSkills| && rawSkills[i] == x;
      }
      if x in KeptPieces(rawSkills, NonEmpty) {
        var i :| 0 <= i < |rawSkills| && x == Strip(rawSkills[i]) && NonEmpty(x);
        RegexSkillsStripped(source, rawSkills[i]);
      }
    }
  }

  /** `build_final_cv(raw_text)`. */
  method BuildFinalCv(raw: string, summarize: string -> string, condense: string -> string) returns (r: FinalCv)
    ensures r == FinalCvOf(raw, summarize, condense)
  {
    var sections := FindSection(raw, CvHeadings);
    var summary := "";
    if "summary" in sections {
      summary := LlmCleanSummary(sections["summary"], summarize);
    } else {
      summary := LlmCleanSummary(Take(raw, 350), summarize);
    }
    var rawSkills: seq<string> := [];
    if "skills" in sections {
      rawSkills := RegexExtractSkills(sections["skills"]);
    } else {
      rawSkills := RegexExtractSkills(raw);
    }
    var skills := SortedSkills(rawSkills);
    var expHighlights := "";
    if "experience" in sections {
      var bullets := ExtractBullets(sections["experience"]);
      expHighlights := LlmCleanBlock(Join(bullets, "\n"), condense);
    }
    var projHighlights := "";
    if "projects" in sections {
      var bullets := ExtractBullets(sections["projects"]);
      projHighlights := LlmCleanBlock(Join(bullets, "\n"), condense);
    }
    r := FinalCv(summary, skills, expHighlights, projHighlights, raw);
  }

  /** Two resumes with the same skills section list the same skills, whatever else they
      hold. */
  lemma SkillsFromSkillsSection(a: string, b: string, summarize: string -> string, condense: string -> string)
    requires "skills" in Sections(a, CvHeadings) && "skills" in Sections(b, CvHeadings)
    requires Sections(a, CvHeadings)["skills"] == Sections(b, CvHeadings)["skills"]
    ensures FinalCvOf(a, summarize, condense).skills == FinalCvOf(b, summarize, condense).skills
  {
    var ra := FinalCvOf(a, summarize, condense).skills;
    var rb := FinalCvOf(b, summarize, condense).skills;
    StrictlyAscendingUnique(ra, rb);
  }
}
