/** The text helpers of utils/text_utils.py, which utils/text_processing.py repeats line for
    line: keywords, the fixed list of technical skills, the experience requirement, the job
    title, normalisation, and the text a resume is embedded as. */
module TextUtils {
  import opened Wrappers
  import opened PyStr
  import opened PyJson
  import Seqs

  // ---------------------------------------------------------------------------
  // extract_keywords_from_text
  // ---------------------------------------------------------------------------

  const StopWords: set<string> := {
    "the", "a", "an", "and", "or", "but", "in", "on", "at", "to", "for",
    "of", "with", "by", "is", "are", "was", "were", "be", "been", "being",
    "have", "has", "had", "do", "does", "did", "will", "would", "could",
    "should", "may", "might", "must", "can", "this", "that", "these", "those"
  }

  /** The end of the run of ASCII letters and digits starting at `i`. */
  function AlnumRunEnd(t: string, i: nat): (e: nat)
    requires i <= |t|
    ensures i <= e <= |t|
    ensures forall k | i <= k < e :: IsAsciiAlnum(t[k])
    ensures e < |t| ==> !IsAsciiAlnum(t[e])
    decreases |t| - i
  {
    if i < |t| && IsAsciiAlnum(t[i]) then AlnumRunEnd(t, i + 1) else i
  }

  /** `t[a..b]` is a match of `\b[a-zA-Z0-9]+\b`: ASCII letters and digits with no word
      character right before or right after. */
  predicate IsToken(t: string, a: nat, b: nat) {
    a < b <= |t| && (forall k | a <= k < b :: IsAsciiAlnum(t[k]))
    && (a == 0 || !IsWordChar(t[a - 1])) && (b == |t| || !IsWordChar(t[b]))
  }

  /** `i` does not fall strictly inside a run of ASCII letters and digits. */
  predicate RunBoundary(t: string, i: nat)
    requires i <= |t|
  {
    i == 0 || i == |t| || !IsAsciiAlnum(t[i - 1]) || !IsAsciiAlnum(t[i])
  }

  /** `re.findall(r'\b[a-zA-Z0-9]+\b', t[i..])` read in `t`: a run of letters and digits is
      a match exactly when the characters around it are not word characters (a longer or
      shorter piece of the run cannot be, since letters and digits are word characters). */
  function TokensFrom(t: string, i: nat): seq<string>
    requires i <= |t|
    decreases |t| - i
  {
    if i == |t| then []
    else if IsAsciiAlnum(t[i]) then
      var e := AlnumRunEnd(t, i);
      (if IsToken(t, i, e) then [t[i..e]] else []) + TokensFrom(t, e)
    else TokensFrom(t, i + 1)
  }

  /** The tokens found are exactly the matches of the pattern that start at or after `i`. */
  lemma {:induction false} TokensExactly(t: string, i: nat, x: string)
    requires i <= |t| && RunBoundary(t, i)
    ensures x in TokensFrom(t, i) <==> exists a: nat, b: nat | i <= a && IsToken(t, a, b) :: x == t[a..b]
    decreases |t| - i
  {
    if i < |t| {
      if IsAsciiAlnum(t[i]) {
        var e := AlnumRunEnd(t, i);
        TokensExactly(t, e, x);
        if x in TokensFrom(t, i) && !(x in TokensFrom(t, e)) {
          assert IsToken(t, i, e) && x == t[i..e];
        }
        if exists a: nat, b: nat | i <= a && IsToken(t, a, b) :: x == t[a..b] {
          var a: nat, b: nat :| i <= a && IsToken(t, a, b) && x == t[a..b];
          if a < e {
            // A match starts at a run's start and ends at its end.
            assert a == i;
            assert b == e;
          }
        }
      } else {
        TokensExactly(t, i + 1, x);
        if exists a: nat, b: nat | i <= a && IsToken(t, a, b) :: x == t[a..b] {
          var a: nat, b: nat :| i <= a && IsToken(t, a, b) && x == t[a..b];
          assert a != i;
        }
      }
    }
  }

  /** The tokens that are longer than two characters and not stop words. */
  function Candidates(words: seq<string>): seq<string> {
    if words == [] then []
    else Candidates(words[..|words| - 1])
         + (var w := words[|words| - 1]; if |w| > 2 && w !in StopWords then [w] else [])
  }

  lemma {:induction false} CandidatesMembers(words: seq<string>, x: string)
    ensures x in Candidates(words) <==> x in words && |x| > 2 && x !in StopWords
  {
    if words != [] {
      var init := words[..|words| - 1];
      CandidatesMembers(init, x);
      assert words == init + [words[|words| - 1]];
    }
  }

  /** `extract_keywords_from_text(text)`. */
  function Keywords(text: string): (r: seq<string>)
    ensures NoDups(r)
  {
    Dedupe(Candidates(TokensFrom(Lower(text), 0)))
  }

  /** A keyword is exactly a match of `\b[a-zA-Z0-9]+\b` in the lower-cased text that is
      longer than two characters and is not a stop word. */
  lemma KeywordsExactly(text: string, x: string)
    ensures x in Keywords(text) <==>
      (exists a: nat, b: nat | IsToken(Lower(text), a, b) :: x == Lower(text)[a..b]) && |x| > 2 && x !in StopWords
  {
    CandidatesMembers(TokensFrom(Lower(text), 0), x);
    TokensExactly(Lower(text), 0, x);
  }

  /** A keyword is made of lower-case ASCII letters and digits. */
  lemma KeywordsLowerAlnum(text: string, x: string)
    requires x in Keywords(text)
    ensures forall k | 0 <= k < |x| :: IsDigit(x[k]) || 'a' <= x[k] <= 'z'
  {
    var low := Lower(text);
    KeywordsExactly(text, x);
    var a: nat, b: nat :| IsToken(low, a, b) && x == low[a..b];
    forall k | 0 <= k < |x| ensures IsDigit(x[k]) || 'a' <= x[k] <= 'z' {
      assert x[k] == low[a + k] == LowerChar(text[a + k]);
      LowerCharNotUpper(text[a + k]);
    }
  }

  /** `str.lower` never gives an upper-case ASCII letter. */
  lemma LowerCharNotUpper(c: char)
    ensures !('A' <= LowerChar(c) <= 'Z')
  {
  }

  // ---------------------------------------------------------------------------
  // extract_skills_from_text
  // ---------------------------------------------------------------------------

  const TechSkills: seq<string> := [
    "python", "java", "javascript", "typescript", "react", "angular", "vue",
    "node.js", "django", "flask", "spring", "express", "mongodb", "postgresql",
    "mysql", "aws", "azure", "docker", "kubernetes", "git", "linux", "windows",
    "machine learning", "ai", "data science", "analytics", "sql", "nosql",
    "html", "css", "bootstrap", "jquery", "php", "ruby", "go", "rust",
    "c++", "c#", ".net", "swift", "kotlin", "android", "ios"
  ]

  /** `str.title` on ASCII text: a letter is upper-cased when it does not follow a letter
      and lower-cased when it does ("node.js" becomes "Node.Js", "c#" stays "C#"). */
  function Title(s: string): (r: string)
    ensures |r| == |s|
    ensures forall i | 0 <= i < |s| :: IsAsciiLetter(r[i]) == IsAsciiLetter(s[i])
  {
    seq(|s|, i requires 0 <= i < |s| =>
      if 'a' <= s[i] <= 'z' && (i == 0 || !IsAsciiLetter(s[i - 1])) then (s[i] as int - 32) as char
      else if 'A' <= s[i] <= 'Z' && i > 0 && IsAsciiLetter(s[i - 1]) then (s[i] as int + 32) as char
      else s[i])
  }

  /** Title case is kept by a second application. */
  lemma TitleIdempotent(s: string)
    ensures Title(Title(s)) == Title(s)
  {
  }

  /** Lower-casing the title-cased form of a lower-case ASCII text gives the text back. */
  lemma TitleLowerRoundTrip(s: string)
    requires forall i | 0 <= i < |s| :: s[i] < 128 as char && !('A' <= s[i] <= 'Z')
    ensures Lower(Title(s)) == s
  {
  }

  /** The title-cased listed skills that occur in `low`, in list order. */
  function SkillsIn(low: string, skills: seq<string>): (r: seq<string>)
    ensures |r| <= |skills|
  {
    if skills == [] then []
    else
      var last := skills[|skills| - 1];
      SkillsIn(low, skills[..|skills| - 1]) + (if Contains(low, last) then [Title(last)] else [])
  }

  /** `extract_skills_from_text(text)`. */
  method ExtractSkillsFromText(text: string) returns (found: seq<string>)
    ensures found == SkillsIn(Lower(text), TechSkills)
  {
    found := FoundSkills(Lower(text), TechSkills);
  }

  /** The loop of `extract_skills_from_text` over the skill list. */
  method FoundSkills(textLower: string, skills: seq<string>) returns (found: seq<string>)
    ensures found == SkillsIn(textLower, skills)
  {
    found := [];
    for i := 0 to |skills|
      invariant found == SkillsIn(textLower, skills[..i])
    {
      assert skills[..i + 1][..i] == skills[..i];
      if Contains(textLower, skills[i]) {
        found := found + [Title(skills[i])];
      }
    }
    assert skills[..|skills|] == skills;
  }

  /** A skill is reported exactly when it is the title-cased form of a listed skill that
      occurs in the lower-cased text. */
  lemma {:induction false} SkillsInExactly(low: string, skills: seq<string>, x: string)
    ensures x in SkillsIn(low, skills) <==> exists i | 0 <= i < |skills| :: Contains(low, skills[i]) && x == Title(skills[i])
  {
    if skills != [] {
      var init := skills[..|skills| - 1];
      SkillsInExactly(low, init, x);
      if exists i | 0 <= i < |init| :: Contains(low, init[i]) && x == Title(init[i]) {
        var i :| 0 <= i < |init| && Contains(low, init[i]) && x == Title(init[i]);
        assert skills[i] == init[i];
      }
      if exists i | 0 <= i < |skills| :: Contains(low, skills[i]) && x == Title(skills[i]) {
        var i :| 0 <= i < |skills| && Contains(low, skills[i]) && x == Title(skills[i]);
        if i < |init| { assert skills[i] == init[i]; }
      }
    }
  }

  /** The title-cased skills, in list order. */
  function Titles(skills: seq<string>): (r: seq<string>)
    ensures |r| == |skills| && forall i | 0 <= i < |skills| :: r[i] == Title(skills[i])
  {
    seq(|skills|, i requires 0 <= i < |skills| => Title(skills[i]))
  }

  /** The skills come out in the order of the list. */
  lemma {:induction false} SkillsInListOrder(low: string, skills: seq<string>)
    ensures Seqs.Subsequence(SkillsIn(low, skills), Titles(skills))
  {
    if skills != [] {
      var init := skills[..|skills| - 1];
      SkillsInListOrder(low, init);
      var last := skills[|skills| - 1];
      assert Titles(skills) == Titles(init) + [Title(last)];
      var r := SkillsIn(low, init);
      Seqs.SubsequenceSnoc(r, Titles(init), Title(last));
      if Contains(low, last) {
        assert SkillsIn(low, skills) == r + [Title(last)];
      } else {
        assert SkillsIn(low, skills) == r;
      }
    }
  }

  // ---------------------------------------------------------------------------
  // extract_experience_requirement
  // ---------------------------------------------------------------------------

  /** An element of the requirement patterns: `(\d+)` (the captured number), `\s*`, a
      literal, or a literal character made optional by `?`. */
  datatype Piece = Number | Spaces | Lit(s: string) | Optional(c: char)

  /** `(\d+)\s*năm\s*kinh\s*nghiệm`, `(\d+)\s*years?\s*experience`,
      `kinh\s*nghiệm\s*(\d+)\s*năm`, `experience\s*(\d+)\s*years?`, `(\d+)\+\s*years?` and
      `(\d+)\+\s*năm`, in the order they are tried. */
  const Nam: string := "n\U{103}m"
  const Nghiem: string := "nghi\U{1EC7}m"
  const Patterns: seq<seq<Piece>> := [
    [Number, Spaces, Lit(Nam), Spaces, Lit("kinh"), Spaces, Lit(Nghiem)],
    [Number, Spaces, Lit("year"), Optional('s'), Spaces, Lit("experience")],
    [Lit("kinh"), Spaces, Lit(Nghiem), Spaces, Number, Spaces, Lit(Nam)],
    [Lit("experience"), Spaces, Number, Spaces, Lit("year"), Optional('s')],
    [Number, Lit("+"), Spaces, Lit("year"), Optional('s')],
    [Number, Lit("+"), Spaces, Lit(Nam)]
  ]

  function DigitRunEnd(t: string, i: nat): (e: nat)
    requires i <= |t|
    ensures i <= e <= |t| && AllDigits(t[i..e])
    ensures e < |t| ==> !IsDigit(t[e])
    decreases |t| - i
  {
    if i < |t| && IsDigit(t[i]) then
      var e := DigitRunEnd(t, i + 1);
      assert t[i..e] == [t[i]] + t[i + 1..e];
      e
    else i
  }

  function SpaceRunEnd(t: string, i: nat): (e: nat)
    requires i <= |t|
    ensures i <= e <= |t| && (e < |t| ==> !IsSpace(t[e]))
    decreases |t| - i
  {
    if i < |t| && IsSpace(t[i]) then SpaceRunEnd(t, i + 1) else i
  }

  /** Matching `pat` at `i`, with `cap` captured so far: the captured digits when it
      matches. Every quantifier in the six patterns is followed by something it cannot
      consume (digits by a non-digit, spaces by a letter, digit or `+`, the optional `s` by
      a space, a letter other than `s`, or the end), so taking the longest run at each step
      is the only way a match can go on, and this greedy reading is the regex engine's. */
  function MatchAt(t: string, pat: seq<Piece>, i: nat, cap: string): (r: Option<string>)
    requires i <= |t|
    ensures AllDigits(cap) && r.Some? ==> AllDigits(r.value)
    decreases |pat|
  {
    if pat == [] then Some(cap)
    else match pat[0]
      case Number =>
        var e := DigitRunEnd(t, i);
        if e == i then None else MatchAt(t, pat[1..], e, t[i..e])
      case Spaces => MatchAt(t, pat[1..], SpaceRunEnd(t, i), cap)
      case Lit(s) => if OccursAt(t, s, i) then MatchAt(t, pat[1..], i + |s|, cap) else None
      case Optional(c) => MatchAt(t, pat[1..], if i < |t| && t[i] == c then i + 1 else i, cap)
  }

  /** `re.search(pat, t[i..])`: the capture of the leftmost match at or after `i`. */
  function Search(t: string, pat: seq<Piece>, i: nat): (r: Option<string>)
    requires i <= |t|
    ensures r.Some? ==> AllDigits(r.value)
    ensures r.None? ==> forall j | i <= j <= |t| :: MatchAt(t, pat, j, "").None?
    decreases |t| - i
  {
    match MatchAt(t, pat, i, "")
    case Some(c) => Some(c)
    case None => if i == |t| then None else Search(t, pat, i + 1)
  }

  /** The number the first pattern that matches captures, tried in list order. */
  function FirstRequirement(low: string, pats: seq<seq<Piece>>): (r: Option<nat>) {
    if pats == [] then None
    else match Search(low, pats[0], 0)
      case Some(c) => Some(DecimalValue(c))
      case None => FirstRequirement(low, pats[1..])
  }

  /** What `extract_experience_requirement(text)` returns. */
  function ExperienceRequirement(text: string): (n: nat) {
    match FirstRequirement(Lower(text), Patterns)
    case Some(n) => n
    case None => 0
  }

  /** `extract_experience_requirement(text)`. */
  method ExtractExperienceRequirement(text: string) returns (years: nat)
    ensures years == ExperienceRequirement(text)
  {
    var textLower := Lower(text);
    for k := 0 to |Patterns|
      invariant FirstRequirement(textLower, Patterns) == FirstRequirement(textLower, Patterns[k..])
    {
      var m := Search(textLower, Patterns[k], 0);
      if m.Some? {
        return DecimalValue(m.value);
      }
      assert Patterns[k..][1..] == Patterns[k + 1..];
    }
    return 0;
  }

  /** The patterns are tried in order: the first one found anywhere in the text decides,
      whatever the later ones would find; with none found the requirement is 0. */
  lemma {:induction false} FirstPatternDecides(low: string, pats: seq<seq<Piece>>, k: nat)
    requires k < |pats| && Search(low, pats[k], 0).Some?
    requires forall j | 0 <= j < k :: Search(low, pats[j], 0).None?
    ensures FirstRequirement(low, pats) == Some(DecimalValue(Search(low, pats[k], 0).value))
  {
    if k > 0 {
      FirstPatternDecides(low, pats[1..], k - 1);
    }
  }

  lemma {:induction false} NoPatternNoRequirement(low: string, pats: seq<seq<Piece>>)
    requires forall j | 0 <= j < |pats| :: Search(low, pats[j], 0).None?
    ensures FirstRequirement(low, pats) == None
  {
    if pats != [] {
      NoPatternNoRequirement(low, pats[1..]);
    }
  }

  // ---------------------------------------------------------------------------
  // extract_job_title
  // ---------------------------------------------------------------------------

  /** 'tuyển', 'tìm', 'cần', 'recruit' and 'hiring'. */
  const HiringWords: seq<string> := ["tuy\U{1EC3}n", "t\U{EC}m", "c\U{1EA7}n", "recruit", "hiring"]

  /** A stripped line that names a hiring keyword and is shorter than 100 characters. */
  predicate IsTitleLine(line: string) {
    (exists k | 0 <= k < |HiringWords| :: Contains(Lower(line), HiringWords[k])) && |line| < 100
  }

  /** The first of `lines`, stripped, that is a title line. */
  function FirstTitleLine(lines: seq<string>): (r: Option<string>)
    ensures r.Some? ==> IsTitleLine(r.value) && exists i | 0 <= i < |lines| :: r.value == Strip(lines[i])
    ensures r.None? <==> forall i | 0 <= i < |lines| :: !IsTitleLine(Strip(lines[i]))
  {
    if lines == [] then None
    else if IsTitleLine(Strip(lines[0])) then Some(Strip(lines[0]))
    else
      var r := FirstTitleLine(lines[1..]);
      assert forall i | 1 <= i < |lines| :: lines[i] == lines[1..][i - 1];
      r
  }

  /** What `extract_job_title(text)` returns. */
  function JobTitle(text: string): string {
    match FirstTitleLine(Take(SplitOn(text, '\n'), 3))
    case Some(line) => line
    case None => "Job Position"
  }

  /** `extract_job_title(text)`. */
  method ExtractJobTitle(text: string) returns (title: string)
    ensures title == JobTitle(text)
  {
    var lines := Take(SplitOn(text, '\n'), 3);
    for i := 0 to |lines|
      invariant FirstTitleLine(lines) == FirstTitleLine(lines[i..])
    {
      var line := Strip(lines[i]);
      if IsTitleLine(line) {
        return line;
      }
      assert lines[i..][1..] == lines[i + 1..];
    }
    return "Job Position";
  }

  /** A title is taken from one of the first three lines exactly when one of them, stripped,
      names a hiring keyword and is shorter than 100 characters; it is the first such. */
  lemma JobTitleFromFirstLines(text: string)
    ensures var lines := SplitOn(text, '\n');
      (FirstTitleLine(Take(lines, 3)).Some? <==> exists i | 0 <= i < 3 && i < |lines| :: IsTitleLine(Strip(lines[i])))
      && (FirstTitleLine(Take(lines, 3)).None? ==> JobTitle(text) == "Job Position")
  {
    var lines := SplitOn(text, '\n');
    assert forall i | 0 <= i < 3 && i < |lines| :: Take(lines, 3)[i] == lines[i];
  }

  // ---------------------------------------------------------------------------
  // normalize_text
  // ---------------------------------------------------------------------------

  /** `re.sub(r'\s+', ' ', t)`: each run of whitespace becomes one space. */
  function CollapseSpaces(t: string): (r: string)
    ensures forall k | 0 <= k < |r| :: r[k] in t || r[k] == ' '
    ensures forall k | 0 <= k < |r| :: IsSpace(r[k]) ==> r[k] == ' '
    ensures forall k | 0 <= k < |r| - 1 :: !(r[k] == ' ' && r[k + 1] == ' ')
    ensures r != [] && t != [] ==> (IsSpace(r[0]) <==> IsSpace(t[0]))
    decreases |t|
  {
    if t == [] then []
    else if IsSpace(t[0]) then
      var e := SpaceRunEnd(t, 0);
      var rest := CollapseSpaces(t[e..]);
      assert rest != [] ==> !IsSpace(rest[0]);
      [' '] + rest
    else
      var rest := CollapseSpaces(t[1..]);
      [t[0]] + rest
  }

  /** The characters `[^\w\s.,!?-]` does not match. */
  predicate Allowed(c: char) { IsWordChar(c) || IsSpace(c) || c in {'.', ',', '!', '?', '-'} }

  /** `re.sub(r'[^\w\s.,!?-]', '', t)`. */
  function KeepAllowed(t: string): (r: string)
    ensures forall k | 0 <= k < |r| :: Allowed(r[k]) && r[k] in t
  {
    if t == [] then [] else (if Allowed(t[0]) then [t[0]] else []) + KeepAllowed(t[1..])
  }

  /** `normalize_text(text)`. */
  function NormalizeText(text: string): (r: string)
    ensures r == [] || (!IsSpace(r[0]) && !IsSpace(r[|r| - 1]))
  {
    Strip(KeepAllowed(CollapseSpaces(Lower(text))))
  }

  /** The normalised text is lower-case, holds only word characters, spaces and the
      punctuation `. , ! ? -`, and its only whitespace is the plain space. */
  lemma NormalizeTextShape(text: string)
    ensures var r := NormalizeText(text);
      IsLower(r) && forall k | 0 <= k < |r| :: Allowed(r[k]) && (IsSpace(r[k]) ==> r[k] == ' ')
  {
    var collapsed := CollapseSpaces(Lower(text));
    CollapsedIsLower(text);
    var kept := KeepAllowed(collapsed);
    var a := StripOffset(kept);
    var r := NormalizeText(text);
    forall k | 0 <= k < |r| ensures LowerChar(r[k]) == r[k] && Allowed(r[k]) && (IsSpace(r[k]) ==> r[k] == ' ') {
      assert r[k] == kept[a + k];
      var j :| 0 <= j < |collapsed| && collapsed[j] == r[k];
    }
  }

  /** Collapsing whitespace keeps a lower-cased text lower-case. */
  lemma CollapsedIsLower(text: string)
    ensures forall c | c in CollapseSpaces(Lower(text)) :: LowerChar(c) == c
  {
    var low := Lower(text);
    LowerIsLower(text);
    var collapsed := CollapseSpaces(low);
    forall c | c in collapsed ensures LowerChar(c) == c {
      var j :| 0 <= j < |collapsed| && collapsed[j] == c;
      if c != ' ' {
        var m :| 0 <= m < |low| && low[m] == c;
      }
    }
  }

  lemma CollapseFirst(t: string)
    requires t == "a @ b"
    ensures CollapseSpaces(t) == t
  {
    assert CollapseSpaces(t[4..]) == "b";
    assert SpaceRunEnd(t[3..], 0) == 1;
    assert CollapseSpaces(t[3..]) == " b";
    assert CollapseSpaces(t[2..]) == "@ b";
    assert SpaceRunEnd(t[1..], 0) == 1;
    assert CollapseSpaces(t[1..]) == " @ b";
  }

  lemma CollapseSecond(u: string)
    requires u == "a  b"
    ensures CollapseSpaces(u) == "a b"
  {
    assert CollapseSpaces(u[3..]) == "b";
    assert SpaceRunEnd(u[1..], 2) == 2;
    assert SpaceRunEnd(u[1..], 1) == 2;
    assert SpaceRunEnd(u[1..], 0) == 2;
    assert CollapseSpaces(u[1..]) == " b";
  }

  lemma LowerOfPlain(t: string)
    requires forall k | 0 <= k < |t| :: 'a' <= t[k] <= 'z' || t[k] == ' ' || t[k] == '@'
    ensures Lower(t) == t
  {
  }

  lemma NormalizeFirst(t: string, u: string)
    requires t == "a @ b" && u == "a  b"
    ensures NormalizeText(t) == u
  {
    LowerOfPlain(t);
    CollapseFirst(t);
    KeepFirst(t, u);
    StripWithUnchanged(u, Whitespace);
  }

  lemma KeepFirst(t: string, u: string)
    requires t == "a @ b" && u == "a  b"
    ensures KeepAllowed(t) == u
  {
    assert KeepAllowed(t[4..]) == "b";
    assert KeepAllowed(t[3..]) == " b";
    assert KeepAllowed(t[2..]) == " b";
    assert KeepAllowed(t[1..]) == "  b";
  }

  lemma NormalizeSecond(u: string, v: string)
    requires u == "a  b" && v == "a b"
    ensures NormalizeText(u) == v
  {
    LowerOfPlain(u);
    CollapseSecond(u);
    KeepSecond(v);
    StripWithUnchanged(v, Whitespace);
  }

  lemma KeepSecond(v: string)
    requires v == "a b"
    ensures KeepAllowed(v) == v
  {
    assert KeepAllowed(v[2..]) == "b";
    assert KeepAllowed(v[1..]) == " b";
  }

  /** Normalising twice can differ from normalising once: removing a character between two
      spaces leaves two spaces, which only the second pass collapses. */
  lemma NormalizeNotIdempotent(t: string)
    requires t == "a @ b"
    ensures NormalizeText(NormalizeText(t)) != NormalizeText(t)
  {
    NormalizeFirst(t, "a  b");
    NormalizeSecond("a  b", "a b");
  }

  // ---------------------------------------------------------------------------
  // create_embedding_content_from_json
  // ---------------------------------------------------------------------------

  /** The lines of every part in order, or the first failure. */
  function Collect(rs: seq<Result<seq<string>, PyError>>): (r: Result<seq<string>, PyError>)
    ensures rs == [] ==> r == Success([])
  {
    if rs == [] then Success([])
    else match Collect(rs[..|rs| - 1])
      case Failure(e) => Failure(e)
      case Success(a) =>
        match rs[|rs| - 1]
        case Failure(e) => Failure(e)
        case Success(b) => Success(a + b)
  }

  /** Once a part has failed, the later parts change nothing. */
  lemma {:induction false} CollectFailed(rs: seq<Result<seq<string>, PyError>>, k: nat)
    requires k <= |rs| && Collect(rs[..k]).Failure?
    ensures Collect(rs) == Collect(rs[..k])
    decreases |rs| - k
  {
    if k < |rs| {
      assert rs[..k + 1][..k] == rs[..k];
      CollectFailed(rs, k + 1);
    } else {
      assert rs[..k] == rs;
    }
  }

  /** Collecting one more part: the first failure, or the lines so far and the part's. */
  lemma CollectStep(rs: seq<Result<seq<string>, PyError>>, k: nat)
    requires k < |rs|
    ensures Collect(rs[..k + 1]) == match Collect(rs[..k])
      case Failure(e) => Failure(e)
      case Success(a) => (match rs[k] case Failure(e) => Failure(e) case Success(b) => Success(a + b))
  {
    assert rs[..k + 1][..k] == rs[..k];
  }

  /** One failing part, wherever it is, makes the whole collection fail. */
  lemma {:induction false} CollectFailsOnFailedPart(rs: seq<Result<seq<string>, PyError>>, i: nat)
    requires i < |rs| && rs[i].Failure?
    ensures Collect(rs).Failure?
  {
    var init := rs[..|rs| - 1];
    if i < |init| {
      assert init[i] == rs[i];
      CollectFailsOnFailedPart(init, i);
    }
  }

  /** The lines are collected only when every part succeeds. */
  lemma {:induction false} CollectSucceeded(rs: seq<Result<seq<string>, PyError>>)
    requires Collect(rs).Success?
    ensures forall k | 0 <= k < |rs| :: rs[k].Success?
  {
    if rs != [] {
      var init := rs[..|rs| - 1];
      CollectSucceeded(init);
      assert forall k | 0 <= k < |init| :: rs[k] == init[k];
    }
  }

  /** When every part succeeds, the lines are those of the parts one after another. */
  lemma {:induction false} CollectAll(rs: seq<Result<seq<string>, PyError>>, parts: seq<seq<string>>)
    requires |parts| == |rs| && forall k | 0 <= k < |rs| :: rs[k] == Success(parts[k])
    ensures Collect(rs) == Success(Concat(parts))
  {
    if rs != [] {
      CollectAll(rs[..|rs| - 1], parts[..|parts| - 1]);
    }
  }

  function Concat(parts: seq<seq<string>>): seq<string> {
    if parts == [] then [] else Concat(parts[..|parts| - 1]) + parts[|parts| - 1]
  }

  /** `"  • " + h` for each truthy highlight. */
  function Bulleted(hs: seq<Json>, show: Json -> string): (r: seq<string>)
    ensures |r| <= |hs|
  {
    if hs == [] then []
    else Bulleted(hs[..|hs| - 1], show)
         + (var h := hs[|hs| - 1]; if Truthy(h) then ["  \U{2022} " + Str(h, show)] else [])
  }

  /** The highlight lines under an entry: none without highlights; iterating a value that
      is not iterable raises. */
  function HighlightLines(hl: Json, show: Json -> string): (r: Result<seq<string>, PyError>)
    ensures !Truthy(hl) ==> r == Success([])
  {
    if !Truthy(hl) then Success([])
    else match Iterate(hl)
      case Failure(e) => Failure(e)
      case Success(hs) => Success(Bulleted(hs, show))
  }

  /** `"- " + ' '.join(parts)`, or nothing without parts. */
  function EntryLine(parts: seq<string>): (r: seq<string>)
    ensures parts == [] <==> r == []
  {
    if parts == [] then [] else ["- " + Join(parts, " ")]
  }

  /** The part `f"{prefix}{v}{suffix}"` of a truthy value. */
  function Part(v: Json, prefix: string, suffix: string, show: Json -> string): (r: seq<string>)
    ensures |r| <= 1 && (r == [] <==> !Truthy(v))
  {
    if Truthy(v) then [prefix + Str(v, show) + suffix] else []
  }

  /** One education: degree, "from school" and "(year)"; a degree that is not a string
      makes `join` raise. */
  function EducationEntry(edu: Json, show: Json -> string): (r: Result<seq<string>, PyError>)
    ensures !edu.JDict? ==> r == Success([])
  {
    if !edu.JDict? then Success([])
    else
      var degree := Get(edu.pairs, "degree", JNull);
      if Truthy(degree) && !degree.JStr? then Failure(TypeError)
      else
        Success(EntryLine(Part(degree, "", "", show) + Part(Get(edu.pairs, "school", JNull), "from ", "", show)
                          + Part(Get(edu.pairs, "year", JNull), "(", ")", show)))
  }

  /** The "(years years)" part: only for a positive number; comparing anything else that is
      truthy with 0 raises. */
  function YearsPart(years: Json, show: Json -> string): (r: Result<seq<string>, PyError>)
    ensures r.Success? && r.value != [] <==> Truthy(years) && IsNumber(years) && NumValue(years) > 0.0
  {
    if !Truthy(years) then Success([])
    else if !IsNumber(years) then Failure(TypeError)
    else if NumValue(years) > 0.0 then Success(["(" + Str(years, show) + " years)"])
    else Success([])
  }

  /** One experience: role, "at organization", "(years years)" and "in location" on one
      line, then its highlights. */
  function ExperienceEntry(exp: Json, show: Json -> string): (r: Result<seq<string>, PyError>)
    ensures !exp.JDict? ==> r == Success([])
  {
    if !exp.JDict? then Success([])
    else
      var role := Get(exp.pairs, "role", JNull);
      match YearsPart(Get(exp.pairs, "years", JNull), show)
      case Failure(e) => Failure(e)
      case Success(years) =>
        if Truthy(role) && !role.JStr? then Failure(TypeError)
        else
          var head := EntryLine(Part(role, "", "", show) + Part(Get(exp.pairs, "organization", JNull), "at ", "", show)
                                + years + Part(Get(exp.pairs, "location", JNull), "in ", "", show));
          match HighlightLines(Get(exp.pairs, "highlights", JNull), show)
          case Failure(e) => Failure(e)
          case Success(hs) => Success(head + hs)
  }

  /** One project: "- role" and its highlights, only for a project with a role. */
  function ProjectEntry(proj: Json, show: Json -> string): (r: Result<seq<string>, PyError>)
    ensures !proj.JDict? || !Truthy(Get(proj.pairs, "role", JNull)) ==> r == Success([])
  {
    if !proj.JDict? || !Truthy(Get(proj.pairs, "role", JNull)) then Success([])
    else match HighlightLines(Get(proj.pairs, "highlights", JNull), show)
      case Failure(e) => Failure(e)
      case Success(hs) => Success(["- " + Str(Get(proj.pairs, "role", JNull), show)] + hs)
  }

  /** A certification (keyed by "name") or an award (keyed by "title"): the value, "from
      issuer" and "(year)", only when the key is there; a value that is not a string makes
      `join` raise. */
  function NamedEntry(entry: Json, key: string, show: Json -> string): (r: Result<seq<string>, PyError>)
    ensures !entry.JDict? || !Truthy(Get(entry.pairs, key, JNull)) ==> r == Success([])
    ensures r.Success? ==> |r.value| <= 1
  {
    if !entry.JDict? then Success([])
    else
      var name := Get(entry.pairs, key, JNull);
      if !Truthy(name) then Success([])
      else if !name.JStr? then Failure(TypeError)
      else Success(EntryLine([name.s] + Part(Get(entry.pairs, "issuer", JNull), "from ", "", show)
                             + Part(Get(entry.pairs, "year", JNull), "(", ")", show)))
  }

  const CvFields: seq<string> := ["name", "summary", "education", "experiences", "projects", "skills",
                                  "languages", "certifications", "awards"]
  const CvLabels: seq<string> := ["Name: ", "Summary: ", "Education:", "Work Experience:", "Projects:",
                                  "Skills: ", "Languages: ", "Certifications:", "Awards:"]

  /** How one entry of section `k` is rendered. */
  function EntryOf(k: nat, show: Json -> string): Json -> Result<seq<string>, PyError> {
    if k == 2 then e => EducationEntry(e, show)
    else if k == 3 then e => ExperienceEntry(e, show)
    else if k == 4 then e => ProjectEntry(e, show)
    else if k == 7 then e => NamedEntry(e, "name", show)
    else e => NamedEntry(e, "title", show)
  }

  /** The lines of the entries of a list, in order. */
  function EntryLines(items: seq<Json>, entry: Json -> Result<seq<string>, PyError>): Result<seq<string>, PyError> {
    Collect(seq(|items|, i requires 0 <= i < |items| => entry(items[i])))
  }

  /** The lines of section `k` of the content: nothing for a missing or empty field,
      otherwise lines starting with the section's label. */
  function Block(cv: seq<(string, Json)>, k: nat, show: Json -> string): (r: Result<seq<string>, PyError>)
    requires k < 9
    ensures !Truthy(Get(cv, CvFields[k], JNull)) ==> r == Success([])
    ensures r.Success? && Truthy(Get(cv, CvFields[k], JNull)) ==>
      r.value != [] && |CvLabels[k]| <= |r.value[0]| && r.value[0][..|CvLabels[k]|] == CvLabels[k]
  {
    var v := Get(cv, CvFields[k], JNull);
    if !Truthy(v) then Success([])
    else if k <= 1 then Success([CvLabels[k] + Str(v, show)])
    else match Iterate(v)
      case Failure(e) => Failure(e)
      case Success(items) =>
        if k == 5 || k == 6 then
          match JoinItems(items, ", ")
          case Failure(e) => Failure(e)
          case Success(j) => Success([CvLabels[k] + j])
        else
          match EntryLines(items, EntryOf(k, show))
          case Failure(e) => Failure(e)
          case Success(ls) => Success([CvLabels[k]] + ls)
  }

  function Blocks(cv: seq<(string, Json)>, show: Json -> string): (r: seq<Result<seq<string>, PyError>>)
    ensures |r| == 9 && forall k | 0 <= k < 9 :: r[k] == Block(cv, k, show)
  {
    seq(9, k requires 0 <= k < 9 => Block(cv, k, show))
  }

  /** What `create_embedding_content_from_json(cv_data)` returns: the nine sections, Name to
      Awards, one after another, joined by newlines. */
  function EmbeddingContent(cv: seq<(string, Json)>, show: Json -> string): Result<string, PyError> {
    match Collect(Blocks(cv, show))
    case Failure(e) => Failure(e)
    case Success(lines) => Success(Join(lines, "\n"))
  }

  /** The loop over the entries of one section. */
  method EntryLoop(items: seq<Json>, entry: Json -> Result<seq<string>, PyError>) returns (r: Result<seq<string>, PyError>)
    ensures r == EntryLines(items, entry)
  {
    ghost var rs := seq(|items|, i requires 0 <= i < |items| => entry(items[i]));
    var lines: seq<string> := [];
    for i := 0 to |items|
      invariant Collect(rs[..i]) == Success(lines)
    {
      assert rs[..i + 1][..i] == rs[..i];
      var one := entry(items[i]);
      if one.Failure? {
        CollectFailed(rs, i + 1);
        return Failure(one.error);
      }
      lines := lines + one.value;
    }
    assert rs[..|items|] == rs;
    return Success(lines);
  }

  /** The lines of section `k`, with the entry loop for the list sections. */
  method SectionLines(cv: seq<(string, Json)>, k: nat, show: Json -> string) returns (r: Result<seq<string>, PyError>)
    requires k < 9
    ensures r == Block(cv, k, show)
  {
    var v := Get(cv, CvFields[k], JNull);
    if !Truthy(v) {
      return Success([]);
    }
    if k <= 1 {
      return Success([CvLabels[k] + Str(v, show)]);
    }
    var items := Iterate(v);
    if items.Failure? {
      return Failure(items.error);
    }
    if k == 5 || k == 6 {
      var joined := JoinItems(items.value, ", ");
      if joined.Failure? {
        return Failure(joined.error);
      }
      return Success([CvLabels[k] + joined.value]);
    }
    var lines := EntryLoop(items.value, EntryOf(k, show));
    if lines.Failure? {
      return Failure(lines.error);
    }
    return Success([CvLabels[k]] + lines.value);
  }

  /** `create_embedding_content_from_json(cv_data)`. */
  method CreateEmbeddingContent(cv: seq<(string, Json)>, show: Json -> string) returns (r: Result<string, PyError>)
    ensures r == EmbeddingContent(cv, show)
  {
    ghost var rs := Blocks(cv, show);
    var contentParts: seq<string> := [];
    for k := 0 to 9
      invariant Collect(rs[..k]) == Success(contentParts)
    {
      var block := SectionLines(cv, k, show);
      CollectStep(rs, k);
      if block.Failure? {
        CollectFailed(rs, k + 1);
        return Failure(block.error);
      }
      contentParts := contentParts + block.value;
    }
    assert rs[..9] == rs;
    return Success(Join(contentParts, "\n"));
  }

  /** A resume without any of the nine fields gives the empty text. */
  lemma EmptyCvNoContent(cv: seq<(string, Json)>, show: Json -> string)
    requires forall k | 0 <= k < 9 :: !Truthy(Get(cv, CvFields[k], JNull))
    ensures EmbeddingContent(cv, show) == Success("")
  {
    var parts := seq(9, k requires 0 <= k < 9 => []);
    CollectAll(Blocks(cv, show), parts);
    assert Concat(parts) == [] by {
      assert forall n | 0 <= n <= 9 :: Concat(parts[..n]) == [] by {
        forall n | 0 <= n <= 9 ensures Concat(parts[..n]) == [] {
          ConcatEmpty(parts, n);
        }
      }
      assert parts[..9] == parts;
    }
  }

  lemma {:induction false} ConcatEmpty(parts: seq<seq<string>>, n: nat)
    requires n <= |parts| && forall k | 0 <= k < |parts| :: parts[k] == []
    ensures Concat(parts[..n]) == []
  {
    if n > 0 {
      assert parts[..n][..n - 1] == parts[..n - 1];
      ConcatEmpty(parts, n - 1);
    }
  }

  /** An experience's years show only when they are a positive number: an experience with
      nothing but its years has a line exactly then. */
  lemma YearsOnlyWhenPositive(exp: seq<(string, Json)>, years: Json, show: Json -> string)
    requires Get(exp, "years", JNull) == years
    requires forall f | f in {"role", "organization", "location", "highlights"} :: !Truthy(Get(exp, f, JNull))
    requires !Truthy(years) || IsNumber(years)
    ensures ExperienceEntry(JDict(exp), show).Success?
    ensures ExperienceEntry(JDict(exp), show).value != [] <==> Truthy(years) && NumValue(years) > 0.0
  {
    assert !Truthy(Get(exp, "role", JNull));
    assert !Truthy(Get(exp, "organization", JNull));
    assert !Truthy(Get(exp, "location", JNull));
    assert !Truthy(Get(exp, "highlights", JNull));
  }
}
