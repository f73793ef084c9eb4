/** The scoring and classification helpers of utils/scoring.py: the skill-overlap ratio, the
    experience ratio, the weighted composite, the sum of positive experience years, the
    highest education level and the first location of a resume. db/cv_storage.py and
    db/chromaDB.py repeat the last three with other defaults; they take the default as a
    parameter here. Python floats are exact reals in this model. */
module Scoring {
  import opened Wrappers
  import opened PyStr
  import opened PyJson

  // ---------------------------------------------------------------------------
  // calculate_skill_match_score
  // ---------------------------------------------------------------------------

  /** `set(xs)`. */
  function SetOf(xs: seq<string>): set<string> { set x | x in xs }

  /** A set built from a list is no larger than the list. */
  lemma {:induction false} SetOfSize(xs: seq<string>)
    ensures |SetOf(xs)| <= |xs|
  {
    if xs != [] {
      SetOfSize(xs[1..]);
      assert SetOf(xs) == {xs[0]} + SetOf(xs[1..]);
    }
  }

  /** `[skill.lower() for skill in xs]`. */
  function LowerAll(xs: seq<string>): (r: seq<string>)
    ensures |r| == |xs| && forall i | 0 <= i < |xs| :: r[i] == Lower(xs[i])
  {
    seq(|xs|, i requires 0 <= i < |xs| => Lower(xs[i]))
  }

  /** The distinct skills, lower-cased, that both lists name. */
  function Matched(cv: seq<string>, job: seq<string>): set<string> {
    SetOf(LowerAll(cv)) * SetOf(LowerAll(job))
  }

  /** `calculate_skill_match_score(cv_skills, job_skills)`: a neutral 0.5 when the job lists no
      skill, 0 when the resume lists none, else the share of the job list that the resume
      covers, compared without case, which is never more than 1. */
  function SkillMatchScore(cv: seq<string>, job: seq<string>): (r: real)
    ensures job == [] ==> r == 0.5
    ensures job != [] && cv == [] ==> r == 0.0
    ensures 0.0 <= r <= 1.0
  {
    if job == [] then 0.5
    else if cv == [] then 0.0
    else
      MatchedSize(cv, job);
      Ratio(|Matched(cv, job)|, |job|);
      |Matched(cv, job)| as real / |job| as real
  }

  /** No more skills match than the job lists. */
  lemma MatchedSize(cv: seq<string>, job: seq<string>)
    ensures |Matched(cv, job)| <= |job|
  {
    SetOfSize(LowerAll(job));
    SubsetSize(Matched(cv, job), SetOf(LowerAll(job)));
  }

  /** A subset is no larger than its superset. */
  lemma SubsetSize(a: set<string>, b: set<string>)
    requires a <= b
    ensures |a| <= |b|
  {
    assert b == a + (b - a);
  }

  /** A share of a positive whole lies in [0, 1]. */
  lemma Ratio(m: nat, n: nat)
    requires 0 < n && m <= n
    ensures 0.0 <= m as real / n as real <= 1.0
  {
  }

  /** A larger part is a larger share. */
  lemma RatioGrows(m: nat, k: nat, n: nat)
    requires 0 < n && m <= k
    ensures m as real / n as real <= k as real / n as real
  {
  }

  /** A resume that names every skill of a job whose list has no repeat, case aside, gets the
      full score. */
  lemma FullSkillMatch(cv: seq<string>, job: seq<string>)
    requires job != []
    requires forall i | 0 <= i < |job| :: Lower(job[i]) in LowerAll(cv)
    requires NoDups(LowerAll(job))
    ensures SkillMatchScore(cv, job) == 1.0
  {
    assert cv != [] by { assert Lower(job[0]) in LowerAll(cv); }
    var l := SetOf(LowerAll(job));
    assert Matched(cv, job) == l by {
      forall x | x in l ensures x in SetOf(LowerAll(cv)) {
        var i :| 0 <= i < |job| && LowerAll(job)[i] == x;
        assert Lower(job[i]) in LowerAll(cv);
      }
    }
    DistinctSetSize(LowerAll(job));
    WholeShare(|Matched(cv, job)|, |job|);
  }

  /** A share that is the whole is 1. */
  lemma WholeShare(m: nat, n: nat)
    requires 0 < n && m == n
    ensures m as real / n as real == 1.0
  {
  }

  /** A list without repeats has as many distinct elements as it has elements. */
  lemma {:induction false} DistinctSetSize(xs: seq<string>)
    requires NoDups(xs)
    ensures |SetOf(xs)| == |xs|
  {
    if xs != [] {
      assert NoDups(xs[1..]) by {
        forall i, j | 0 <= i < j < |xs[1..]| ensures xs[1..][i] != xs[1..][j] {
          assert xs[1..][i] == xs[i + 1] && xs[1..][j] == xs[j + 1];
        }
      }
      DistinctSetSize(xs[1..]);
      assert xs[0] !in SetOf(xs[1..]) by {
        forall k | 0 <= k < |xs| - 1 ensures xs[1..][k] != xs[0] {
          assert xs[1..][k] == xs[k + 1];
        }
      }
      assert SetOf(xs) == {xs[0]} + SetOf(xs[1..]);
    }
  }

  /** A resume that names every skill of another (and at least one) scores at least as well
      against any job. */
  lemma SkillMatchGrows(cv: seq<string>, more: seq<string>, job: seq<string>)
    requires cv != []
    requires forall x | x in cv :: x in more
    ensures SkillMatchScore(cv, job) <= SkillMatchScore(more, job)
  {
    if job != [] {
      assert more != [] by { assert cv[0] in more; }
      LowerAllGrows(cv, more);
      SubsetSize(Matched(cv, job), Matched(more, job));
      RatioGrows(|Matched(cv, job)|, |Matched(more, job)|, |job|);
    }
  }

  /** Lower-casing keeps one list's names among another's. */
  lemma LowerAllGrows(cv: seq<string>, more: seq<string>)
    requires forall x | x in cv :: x in more
    ensures SetOf(LowerAll(cv)) <= SetOf(LowerAll(more))
  {
    forall y | y in SetOf(LowerAll(cv)) ensures y in SetOf(LowerAll(more)) {
      var i :| 0 <= i < |cv| && LowerAll(cv)[i] == y;
      assert cv[i] in more;
      var j :| 0 <= j < |more| && more[j] == cv[i];
      assert LowerAll(more)[j] == y;
    }
  }

  /** The score does not depend on the case of either list. */
  lemma SkillMatchIgnoresCase(cv: seq<string>, job: seq<string>)
    ensures SkillMatchScore(LowerAll(cv), LowerAll(job)) == SkillMatchScore(cv, job)
  {
    LowerAllTwice(cv);
    LowerAllTwice(job);
  }

  /** Lower-casing twice is lower-casing once. */
  lemma LowerAllTwice(xs: seq<string>)
    ensures LowerAll(LowerAll(xs)) == LowerAll(xs)
  {
    forall i | 0 <= i < |xs| ensures Lower(LowerAll(xs)[i]) == LowerAll(xs)[i] {
      var l := Lower(xs[i]);
      LowerIsLower(xs[i]);
      assert Lower(l) == l;
    }
  }

  // ---------------------------------------------------------------------------
  // calculate_experience_match_score
  // ---------------------------------------------------------------------------

  /** `calculate_experience_match_score(cv_experience, job_experience)`: a neutral 0.5 when
      nothing is required, 1 when the resume meets the requirement, else the share of the
      requirement it reaches. */
  function ExperienceMatchScore(cv: real, job: int): (r: real)
    ensures job == 0 ==> r == 0.5
    ensures job != 0 && cv >= job as real ==> r == 1.0
    ensures job != 0 && cv < job as real ==> r * job as real == cv
    ensures job > 0 && cv >= 0.0 ==> 0.0 <= r <= 1.0
  {
    if job == 0 then 0.5
    else if cv >= job as real then 1.0
    else cv / job as real
  }

  /** For a positive requirement, more experience never scores less. */
  lemma ExperienceMatchMonotone(a: real, b: real, job: int)
    requires job > 0 && a <= b
    ensures ExperienceMatchScore(a, job) <= ExperienceMatchScore(b, job)
  {
    var j := job as real;
    if b < j {
      DivideMonotone(a, b, j);
    } else if a < j {
      assert a / j < 1.0;
    }
  }

  /** Dividing by a positive number keeps the order. */
  lemma DivideMonotone(a: real, b: real, j: real)
    requires j > 0.0 && a <= b
    ensures a / j <= b / j
  {
    assert b / j - a / j == (b - a) / j;
  }

  // ---------------------------------------------------------------------------
  // calculate_composite_score
  // ---------------------------------------------------------------------------

  /** `calculate_composite_score(similarity, skill_score, experience_score)`: weights 0.4,
      0.4 and 0.2, which sum to 1, so three equal scores give that score and three scores in
      [0, 1] give one in [0, 1]. */
  function CompositeScore(similarity: real, skills: real, experience: real): (r: real)
    ensures similarity == skills == experience ==> r == similarity
    ensures 0.0 <= similarity <= 1.0 && 0.0 <= skills <= 1.0 && 0.0 <= experience <= 1.0 ==> 0.0 <= r <= 1.0
  {
    similarity * 0.4 + skills * 0.4 + experience * 0.2
  }

  /** Raising any one score never lowers the composite. */
  lemma CompositeMonotone(s: real, k: real, e: real, s': real, k': real, e': real)
    requires s <= s' && k <= k' && e <= e'
    ensures CompositeScore(s, k, e) <= CompositeScore(s', k', e')
  {
  }

  // ---------------------------------------------------------------------------
  // calculate_total_experience
  // ---------------------------------------------------------------------------

  /** What an experience entry adds: `exp.get("years", 0)` of a dictionary when it is a
      number (a boolean included) above 0, else nothing. */
  function PositiveYears(exp: Json): (r: real)
    ensures r >= 0.0
    ensures r > 0.0 <==> exp.JDict? && IsNumber(Get(exp.pairs, "years", JInt(0)))
                         && NumValue(Get(exp.pairs, "years", JInt(0))) > 0.0
  {
    if exp.JDict? then
      var years := Get(exp.pairs, "years", JInt(0));
      if IsNumber(years) && NumValue(years) > 0.0 then NumValue(years) else 0.0
    else 0.0
  }

  /** The sum of what the entries add, in order. */
  function SumYears(items: seq<Json>): (r: real)
    ensures r >= 0.0
  {
    if items == [] then 0.0 else SumYears(items[..|items| - 1]) + PositiveYears(items[|items| - 1])
  }

  /** `calculate_total_experience(cv_data)`: iterating a value that is not iterable (a
      `None`, a number) raises TypeError; otherwise the sum is never negative. */
  function TotalExperience(cv: seq<(string, Json)>): (r: Result<real, PyError>)
    ensures r.Success? <==> Iterate(Get(cv, "experiences", JList([]))).Success?
    ensures r.Failure? ==> r.error == TypeError
    ensures r.Success? ==> r.value >= 0.0
    ensures "experiences" !in KeyList(cv) ==> r == Success(0.0)
  {
    match Iterate(Get(cv, "experiences", JList([])))
    case Failure(e) => Failure(e)
    case Success(xs) => Success(SumYears(xs))
  }

  /** The loop of `calculate_total_experience`. */
  method CalculateTotalExperience(cv: seq<(string, Json)>) returns (r: Result<real, PyError>)
    ensures r == TotalExperience(cv)
  {
    var experiences := Iterate(Get(cv, "experiences", JList([])));
    if experiences.Failure? {
      return Failure(experiences.error);
    }
    var xs := experiences.value;
    var total := 0.0;
    for i := 0 to |xs|
      invariant total == SumYears(xs[..i])
    {
      assert xs[..i + 1][..i] == xs[..i];
      if xs[i].JDict? {
        var years := Get(xs[i].pairs, "years", JInt(0));
        if IsNumber(years) && NumValue(years) > 0.0 {
          total := total + NumValue(years);
        }
      }
    }
    assert xs[..|xs|] == xs;
    r := Success(total);
  }

  /** The total over two runs of entries is the sum of their totals. */
  lemma {:induction false} SumYearsAppend(a: seq<Json>, b: seq<Json>)
    ensures SumYears(a + b) == SumYears(a) + SumYears(b)
    decreases |b|
  {
    if b != [] {
      var b' := b[..|b| - 1];
      SumYearsAppend(a, b');
      assert (a + b)[..|a + b| - 1] == a + b';
      assert (a + b)[|a + b| - 1] == b[|b| - 1];
    } else {
      assert a + b == a;
    }
  }

  /** Only dictionaries with positive numeric years count: entries of any other kind add
      nothing. */
  lemma {:induction false} SumYearsOfNothing(items: seq<Json>)
    requires forall i | 0 <= i < |items| :: PositiveYears(items[i]) == 0.0
    ensures SumYears(items) == 0.0
  {
    if items != [] {
      SumYearsOfNothing(items[..|items| - 1]);
    }
  }

  /** Every entry's years are part of the total. */
  lemma SumYearsCovers(items: seq<Json>, i: nat)
    requires i < |items|
    ensures PositiveYears(items[i]) <= SumYears(items)
  {
    var pre, x, post := items[..i], items[i], items[i + 1..];
    assert items == (pre + [x]) + post;
    SumYearsAppend(pre + [x], post);
    SumYearsAppend(pre, [x]);
    assert SumYears([x]) == PositiveYears(x) by { assert [x][..0] == []; }
  }

  // ---------------------------------------------------------------------------
  // get_highest_education_level
  // ---------------------------------------------------------------------------

  /** `[edu.get("degree", "").lower() for edu in education if isinstance(edu, dict)]`: a
      degree that is not a string has no `lower` and raises AttributeError. */
  function Degrees(items: seq<Json>): (r: Result<seq<string>, PyError>)
    ensures r.Failure? ==> r.error == AttributeError
    ensures r.Success? ==> |r.value| <= |items|
  {
    if items == [] then Success([])
    else
      var rest := Degrees(items[1..]);
      if !items[0].JDict? then rest
      else
        var degree := Get(items[0].pairs, "degree", JStr(""));
        if !degree.JStr? then Failure(AttributeError)
        else if rest.Failure? then rest
        else Success([Lower(degree.s)] + rest.value)
  }

  /** The degrees are read exactly when every dictionary's degree is a string (or missing),
      and each read degree is lower-case. */
  lemma {:induction false} DegreesExactly(items: seq<Json>)
    ensures Degrees(items).Success? <==>
      forall i | 0 <= i < |items| :: items[i].JDict? ==> Get(items[i].pairs, "degree", JStr("")).JStr?
    ensures Degrees(items).Success? ==> forall i | 0 <= i < |Degrees(items).value| :: IsLower(Degrees(items).value[i])
  {
    if items != [] {
      DegreesExactly(items[1..]);
      assert forall i | 1 <= i < |items| :: items[i] == items[1..][i - 1];
      if items[0].JDict? {
        var degree := Get(items[0].pairs, "degree", JStr(""));
        if degree.JStr? {
          LowerIsLower(degree.s);
        }
      }
    }
  }

  /** Some degree holds `w`. */
  predicate AnyHas(degrees: seq<string>, w: string) {
    exists i | 0 <= i < |degrees| :: Contains(degrees[i], w)
  }

  /** The level the degrees reach: 4 for a PhD or doctorate, 3 for a master, 2 for a
      bachelor, 1 for an associate, 0 for none of these. */
  function LevelRank(degrees: seq<string>): nat {
    if AnyHas(degrees, "phd") || AnyHas(degrees, "doctorate") then 4
    else if AnyHas(degrees, "master") then 3
    else if AnyHas(degrees, "bachelor") then 2
    else if AnyHas(degrees, "associate") then 1
    else 0
  }

  /** The names of the four levels. */
  const LevelNames: seq<string> := ["Associate's", "Bachelor's", "Master's", "PhD"]

  /** The level the degrees name: the highest recognised one, else the first degree, else
      `default`. */
  function Level(degrees: seq<string>, default: string): string {
    var rank := LevelRank(degrees);
    if rank > 0 then LevelNames[rank - 1]
    else if degrees != [] then degrees[0]
    else default
  }

  /** For lower-case degrees and a default that is not a level name, the result names a
      level exactly when some degree mentions it and none mentions a higher one; otherwise
      it is the first degree, or the default when there is none. */
  lemma LevelExactly(degrees: seq<string>, default: string, rank: nat)
    requires forall i | 0 <= i < |degrees| :: IsLower(degrees[i])
    requires default !in LevelNames
    requires 1 <= rank <= 4
    ensures Level(degrees, default) == LevelNames[rank - 1] <==> LevelRank(degrees) == rank
    ensures LevelRank(degrees) == 0 ==> Level(degrees, default) == if degrees == [] then default else degrees[0]
  {
    if LevelRank(degrees) == 0 && degrees != [] {
      var d := degrees[0];
      forall k | 0 <= k < 4 ensures d != LevelNames[k] {
        assert LowerChar(LevelNames[k][0]) != LevelNames[k][0];
      }
    }
  }

  /** More degrees never lower the level. */
  lemma LevelRankGrows(degrees: seq<string>, more: seq<string>)
    ensures LevelRank(degrees) <= LevelRank(degrees + more)
  {
    forall w | AnyHas(degrees, w) ensures AnyHas(degrees + more, w) {
      var i :| 0 <= i < |degrees| && Contains(degrees[i], w);
      assert (degrees + more)[i] == degrees[i];
    }
  }

  /** The level depends only on which degrees are listed, not on their order or repeats. */
  lemma LevelRankOrderFree(degrees: seq<string>, others: seq<string>)
    requires forall d :: d in degrees <==> d in others
    ensures LevelRank(degrees) == LevelRank(others)
  {
    forall w ensures AnyHas(degrees, w) <==> AnyHas(others, w) {
      if AnyHas(degrees, w) {
        var i :| 0 <= i < |degrees| && Contains(degrees[i], w);
        assert degrees[i] in others;
      }
      if AnyHas(others, w) {
        var i :| 0 <= i < |others| && Contains(others[i], w);
        assert others[i] in degrees;
      }
    }
  }

  /** `get_highest_education_level(cv_data)`, with the value returned when there is no
      education: that value for a falsy education field, a TypeError when the field is
      truthy but not iterable, an AttributeError for a degree that is not a string, and
      otherwise the level the lower-cased degrees reach. */
  function HighestEducation(cv: seq<(string, Json)>, default: string): (r: Result<string, PyError>)
    ensures !Truthy(Get(cv, "education", JList([]))) ==> r == Success(default)
    ensures Truthy(Get(cv, "education", JList([]))) && !Iterate(Get(cv, "education", JList([]))).Success?
            ==> r == Failure(TypeError)
  {
    var education := Get(cv, "education", JList([]));
    if !Truthy(education) then Success(default)
    else
      match Iterate(education)
      case Failure(e) => Failure(e)
      case Success(items) =>
        match Degrees(items)
        case Failure(e) => Failure(e)
        case Success(degrees) => Success(Level(degrees, default))
  }

  /** The education field read as a list of lower-case degrees names the level they reach:
      "PhD" exactly when some degree mentions "phd" or "doctorate", and so on down. */
  lemma HighestEducationNames(cv: seq<(string, Json)>, default: string, rank: nat)
    requires default !in LevelNames && 1 <= rank <= 4
    requires Truthy(Get(cv, "education", JList([])))
    requires Iterate(Get(cv, "education", JList([]))).Success?
    requires Degrees(Iterate(Get(cv, "education", JList([]))).value).Success?
    ensures HighestEducation(cv, default) == Success(LevelNames[rank - 1]) <==>
      LevelRank(Degrees(Iterate(Get(cv, "education", JList([]))).value).value) == rank
  {
    var items := Iterate(Get(cv, "education", JList([]))).value;
    DegreesExactly(items);
    LevelExactly(Degrees(items).value, default, rank);
  }

  // ---------------------------------------------------------------------------
  // extract_location
  // ---------------------------------------------------------------------------

  /** An entry that is a dictionary with a truthy `location`. */
  predicate HasLocation(entry: Json) {
    entry.JDict? && Truthy(Get(entry.pairs, "location", JNull))
  }

  /** The location of the first entry that has one. */
  function FirstLocation(items: seq<Json>): (r: Option<Json>)
    ensures r.Some? ==> Truthy(r.value)
  {
    if items == [] then None
    else if HasLocation(items[0]) then Some(Get(items[0].pairs, "location", JNull))
    else FirstLocation(items[1..])
  }

  /** The location found is that of an entry that has one, with no entry before it having
      one; there is none exactly when no entry has one. */
  lemma {:induction false} FirstLocationExactly(items: seq<Json>)
    ensures FirstLocation(items).None? <==> forall i | 0 <= i < |items| :: !HasLocation(items[i])
    ensures FirstLocation(items).Some? ==> exists i | 0 <= i < |items| ::
      HasLocation(items[i]) && FirstLocation(items).value == Get(items[i].pairs, "location", JNull)
      && forall j | 0 <= j < i :: !HasLocation(items[j])
  {
    if items != [] && !HasLocation(items[0]) {
      FirstLocationExactly(items[1..]);
      assert forall i | 1 <= i < |items| :: items[i] == items[1..][i - 1];
      if FirstLocation(items).Some? {
        var i :| 0 <= i < |items[1..]| && HasLocation(items[1..][i])
          && FirstLocation(items).value == Get(items[1..][i].pairs, "location", JNull)
          && forall j | 0 <= j < i :: !HasLocation(items[1..][j]);
        assert forall j | 0 <= j < i + 1 :: !HasLocation(items[j]) by {
          forall j | 0 <= j < i + 1 ensures !HasLocation(items[j]) {
            if j > 0 { assert items[j] == items[1..][j - 1]; }
          }
        }
        assert HasLocation(items[i + 1]);
      }
    } else if items != [] {
      assert HasLocation(items[0]);
    }
  }

  /** `extract_location(cv_data)`, with the value returned when nothing is found: the first
      truthy location among the experiences, else among the activities, else the default;
      iterating a field that is not iterable raises TypeError. */
  function Location(cv: seq<(string, Json)>, default: string): (r: Result<Json, PyError>)
    ensures r.Success? ==> Truthy(r.value) || r.value == JStr(default)
    ensures r.Failure? ==> r.error == TypeError
  {
    match Iterate(Get(cv, "experiences", JList([])))
    case Failure(e) => Failure(e)
    case Success(xs) =>
      if FirstLocation(xs).Some? then Success(FirstLocation(xs).value)
      else
        match Iterate(Get(cv, "activities", JList([])))
        case Failure(e) => Failure(e)
        case Success(ys) =>
          if FirstLocation(ys).Some? then Success(FirstLocation(ys).value) else Success(JStr(default))
  }

  /** The two loops of `extract_location`, each returning at the first entry with a
      location. */
  method ExtractLocation(cv: seq<(string, Json)>, default: string) returns (r: Result<Json, PyError>)
    ensures r == Location(cv, default)
  {
    var experiences := Iterate(Get(cv, "experiences", JList([])));
    if experiences.Failure? {
      return Failure(experiences.error);
    }
    var xs := experiences.value;
    for i := 0 to |xs|
      invariant FirstLocation(xs) == FirstLocation(xs[i..])
    {
      if HasLocation(xs[i]) {
        return Success(Get(xs[i].pairs, "location", JNull));
      }
      assert xs[i..][1..] == xs[i + 1..];
    }
    var activities := Iterate(Get(cv, "activities", JList([])));
    if activities.Failure? {
      return Failure(activities.error);
    }
    var ys := activities.value;
    for i := 0 to |ys|
      invariant FirstLocation(ys) == FirstLocation(ys[i..])
    {
      if HasLocation(ys[i]) {
        return Success(Get(ys[i].pairs, "location", JNull));
      }
      assert ys[i..][1..] == ys[i + 1..];
    }
    r := Success(JStr(default));
  }

  /** Once an experience has a location, neither the activities nor the default matter. */
  lemma ExperienceLocationWins(cv: seq<(string, Json)>, other: seq<(string, Json)>, default: string, otherDefault: string)
    requires Get(cv, "experiences", JList([])) == Get(other, "experiences", JList([]))
    requires Iterate(Get(cv, "experiences", JList([]))).Success?
    requires exists i | 0 <= i < |Iterate(Get(cv, "experiences", JList([]))).value| ::
      HasLocation(Iterate(Get(cv, "experiences", JList([]))).value[i])
    ensures Location(cv, default) == Location(other, otherDefault)
  {
    FirstLocationExactly(Iterate(Get(cv, "experiences", JList([]))).value);
  }
}
