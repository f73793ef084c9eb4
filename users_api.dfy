/** The client's user API helpers (app/client/src/api/users.ts): the bearer header,
    the normalisation of the experience answer and the profile payloads. */
module UsersApi {
  import opened Wrappers
  import PyStr
  import opened JsText

  /** `getAuthHeader`: the stored token (`null` when absent) becomes a bearer header when non-empty. */
  function AuthHeader(token: Option<string>): (h: map<string, string>)
    ensures "Authorization" in h <==> token.Some? && token.value != ""
    ensures "Authorization" in h ==> h["Authorization"] == "Bearer " + token.value
    ensures h.Keys <= {"Authorization"}
  {
    if token.Some? && token.value != "" then map["Authorization" := "Bearer " + token.value] else map[]
  }

  /** `s.replace("+", "")` with a string pattern: only the FIRST `+` is removed. */
  function RemoveFirstPlus(s: string): (r: string)
    ensures '+' !in s ==> r == s
    ensures '+' in s ==> |r| == |s| - 1
  {
    var i := PyStr.IndexOf(s, '+');
    if i == |s| then s else s[..i] + s[i + 1..]
  }

  /** `isNaN(n) ? null : String(n)`; `String(-0)` is "0" like `String(0)`. */
  function NumberText(n: Option<int>): Option<string> {
    if n.None? then None else Some(PyStr.IntToDecimal(n.value))
  }

  /** `normalizeExperience`: the experience answer ("0-1", "3-5", "10+", ...) as the
      text of a whole number of years, or `None` (`null`). */
  function NormalizeExperience(exp: Option<string>): (r: Option<string>)
    ensures exp.None? || exp.value == "" ==> r.None?
  {
    if exp.None? || exp.value == "" then None else NormalizeTrimmed(Trim(exp.value))
  }

  /** The three shapes of a trimmed, non-empty answer: "n+", "n-m" and "n". */
  function NormalizeTrimmed(e: string): Option<string> {
    if PyStr.EndsWith(e, "+") then NumberText(ParseInt(Trim(RemoveFirstPlus(e))))
    else if '-' in e then NumberText(ParseInt(Trim(PyStr.SplitOn(e, '-')[0])))
    else NumberText(ParseInt(e))
  }

  /** The normalised text of a digit string `d`: its value written without leading zeros. */
  function DigitsText(d: string): string
    requires PyStr.AllDigits(d)
  {
    PyStr.NatToDecimal(PyStr.DecimalValue(d))
  }

  /** A trimmed answer goes straight to the shape analysis. */
  lemma NormalizeOfTrimmed(s: string)
    requires s != "" && Trim(s) == s
    ensures NormalizeExperience(Some(s)) == NormalizeTrimmed(s)
  {
  }

  /** The text of the number that `parseInt` reads from `s`, which starts with `k` digits. */
  lemma NumberTextOfDigits(s: string, k: nat)
    requires 0 < k <= |s| && PyStr.AllDigits(s[..k])
    requires k == |s| || !PyStr.IsDigit(s[k])
    ensures NumberText(ParseInt(s)) == Some(DigitsText(s[..k]))
  {
    ParseIntOfDigits(s, k);
  }

  /** A non-empty digit string `d` normalises to its value. */
  lemma NormalizeDigits(d: string)
    requires d != [] && PyStr.AllDigits(d)
    ensures NormalizeExperience(Some(d)) == Some(DigitsText(d))
  {
    TrimOfDigits(d);
    assert !PyStr.EndsWith(d, "+") by { assert PyStr.IsDigit(d[|d| - 1]); }
    assert '-' !in d by { assert forall i | 0 <= i < |d| :: PyStr.IsDigit(d[i]); }
    assert d[..|d|] == d;
    NumberTextOfDigits(d, |d|);
  }

  /** A plain number of years normalises to itself. */
  lemma NormalizeNumber(n: nat)
    ensures NormalizeExperience(Some(PyStr.NatToDecimal(n))) == Some(PyStr.NatToDecimal(n))
  {
    NormalizeDigits(PyStr.NatToDecimal(n));
    PyStr.DecimalRoundTrip(n);
  }

  /** An open range "n+": digits followed by one `+` normalise to the digits' value. */
  lemma NormalizeOpenRangeForm(s: string)
    requires |s| >= 2 && s[|s| - 1] == '+' && PyStr.AllDigits(s[..|s| - 1])
    ensures NormalizeExperience(Some(s)) == Some(DigitsText(s[..|s| - 1]))
  {
    var d := s[..|s| - 1];
    assert PyStr.IsDigit(d[0]) && s[0] == d[0];
    TrimOfPlain(s);
    NormalizeOfTrimmed(s);
    OpenRangeBranch(s);
    PlusAfterDigits(s);
    TrimOfDigits(d);
    NormalizeDigitsTrimmed(d);
  }

  /** A trimmed answer that ends with `+` takes the open-range branch. */
  lemma OpenRangeBranch(e: string)
    requires e != [] && e[|e| - 1] == '+'
    ensures NormalizeTrimmed(e) == NumberText(ParseInt(Trim(RemoveFirstPlus(e))))
  {
    assert PyStr.EndsWith(e, "+");
  }

  /** Removing the first `+` of digits followed by one `+` leaves the digits. */
  lemma PlusAfterDigits(s: string)
    requires |s| >= 1 && s[|s| - 1] == '+' && PyStr.AllDigits(s[..|s| - 1])
    ensures RemoveFirstPlus(s) == s[..|s| - 1]
  {
    var d := s[..|s| - 1];
    assert PyStr.IndexOf(s, '+') == |d| by {
      assert forall i | 0 <= i < |d| :: s[i] == d[i] && PyStr.IsDigit(d[i]);
    }
  }

  lemma NormalizeDigitsTrimmed(d: string)
    requires d != [] && PyStr.AllDigits(d)
    ensures NumberText(ParseInt(d)) == Some(DigitsText(d))
  {
    assert d[..|d|] == d;
    NumberTextOfDigits(d, |d|);
  }

  /** "n+" normalises to "n". */
  lemma NormalizeOpenRange(n: nat)
    ensures NormalizeExperience(Some(PyStr.NatToDecimal(n) + "+")) == Some(PyStr.NatToDecimal(n))
  {
    var s := PyStr.NatToDecimal(n) + "+";
    assert s[..|s| - 1] == PyStr.NatToDecimal(n);
    NormalizeOpenRangeForm(s);
    PyStr.DecimalRoundTrip(n);
  }

  /** A range "n-...": digits followed by a dash normalise to the digits' value,
      whatever follows the dash. */
  lemma NormalizeRangeForm(s: string, k: nat)
    requires 0 < k < |s| && PyStr.AllDigits(s[..k]) && s[k] == '-'
    ensures NormalizeExperience(Some(s)) == Some(DigitsText(s[..k]))
  {
    assert PyStr.IsDigit(s[..k][0]) && PyStr.IsDigit(s[..k][k - 1]);
    TrimKeepsHead(s, k);
    var j: nat :| k <= j <= |s| && Trim(s) == s[..j];
    var e := s[..j];
    assert e[..k] == s[..k];
    NormalizeOfTrimmed(e);
    if j == k {
      NormalizeDigitsTrimmed(e);
      NormalizeDigitsNoShape(e);
    } else {
      NormalizeTrimmedRange(e, k);
    }
  }

  /** A digit string takes the plain-number branch. */
  lemma NormalizeDigitsNoShape(d: string)
    requires d != [] && PyStr.AllDigits(d)
    ensures NormalizeTrimmed(d) == NumberText(ParseInt(d))
  {
    assert !PyStr.EndsWith(d, "+") by { assert PyStr.IsDigit(d[|d| - 1]); }
    assert '-' !in d by { assert forall i | 0 <= i < |d| :: PyStr.IsDigit(d[i]); }
  }

  /** The shape analysis of a trimmed answer made of `k` digits, a dash and more. */
  lemma NormalizeTrimmedRange(e: string, k: nat)
    requires 0 < k < |e| && PyStr.AllDigits(e[..k]) && e[k] == '-'
    ensures NormalizeTrimmed(e) == Some(DigitsText(e[..k]))
  {
    if PyStr.EndsWith(e, "+") {
      OpenRangeBranch(e);
      RangeWithPlus(e, k);
    } else {
      RangeWithoutPlus(e, k);
    }
  }

  /** "n-...+": the `+` removed first, the digits before the dash are read. */
  lemma RangeWithPlus(e: string, k: nat)
    requires 0 < k < |e| && PyStr.AllDigits(e[..k]) && e[k] == '-' && PyStr.EndsWith(e, "+")
    ensures NumberText(ParseInt(Trim(RemoveFirstPlus(e)))) == Some(DigitsText(e[..k]))
  {
    NoPlusInHead(e, k);
    var x := RemoveFirstPlus(e);
    RemoveFirstPlusKeepsHead(e, k);
    assert x[..k] == e[..k] && x[k] == '-' by { assert x[..k + 1] == e[..k + 1]; }
    DigitsDashRead(x, k);
  }

  /** Digits and a dash hold no `+`. */
  lemma NoPlusInHead(e: string, k: nat)
    requires k < |e| && PyStr.AllDigits(e[..k]) && e[k] == '-'
    ensures '+' !in e[..k + 1]
  {
    var h := e[..k + 1];
    forall i | 0 <= i < |h| ensures h[i] != '+' {
      if i < k {
        assert h[i] == e[..k][i];
      }
    }
  }

  /** The text of a trimmed number read from `k` digits followed by a dash. */
  lemma DigitsDashRead(x: string, k: nat)
    requires 0 < k < |x| && PyStr.AllDigits(x[..k]) && x[k] == '-'
    ensures NumberText(ParseInt(Trim(x))) == Some(DigitsText(x[..k]))
  {
    var d := x[..k];
    assert PyStr.IsDigit(d[0]) && PyStr.IsDigit(d[k - 1]);
    TrimKeepsHead(x, k);
    var j: nat :| k <= j <= |x| && Trim(x) == x[..j];
    assert x[..j][..k] == d;
    assert j == k || x[..j][k] == '-';
    NumberTextOfDigits(x[..j], k);
  }

  /** "n-..." without a final `+`: the part before the first dash is read. */
  lemma RangeWithoutPlus(e: string, k: nat)
    requires 0 < k < |e| && PyStr.AllDigits(e[..k]) && e[k] == '-' && !PyStr.EndsWith(e, "+")
    ensures NormalizeTrimmed(e) == Some(DigitsText(e[..k]))
  {
    var d := e[..k];
    assert forall i | 0 <= i < k :: e[i] == d[i] && PyStr.IsDigit(e[i]);
    assert '-' in e;
    assert PyStr.IndexOf(e, '-') == k;
    assert PyStr.SplitOn(e, '-')[0] == d;
    TrimOfDigits(d);
    NormalizeDigitsTrimmed(d);
  }

  /** Removing the first `+` of a text that ends with one keeps its first `k + 1`
      characters when none of them is a `+`. */
  lemma RemoveFirstPlusKeepsHead(e: string, k: nat)
    requires k < |e| && PyStr.EndsWith(e, "+") && '+' !in e[..k + 1]
    ensures |RemoveFirstPlus(e)| > k && RemoveFirstPlus(e)[..k + 1] == e[..k + 1]
  {
    var i := PyStr.IndexOf(e, '+');
    assert e[|e| - 1] == '+';
    assert i > k by { assert forall t | 0 <= t <= k :: e[t] == e[..k + 1][t]; }
  }

  /** "n-m" normalises to "n", whatever follows the dash. */
  lemma NormalizeRange(n: nat, m: string)
    ensures NormalizeExperience(Some(PyStr.NatToDecimal(n) + "-" + m)) == Some(PyStr.NatToDecimal(n))
  {
    var d := PyStr.NatToDecimal(n);
    var s := d + "-" + m;
    assert s[..|d|] == d && s[|d|] == '-';
    NormalizeRangeForm(s, |d|);
    PyStr.DecimalRoundTrip(n);
  }

  /** A negative number ("-5") is read as a range with an empty lower end, so it is
      dropped. */
  lemma NormalizeNegative(s: string)
    requires |s| >= 2 && s[0] == '-' && !IsJsSpace(s[|s| - 1]) && s[|s| - 1] != '+'
    ensures NormalizeExperience(Some(s)) == None
  {
    TrimOfPlain(s);
    NormalizeOfTrimmed(s);
    NormalizeDashFirst(s);
  }

  /** An answer without digits, signs or dashes ("abc") is dropped. */
  lemma NormalizeWords(s: string)
    requires forall i | 0 <= i < |s| :: !PyStr.IsDigit(s[i]) && s[i] != '-' && s[i] != '+'
    ensures NormalizeExperience(Some(s)) == None
  {
    if s != "" {
      var t := Trim(s);
      TrimWithin(s);
      forall i | 0 <= i < |t| ensures !PyStr.IsDigit(t[i]) && t[i] != '-' && t[i] != '+' {
        var j :| 0 <= j < |s| && s[j] == t[i];
      }
      NormalizeNoDigits(t);
    }
  }

  /** Surrounding whitespace is ignored (" 7 " reads as "7"). */
  lemma NormalizePadded(p: string, s: string, q: string)
    requires forall i | 0 <= i < |p| :: IsJsSpace(p[i])
    requires forall i | 0 <= i < |q| :: IsJsSpace(q[i])
    requires s != [] && !IsJsSpace(s[0]) && !IsJsSpace(s[|s| - 1])
    ensures NormalizeExperience(Some(p + s + q)) == NormalizeExperience(Some(s))
  {
    TrimStartOfSpaces(p, s + q);
    assert p + s + q == p + (s + q);
    TrimEndOfSpaces(s, q);
    TrimOfPlain(s);
  }

  /** `trimStart` drops a run of whitespace before a text that starts with a non-space. */
  lemma {:induction false} TrimStartOfSpaces(p: string, t: string)
    requires forall i | 0 <= i < |p| :: IsJsSpace(p[i])
    requires t != [] && !IsJsSpace(t[0])
    ensures TrimStart(p + t) == t
  {
    if p != [] {
      assert (p + t)[1..] == p[1..] + t;
      TrimStartOfSpaces(p[1..], t);
    } else {
      assert p + t == t;
    }
  }

  /** `trimEnd` drops a run of whitespace after a text that ends with a non-space. */
  lemma {:induction false} TrimEndOfSpaces(t: string, q: string)
    requires forall i | 0 <= i < |q| :: IsJsSpace(q[i])
    requires t != [] && !IsJsSpace(t[|t| - 1])
    ensures TrimEnd(t + q) == t
  {
    if q != [] {
      var q' := q[..|q| - 1];
      assert (t + q)[..|t + q| - 1] == t + q';
      TrimEndOfSpaces(t, q');
    } else {
      assert t + q == t;
    }
  }

  /** Every character of `trim()`'s result is a character of its argument, and the result
      starts with a non-space. */
  lemma TrimWithin(s: string)
    ensures forall i | 0 <= i < |Trim(s)| :: Trim(s)[i] in s
    ensures Trim(s) == [] || !IsJsSpace(Trim(s)[0])
  {
    var l := TrimStart(s);
    var r := TrimEnd(l);
    forall i | 0 <= i < |r| ensures r[i] in s {
      assert r[i] == l[i] == s[|s| - |l| + i];
    }
  }

  /** A text with no whitespace at either end is its own `trim()`. */
  lemma TrimOfPlain(s: string)
    requires s != [] && !IsJsSpace(s[0]) && !IsJsSpace(s[|s| - 1])
    ensures Trim(s) == s
  {
    assert TrimStart(s) == s;
    assert TrimEnd(s) == s;
  }

  /** A trimmed answer that starts with a dash is a range with an empty lower end. */
  lemma NormalizeDashFirst(e: string)
    requires e != [] && e[0] == '-' && e[|e| - 1] != '+'
    ensures NormalizeTrimmed(e) == None
  {
    assert !PyStr.EndsWith(e, "+");
    assert PyStr.IndexOf(e, '-') == 0;
    assert PyStr.SplitOn(e, '-')[0] == "";
    NothingParsed();
  }

  /** `parseInt` of the empty text is `NaN`. */
  lemma NothingParsed()
    ensures ParseInt(Trim("")) == None
  {
    assert TrimStart("") == "" && TrimEnd("") == "";
    assert LeadingDigits(SignStripped("")) == [];
  }

  /** A trimmed answer with no digit, sign or dash has no number in it. */
  lemma NormalizeNoDigits(e: string)
    requires e == [] || !IsJsSpace(e[0])
    requires forall i | 0 <= i < |e| :: !PyStr.IsDigit(e[i]) && e[i] != '-' && e[i] != '+'
    ensures NormalizeTrimmed(e) == None
  {
    assert !PyStr.EndsWith(e, "+") by { assert e != [] ==> e[|e| - 1] != '+'; }
    assert '-' !in e;
    assert TrimStart(e) == e;
    assert SignStripped(e) == e;
    assert LeadingDigits(e) == [];
  }

  /** The second argument of `createCandidateProfile`; `None` is `undefined`. */
  datatype CandidateProfileInput = CandidateProfileInput(
    location: Option<string>, experience: Option<string>, skills: Option<seq<string>>, bio: Option<string>)

  /** The second argument of `createRecruiterProfile`; `None` is `undefined` or `null`. */
  datatype RecruiterProfileInput = RecruiterProfileInput(
    companyName: Option<string>, title: Option<string>, companyLogo: Option<string>,
    companyDescription: Option<string>, hiringIndustry: Option<seq<string>>)

  /** The body `createCandidateProfile` posts, given the cached `full_name` (`null` when absent). */
  function CandidatePayload(cachedName: Option<string>, data: CandidateProfileInput): (p: map<string, JsValue>)
    ensures p.Keys == {"full_name", "location", "experience_years", "skills", "summary"}
    ensures p["full_name"].Str? && p["full_name"].s != ""
    ensures cachedName.Some? && cachedName.value != "" ==> p["full_name"] == Str(cachedName.value)
    ensures cachedName.None? || cachedName.value == "" ==> p["full_name"] == Str("none")
    ensures p["location"] == OptStr(data.location) && p["summary"] == OptStr(data.bio)
    ensures p["skills"] == OptList(data.skills)
    ensures p["experience_years"] == OptStr(NormalizeExperience(data.experience))
  {
    map[
      "full_name" := Str(if cachedName.Some? && cachedName.value != "" then cachedName.value else "none"),
      "location" := OptStr(data.location),
      "experience_years" := OptStr(NormalizeExperience(data.experience)),
      "skills" := OptList(data.skills),
      "summary" := OptStr(data.bio)]
  }

  /** The body `createRecruiterProfile` posts: the camelCase answers under the back end's names. */
  function RecruiterPayload(data: RecruiterProfileInput): (p: map<string, JsValue>)
    ensures p.Keys == {"company_name", "recruiter_title", "company_logo", "about_company", "hiring_fields"}
    ensures p["company_name"] == OptStr(data.companyName) && p["recruiter_title"] == OptStr(data.title)
    ensures p["company_logo"] == OptStr(data.companyLogo) && p["about_company"] == OptStr(data.companyDescription)
    ensures p["hiring_fields"] == OptList(data.hiringIndustry)
  {
    map[
      "company_name" := OptStr(data.companyName),
      "recruiter_title" := OptStr(data.title),
      "company_logo" := OptStr(data.companyLogo),
      "about_company" := OptStr(data.companyDescription),
      "hiring_fields" := OptList(data.hiringIndustry)]
  }
}
