/** The schema clean-up of the resume parser (`validate_json` and the extension dispatch of
    `parse_resume` in logic/resume_parser.py, repeated line for line in
    dataPreprocess/resumeParser.py): the model's JSON is cut down to twelve keys, the
    education, experience, project and activity entries are rebuilt, and the skill and
    language lists are cleaned. */
module ResumeSchema {
  import opened Wrappers
  import opened PyStr
  import opened PyJson
  import opened ResumeHighlights
  import opened ResumeDates

  /** The keys of the schema, in order. */
  const SchemaKeys: seq<string> := [
    "name", "summary", "education", "experiences", "projects", "skills",
    "languages", "certifications", "awards", "activities", "publications", "licenses"]

  const Blank: Json := JStr("")
  const NoItems: Json := JList([])

  /** The education default: one entry with every field empty. */
  const DefaultEducation: Json :=
    JList([JDict([("degree", Blank), ("school", Blank), ("gpa", Blank), ("year", Blank)])])

  /** The schema: each key with the value used when the input lacks it. */
  const Schema: seq<(string, Json)> := [
    ("name", Blank),
    ("summary", Blank),
    ("education", DefaultEducation),
    ("experiences", JList([JDict([("role", Blank), ("organization", Blank), ("years", JFloat(0.0)),
      ("location", Blank), ("highlights", NoItems)])])),
    ("projects", JList([JDict([("role", Blank), ("highlights", NoItems)])])),
    ("skills", NoItems),
    ("languages", NoItems),
    ("certifications", JList([JDict([("name", Blank), ("issuer", Blank), ("year", Blank)])])),
    ("awards", JList([JDict([("title", Blank), ("issuer", Blank), ("year", Blank)])])),
    ("activities", JList([JDict([("role", Blank), ("organization", Blank), ("years", JFloat(0.0)),
      ("highlights", NoItems)])])),
    ("publications", JList([JDict([("title", Blank), ("journal", Blank), ("year", Blank), ("doi", Blank)])])),
    ("licenses", JList([JDict([("name", Blank), ("issuer", Blank), ("year", Blank)])]))]

  lemma SchemaKeyList()
    ensures KeyList(Schema) == SchemaKeys
  {
  }

  /** `{k: data.get(k, v) for k, v in schema.items()}`. */
  function Defaults(d: seq<(string, Json)>): (r: seq<(string, Json)>)
    ensures |r| == |Schema|
    ensures forall i | 0 <= i < |Schema| :: r[i] == (Schema[i].0, Get(d, Schema[i].0, Schema[i].1))
  {
    seq(|Schema|, i requires 0 <= i < |Schema| => (Schema[i].0, Get(d, Schema[i].0, Schema[i].1)))
  }

  /** `clean_data[k] = v` for a key already present: the key keeps its place. */
  function SetKey(pairs: seq<(string, Json)>, k: string, v: Json): (r: seq<(string, Json)>)
    ensures |r| == |pairs| && KeyList(r) == KeyList(pairs)
    ensures forall i | 0 <= i < |pairs| :: r[i] == if pairs[i].0 == k then (k, v) else pairs[i]
  {
    var r := seq(|pairs|, i requires 0 <= i < |pairs| => if pairs[i].0 == k then (k, v) else pairs[i]);
    assert KeyList(r) == KeyList(pairs);
    r
  }

  /** After `d[k] = v`, `d[k]` is `v`. */
  lemma {:induction false} LookupSetKey(pairs: seq<(string, Json)>, k: string, v: Json)
    requires k in KeyList(pairs)
    ensures Lookup(SetKey(pairs, k, v), k) == Some(v)
  {
    var r := SetKey(pairs, k, v);
    if pairs[|pairs| - 1].0 != k {
      var init := pairs[..|pairs| - 1];
      assert KeyList(pairs) == KeyList(init) + [pairs[|pairs| - 1].0];
      LookupSetKey(init, k, v);
      assert r[..|r| - 1] == SetKey(init, k, v);
    }
  }

  /** Setting another key leaves `d[k]` as it was. */
  lemma {:induction false} LookupSetOtherKey(pairs: seq<(string, Json)>, k: string, v: Json, other: string)
    requires other != k
    ensures Lookup(SetKey(pairs, k, v), other) == Lookup(pairs, other)
  {
    if pairs != [] {
      var r := SetKey(pairs, k, v);
      var init := pairs[..|pairs| - 1];
      LookupSetOtherKey(init, k, v, other);
      assert r[..|r| - 1] == SetKey(init, k, v);
    }
  }

  // ---------------------------------------------------------------------------
  // GPA
  // ---------------------------------------------------------------------------

  /** `\d+(\.\d+)?` over the whole text. */
  predicate IsDecimalNumber(s: string) {
    var i := IndexOf(s, '.');
    if i == |s| then s != [] && AllDigits(s)
    else 0 < i < |s| - 1 && AllDigits(s[..i]) && AllDigits(s[i + 1..])
  }

  /** `\d+(\.\d+)?(/\d+(\.\d+)?)?` over the whole text. */
  predicate IsGpaBody(s: string) {
    var j := IndexOf(s, '/');
    if j == |s| then IsDecimalNumber(s)
    else IsDecimalNumber(s[..j]) && IsDecimalNumber(s[j + 1..])
  }

  /** `re.match(r"^\d+(\.\d+)?(/\d+(\.\d+)?)?$", s)`: `$` also matches before a final
      newline. */
  predicate IsGpa(s: string) {
    IsGpaBody(s) || (s != [] && s[|s| - 1] == '\n' && IsGpaBody(s[..|s| - 1]))
  }

  /** A decimal number has at most one dot and digits around it. */
  lemma DecimalNumberChars(s: string)
    requires IsDecimalNumber(s)
    ensures forall c | c in s :: IsDigit(c) || c == '.'
  {
    var i := IndexOf(s, '.');
    if i < |s| {
      assert s == s[..i] + ['.'] + s[i + 1..];
      assert forall c | c in s[..i] :: IsDigit(c);
      assert forall c | c in s[i + 1..] :: IsDigit(c);
    }
  }

  /** A GPA the pattern accepts is made of digits, dots and at most one slash, with at most a
      final newline besides. */
  lemma GpaChars(s: string)
    requires IsGpaBody(s)
    ensures forall c | c in s :: IsDigit(c) || c == '.' || c == '/'
  {
    var j := IndexOf(s, '/');
    if j == |s| {
      DecimalNumberChars(s);
    } else {
      DecimalNumberChars(s[..j]);
      DecimalNumberChars(s[j + 1..]);
      assert s == s[..j] + ['/'] + s[j + 1..];
    }
  }

  /** A number written `a.b`, with whole numbers `a` and `b`, is a decimal number. */
  lemma DecimalOfParts(a: nat, b: nat)
    ensures IsDecimalNumber(NatToDecimal(a) + "." + NatToDecimal(b))
    ensures forall k | 0 <= k < |NatToDecimal(a) + "." + NatToDecimal(b)| ::
      (IsDigit((NatToDecimal(a) + "." + NatToDecimal(b))[k]) || (NatToDecimal(a) + "." + NatToDecimal(b))[k] == '.')
  {
    var x, y := NatToDecimal(a), NatToDecimal(b);
    var n := x + "." + y;
    assert '.' !in x by { assert forall k | 0 <= k < |x| :: IsDigit(x[k]); }
    IndexOfConcat(x, "." + y, '.');
    assert n == x + ("." + y);
    assert n[..|x|] == x && n[|x| + 1..] == y;
  }

  /** A grade written `a.b/c`, with whole numbers `a`, `b` and `c`, is a GPA. */
  lemma GpaOfParts(a: nat, b: nat, c: nat)
    ensures IsGpa(NatToDecimal(a) + "." + NatToDecimal(b) + "/" + NatToDecimal(c))
  {
    var n := NatToDecimal(a) + "." + NatToDecimal(b);
    var z := NatToDecimal(c);
    DecimalOfParts(a, b);
    assert '/' !in n;
    IndexOfConcat(n, "/" + z, '/');
    var s := n + "/" + z;
    assert s == n + ("/" + z);
    assert s[..|n|] == n && s[|n| + 1..] == z;
    assert '.' !in z by { assert forall k | 0 <= k < |z| :: IsDigit(z[k]); }
    assert IndexOf(z, '.') == |z|;
    assert IsGpaBody(s);
  }

  /** The first `c` of `a + b` with no `c` in `a` is the first `c` of `b`, shifted. */
  lemma {:induction false} IndexOfConcat(a: string, b: string, c: char)
    requires c !in a && b != [] && b[0] == c
    ensures IndexOf(a + b, c) == |a|
  {
    if a != [] {
      IndexOfConcat(a[1..], b, c);
      assert (a + b)[1..] == a[1..] + b;
    }
  }

  // ---------------------------------------------------------------------------
  // Education
  // ---------------------------------------------------------------------------

  /** The rebuilt education entry for a dictionary: its four fields, the GPA blanked when it
      is set but not of the GPA form. */
  function FixEdu(edu: seq<(string, Json)>, show: Json -> string): (r: Json)
    ensures r.JDict? && KeyList(r.pairs) == ["degree", "school", "gpa", "year"]
    ensures !Truthy(r.pairs[2].1) || IsGpa(Str(r.pairs[2].1, show))
  {
    var gpa := Get(edu, "gpa", Blank);
    var r := JDict([("degree", Get(edu, "degree", Blank)), ("school", Get(edu, "school", Blank)),
      ("gpa", if Truthy(gpa) && !IsGpa(Str(gpa, show)) then Blank else gpa), ("year", Get(edu, "year", Blank))]);
    assert KeyList(r.pairs) == ["degree", "school", "gpa", "year"];
    r
  }

  /** The education entries the loop of `validate_json` builds: one per dictionary, in
      order; other items are skipped. */
  function FixedEducation(items: seq<Json>, show: Json -> string): (r: seq<Json>)
    ensures forall e | e in r ::
      (e.JDict? && KeyList(e.pairs) == ["degree", "school", "gpa", "year"]
       && (!Truthy(e.pairs[2].1) || IsGpa(Str(e.pairs[2].1, show))))
    ensures r == [] <==> forall i | 0 <= i < |items| :: !items[i].JDict?
  {
    if items == [] then []
    else
      var init := items[..|items| - 1];
      var last := items[|items| - 1];
      var r := FixedEducation(init, show) + (if last.JDict? then [FixEdu(last.pairs, show)] else []);
      assert forall i | 0 <= i < |init| :: init[i] == items[i];
      r
  }

  /** The education loop of `validate_json`. */
  method FixEducation(items: seq<Json>, show: Json -> string) returns (fixed: seq<Json>)
    ensures fixed == FixedEducation(items, show)
  {
    fixed := [];
    for i := 0 to |items|
      invariant fixed == FixedEducation(items[..i], show)
    {
      assert items[..i + 1][..i] == items[..i];
      if items[i].JDict? {
        var edu := items[i].pairs;
        var gpa := Get(edu, "gpa", Blank);
        if Truthy(gpa) && !IsGpa(Str(gpa, show)) {
          gpa := Blank;
        }
        fixed := fixed + [JDict([("degree", Get(edu, "degree", Blank)), ("school", Get(edu, "school", Blank)),
          ("gpa", gpa), ("year", Get(edu, "year", Blank))])];
      }
    }
    assert items[..|items|] == items;
  }

  // ---------------------------------------------------------------------------
  // Experiences, projects and activities
  // ---------------------------------------------------------------------------

  /** The three lists `validate_json` rebuilds the same way. */
  datatype Section = Experiences | Projects | Activities

  /** `refine_highlights(filter_highlights(v))`. */
  function EntryHighlights(v: Json, show: Json -> string): (r: Result<seq<string>, PyError>)
    ensures r.Success? <==> Iterate(v).Success?
    ensures r.Success? ==> NoDups(r.value) && forall x | x in r.value :: Finished(x)
  {
    match Iterate(v)
    case Failure(e) => Failure(e)
    case Success(items) => Success(Dedupe(NormalizedAll(Refined(Dedupe(Kept(Texts(items, show), Clean)), 18))))
  }

  /** The fields of a rebuilt entry of `sec`, given its years and highlights. */
  function EntryFields(sec: Section, d: seq<(string, Json)>, years: real, hls: seq<string>): seq<(string, Json)> {
    match sec
    case Projects => [("role", Get(d, "role", Blank)), ("highlights", JList(JStrs(hls)))]
    case Experiences => [("role", Get(d, "role", Blank)), ("organization", Get(d, "organization", Blank)),
      ("years", JFloat(years)), ("location", Get(d, "location", Blank)), ("highlights", JList(JStrs(hls)))]
    case Activities => [("role", Get(d, "role", Blank)), ("organization", Get(d, "organization", Blank)),
      ("years", JFloat(years)), ("highlights", JList(JStrs(hls)))]
  }

  /** Whether a rebuilt entry is kept: a role, an organization (not asked of a project) or a
      highlight. */
  predicate Worth(sec: Section, d: seq<(string, Json)>, hls: seq<string>) {
    Truthy(Get(d, "role", Blank)) || (sec != Projects && Truthy(Get(d, "organization", Blank))) || hls != []
  }

  /** The years of an entry: `compute_years` of its dates, not asked for a project. */
  function EntryYears(sec: Section, d: seq<(string, Json)>, today: Date): Result<real, PyError> {
    if sec == Projects then Success(0.0)
    else ComputeYears(Get(d, "start_date", Blank), Get(d, "end_date", Blank), today)
  }

  /** The rebuilt entry for a dictionary, or nothing when it is not worth keeping. */
  function FixEntry(sec: Section, d: seq<(string, Json)>, show: Json -> string, today: Date): (r: Result<Option<Json>, PyError>)
    ensures r.Success? <==> EntryYears(sec, d, today).Success? && EntryHighlights(Get(d, "highlights", NoItems), show).Success?
    ensures r.Success? ==> (r.value.Some? <==> Worth(sec, d, EntryHighlights(Get(d, "highlights", NoItems), show).value))
  {
    match EntryYears(sec, d, today)
    case Failure(e) => Failure(e)
    case Success(years) =>
      match EntryHighlights(Get(d, "highlights", NoItems), show)
      case Failure(e) => Failure(e)
      case Success(hls) =>
        if Worth(sec, d, hls) then Success(Some(JDict(EntryFields(sec, d, years, hls)))) else Success(None)
  }

  /** The entries the loop of `validate_json` builds for `sec`: the kept rebuilt entries of
      the dictionaries, in order, or the first error raised. */
  function FixedEntries(sec: Section, items: seq<Json>, show: Json -> string, today: Date): Result<seq<Json>, PyError> {
    if items == [] then Success([])
    else
      var last := items[|items| - 1];
      match FixedEntries(sec, items[..|items| - 1], show, today)
      case Failure(e) => Failure(e)
      case Success(fs) =>
        if !last.JDict? then Success(fs)
        else
          match FixEntry(sec, last.pairs, show, today)
          case Failure(e) => Failure(e)
          case Success(o) => Success(fs + (if o.Some? then [o.value] else []))
  }

  /** Once a prefix raises, the whole list raises the same error. */
  lemma {:induction false} FailureStays(sec: Section, items: seq<Json>, i: nat, show: Json -> string, today: Date)
    requires i <= |items| && FixedEntries(sec, items[..i], show, today).Failure?
    ensures FixedEntries(sec, items, show, today) == FixedEntries(sec, items[..i], show, today)
    decreases |items| - i
  {
    if i < |items| {
      assert items[..i + 1][..i] == items[..i];
      FailureStays(sec, items, i + 1, show, today);
    } else {
      assert items[..i] == items;
    }
  }

  /** One loop of `validate_json` over experiences, projects or activities: each dictionary
      is rebuilt with its years and its filtered and refined highlights, and kept when worth
      keeping. */
  method FixEntries(sec: Section, items: seq<Json>, show: Json -> string, today: Date) returns (r: Result<seq<Json>, PyError>)
    ensures r == FixedEntries(sec, items, show, today)
  {
    var fixed: seq<Json> := [];
    for i := 0 to |items|
      invariant FixedEntries(sec, items[..i], show, today) == Success(fixed)
    {
      var pre := items[..i + 1];
      assert pre[..|pre| - 1] == items[..i] && pre[|pre| - 1] == items[i];
      if items[i].JDict? {
        var entry := FixOne(sec, items[i].pairs, show, today);
        if entry.Failure? {
          FailureStays(sec, items, i + 1, show, today);
          return Failure(entry.error);
        }
        if entry.value.Some? {
          assert FixedEntries(sec, pre, show, today) == Success(fixed + [entry.value.value]);
          fixed := fixed + [entry.value.value];
        } else {
          assert fixed + [] == fixed;
          assert FixedEntries(sec, pre, show, today) == Success(fixed);
        }
      } else {
        assert FixedEntries(sec, pre, show, today) == Success(fixed);
      }
    }
    assert items[..|items|] == items;
    r := Success(fixed);
  }

  /** The body of one entry loop of `validate_json` for one dictionary. */
  method FixOne(sec: Section, d: seq<(string, Json)>, show: Json -> string, today: Date) returns (r: Result<Option<Json>, PyError>)
    ensures r == FixEntry(sec, d, show, today)
  {
    var years := EntryYears(sec, d, today);
    if years.Failure? {
      return Failure(years.error);
    }
    var raw := Iterate(Get(d, "highlights", NoItems));
    if raw.Failure? {
      return Failure(raw.error);
    }
    var filtered := FilterHighlights(raw.value, show);
    var hls := RefineHighlights(filtered, 18);
    assert EntryHighlights(Get(d, "highlights", NoItems), show) == Success(hls);
    if Worth(sec, d, hls) {
      r := Success(Some(JDict(EntryFields(sec, d, years.value, hls))));
    } else {
      r := Success(None);
    }
  }

  /** Every kept entry has a role, an organization or a highlight. */
  lemma {:induction false} FixedEntriesWorth(sec: Section, items: seq<Json>, show: Json -> string, today: Date)
    requires FixedEntries(sec, items, show, today).Success?
    ensures forall e | e in FixedEntries(sec, items, show, today).value ::
      exists d: seq<(string, Json)>, years: real, hls: seq<string> ::
        e == JDict(EntryFields(sec, d, years, hls)) && Worth(sec, d, hls)
  {
    if items != [] {
      FixedEntriesWorth(sec, items[..|items| - 1], show, today);
    }
  }

  // ---------------------------------------------------------------------------
  // Skills and languages
  // ---------------------------------------------------------------------------

  /** `[p.strip() for p in parts if p.strip()]`. */
  function StrippedNonEmpty(parts: seq<string>): (r: seq<string>)
    ensures forall x | x in r :: x != "" && !IsSpace(x[0]) && !IsSpace(x[|x| - 1])
  {
    if parts == [] then []
    else
      var p := Strip(parts[|parts| - 1]);
      StrippedNonEmpty(parts[..|parts| - 1]) + (if p != "" then [p] else [])
  }

  /** `x` is one of the parts, stripped, and not blank. */
  predicate IsStrippedPart(x: string, parts: seq<string>) {
    exists i | 0 <= i < |parts| :: x == Strip(parts[i]) && x != ""
  }

  /** The items kept are exactly the non-blank parts, stripped. */
  lemma StrippedNonEmptyMembers(parts: seq<string>, x: string)
    ensures x in StrippedNonEmpty(parts) <==> IsStrippedPart(x, parts)
  {
    if x in StrippedNonEmpty(parts) {
      StrippedNonEmptyFrom(parts, x);
    }
    if IsStrippedPart(x, parts) {
      var i :| 0 <= i < |parts| && x == Strip(parts[i]) && x != "";
      StrippedNonEmptyKeeps(parts, i);
    }
  }

  lemma {:induction false} StrippedNonEmptyFrom(parts: seq<string>, x: string)
    requires x in StrippedNonEmpty(parts)
    ensures exists i | 0 <= i < |parts| :: x == Strip(parts[i]) && x != ""
  {
    var init := parts[..|parts| - 1];
    var p := Strip(parts[|parts| - 1]);
    assert StrippedNonEmpty(parts) == StrippedNonEmpty(init) + (if p != "" then [p] else []);
    if x in StrippedNonEmpty(init) {
      StrippedNonEmptyFrom(init, x);
      var i :| 0 <= i < |init| && x == Strip(init[i]) && x != "";
      assert parts[i] == init[i];
    } else {
      assert x == Strip(parts[|parts| - 1]) && x != "";
    }
  }

  lemma {:induction false} StrippedNonEmptyKeeps(parts: seq<string>, i: nat)
    requires i < |parts| && Strip(parts[i]) != ""
    ensures Strip(parts[i]) in StrippedNonEmpty(parts)
  {
    var init := parts[..|parts| - 1];
    if i < |init| {
      assert init[i] == parts[i];
      StrippedNonEmptyKeeps(init, i);
    }
  }

  /** The skills or languages: a string split on commas, a list's items as text, each
      stripped and kept when not blank; anything else gives no items. */
  function CleanStringList(v: Json, show: Json -> string): (r: seq<string>)
    ensures forall x | x in r :: x != "" && !IsSpace(x[0]) && !IsSpace(x[|x| - 1])
    ensures !v.JStr? && !v.JList? ==> r == []
  {
    match v
    case JStr(s) => StrippedNonEmpty(SplitOn(s, ','))
    case JList(xs) => StrippedNonEmpty(Texts(xs, show))
    case _ => []
  }

  /** A comma-separated string gives exactly its non-blank pieces, stripped. */
  lemma CommaSeparatedSkills(s: string, x: string, show: Json -> string)
    ensures x in CleanStringList(JStr(s), show) <==> IsStrippedPart(x, SplitOn(s, ','))
  {
    assert CleanStringList(JStr(s), show) == StrippedNonEmpty(SplitOn(s, ','));
    StrippedNonEmptyMembers(SplitOn(s, ','), x);
  }

  // ---------------------------------------------------------------------------
  // validate_json
  // ---------------------------------------------------------------------------

  /** The rebuilt values of the six keys `validate_json` rewrites. */
  datatype Rebuilt = Rebuilt(education: Json, experiences: Json, projects: Json, activities: Json,
                             skills: Json, languages: Json)

  /** The education value: the rebuilt entries, or the default when none was a dictionary. */
  function EducationValue(d: seq<(string, Json)>, show: Json -> string): Result<Json, PyError> {
    match Iterate(Get(d, "education", DefaultEducation))
    case Failure(e) => Failure(e)
    case Success(items) =>
      var fixed := FixedEducation(items, show);
      Success(if fixed != [] then JList(fixed) else DefaultEducation)
  }

  /** The rebuilt entries of `sec`, read from the input under `key`. */
  function EntriesValue(sec: Section, key: string, d: seq<(string, Json)>, show: Json -> string, today: Date): Result<Json, PyError> {
    match Iterate(Get(d, key, NoItems))
    case Failure(e) => Failure(e)
    case Success(items) =>
      match FixedEntries(sec, items, show, today)
      case Failure(e) => Failure(e)
      case Success(fs) => Success(JList(fs))
  }

  /** The six rewritten values, or the first error raised on the way. */
  function RebuildAll(d: seq<(string, Json)>, show: Json -> string, today: Date): Result<Rebuilt, PyError> {
    match EducationValue(d, show)
    case Failure(e) => Failure(e)
    case Success(edu) =>
      match EntriesValue(Experiences, "experiences", d, show, today)
      case Failure(e) => Failure(e)
      case Success(exps) =>
        match EntriesValue(Projects, "projects", d, show, today)
        case Failure(e) => Failure(e)
        case Success(projs) =>
          match EntriesValue(Activities, "activities", d, show, today)
          case Failure(e) => Failure(e)
          case Success(acts) =>
            Success(Rebuilt(edu, exps, projs, acts,
              JList(JStrs(CleanStringList(Get(d, "skills", NoItems), show))),
              JList(JStrs(CleanStringList(Get(d, "languages", NoItems), show)))))
  }

  /** The defaults with the six rewritten values put in place. */
  function Assemble(d: seq<(string, Json)>, b: Rebuilt): (r: seq<(string, Json)>)
    ensures KeyList(r) == SchemaKeys
  {
    SchemaKeyList();
    assert KeyList(Defaults(d)) == KeyList(Schema);
    SetKey(SetKey(SetKey(SetKey(SetKey(SetKey(Defaults(d),
      "education", b.education), "experiences", b.experiences), "projects", b.projects),
      "activities", b.activities), "skills", b.skills), "languages", b.languages)
  }

  /** `validate_json(data)`: `{}` for anything but a dictionary; otherwise exactly the twelve
      schema keys, in order, unless rebuilding an entry raises. */
  function Validated(data: Json, show: Json -> string, today: Date): (r: Result<Json, PyError>)
    ensures !data.JDict? ==> r == Success(JDict([]))
    ensures data.JDict? && r.Success? ==> r.value.JDict? && KeyList(r.value.pairs) == SchemaKeys
  {
    if !data.JDict? then Success(JDict([]))
    else
      match RebuildAll(data.pairs, show, today)
      case Failure(e) => Failure(e)
      case Success(b) => Success(JDict(Assemble(data.pairs, b)))
  }

  /** `validate_json(data)`, step by step: the defaults first, then each rewritten key. */
  method ValidateJson(data: Json, show: Json -> string, today: Date) returns (r: Result<Json, PyError>)
    ensures r == Validated(data, show, today)
  {
    if !data.JDict? {
      return Success(JDict([]));
    }
    var d := data.pairs;
    var cleanData := Defaults(d);
    var education := Iterate(Get(d, "education", DefaultEducation));
    if education.Failure? {
      return Failure(education.error);
    }
    var fixedEdu := FixEducation(education.value, show);
    var edu := if fixedEdu != [] then JList(fixedEdu) else DefaultEducation;
    cleanData := SetKey(cleanData, "education", edu);
    var exps := SectionValue(Experiences, "experiences", d, show, today);
    if exps.Failure? {
      return Failure(exps.error);
    }
    cleanData := SetKey(cleanData, "experiences", exps.value);
    var projs := SectionValue(Projects, "projects", d, show, today);
    if projs.Failure? {
      return Failure(projs.error);
    }
    cleanData := SetKey(cleanData, "projects", projs.value);
    var acts := SectionValue(Activities, "activities", d, show, today);
    if acts.Failure? {
      return Failure(acts.error);
    }
    cleanData := SetKey(cleanData, "activities", acts.value);
    var skills := JList(JStrs(CleanStringList(Get(d, "skills", NoItems), show)));
    cleanData := SetKey(cleanData, "skills", skills);
    var languages := JList(JStrs(CleanStringList(Get(d, "languages", NoItems), show)));
    cleanData := SetKey(cleanData, "languages", languages);
    assert cleanData == Assemble(d, Rebuilt(edu, exps.value, projs.value, acts.value, skills, languages));
    r := Success(JDict(cleanData));
  }

  /** The value one entry loop of `validate_json` stores. */
  method SectionValue(sec: Section, key: string, d: seq<(string, Json)>, show: Json -> string, today: Date) returns (r: Result<Json, PyError>)
    ensures r == EntriesValue(sec, key, d, show, today)
  {
    var items := Iterate(Get(d, key, NoItems));
    if items.Failure? {
      return Failure(items.error);
    }
    var fixed := FixEntries(sec, items.value, show, today);
    if fixed.Failure? {
      return Failure(fixed.error);
    }
    r := Success(JList(fixed.value));
  }

  // ---------------------------------------------------------------------------
  // Properties of validate_json
  // ---------------------------------------------------------------------------

  /** Each rewritten key reads back the value put there. */
  lemma LookupAssemble(d: seq<(string, Json)>, b: Rebuilt)
    ensures Lookup(Assemble(d, b), "education") == Some(b.education)
    ensures Lookup(Assemble(d, b), "skills") == Some(b.skills)
    ensures Lookup(Assemble(d, b), "languages") == Some(b.languages)
  {
    var s0 := Defaults(d);
    SchemaKeyList();
    assert KeyList(s0) == SchemaKeys;
    var s1 := SetKey(s0, "education", b.education);
    var s2 := SetKey(s1, "experiences", b.experiences);
    var s3 := SetKey(s2, "projects", b.projects);
    var s4 := SetKey(s3, "activities", b.activities);
    var s5 := SetKey(s4, "skills", b.skills);
    var s6 := SetKey(s5, "languages", b.languages);
    assert s6 == Assemble(d, b);
    LookupSetKey(s0, "education", b.education);
    LookupSetOtherKey(s1, "experiences", b.experiences, "education");
    LookupSetOtherKey(s2, "projects", b.projects, "education");
    LookupSetOtherKey(s3, "activities", b.activities, "education");
    LookupSetOtherKey(s4, "skills", b.skills, "education");
    LookupSetOtherKey(s5, "languages", b.languages, "education");
    LookupSetKey(s4, "skills", b.skills);
    LookupSetOtherKey(s5, "languages", b.languages, "skills");
    LookupSetKey(s5, "languages", b.languages);
  }

  /** When no education item is a dictionary, the result carries the one all-empty default
      entry. */
  lemma EducationFallsBack(data: Json, show: Json -> string, today: Date, items: seq<Json>)
    requires data.JDict? && Iterate(Get(data.pairs, "education", DefaultEducation)) == Success(items)
    requires forall i | 0 <= i < |items| :: !items[i].JDict?
    requires Validated(data, show, today).Success?
    ensures Lookup(Validated(data, show, today).value.pairs, "education") == Some(DefaultEducation)
  {
    StoredRebuilt(data, show, today);
    EducationOfNoDicts(data.pairs, show, items);
  }

  /** With no dictionary among the education items the default education is used. */
  lemma EducationOfNoDicts(d: seq<(string, Json)>, show: Json -> string, items: seq<Json>)
    requires Iterate(Get(d, "education", DefaultEducation)) == Success(items)
    requires forall i | 0 <= i < |items| :: !items[i].JDict?
    ensures EducationValue(d, show) == Success(DefaultEducation)
  {
  }

  /** A skills string is stored as its comma-separated, stripped, non-blank pieces. */
  lemma SkillsStringIsSplit(data: Json, show: Json -> string, today: Date, s: string)
    requires data.JDict? && Lookup(data.pairs, "skills") == Some(JStr(s))
    requires Validated(data, show, today).Success?
    ensures Lookup(Validated(data, show, today).value.pairs, "skills")
      == Some(JList(JStrs(StrippedNonEmpty(SplitOn(s, ',')))))
  {
    StoredSkills(data, show, today);
    CleanSkillsString(data.pairs, show, s);
  }

  /** The validated dictionary holds the cleaned list of the input's skills. */
  lemma StoredSkills(data: Json, show: Json -> string, today: Date)
    requires data.JDict? && Validated(data, show, today).Success?
    ensures Lookup(Validated(data, show, today).value.pairs, "skills")
      == Some(JList(JStrs(CleanStringList(Get(data.pairs, "skills", NoItems), show))))
  {
    RebuiltLists(data.pairs, show, today);
    StoredRebuilt(data, show, today);
  }

  /** A skills string cleans to its stripped, non-blank comma-separated pieces. */
  lemma CleanSkillsString(d: seq<(string, Json)>, show: Json -> string, s: string)
    requires Lookup(d, "skills") == Some(JStr(s))
    ensures CleanStringList(Get(d, "skills", NoItems), show) == StrippedNonEmpty(SplitOn(s, ','))
  {
  }

  /** The validated dictionary holds the rebuilt education, skills and languages. */
  lemma StoredRebuilt(data: Json, show: Json -> string, today: Date)
    requires data.JDict? && Validated(data, show, today).Success?
    ensures RebuildAll(data.pairs, show, today).Success?
    ensures var b := RebuildAll(data.pairs, show, today).value;
      && Lookup(Validated(data, show, today).value.pairs, "education") == Some(b.education)
      && Lookup(Validated(data, show, today).value.pairs, "skills") == Some(b.skills)
      && Lookup(Validated(data, show, today).value.pairs, "languages") == Some(b.languages)
  {
    ValidatedAssembles(data, show, today);
    LookupAssemble(data.pairs, RebuildAll(data.pairs, show, today).value);
  }

  /** A validated dictionary is the defaults with the rebuilt values put in place. */
  lemma ValidatedAssembles(data: Json, show: Json -> string, today: Date)
    requires data.JDict? && Validated(data, show, today).Success?
    ensures RebuildAll(data.pairs, show, today).Success?
    ensures Validated(data, show, today).value.pairs == Assemble(data.pairs, RebuildAll(data.pairs, show, today).value)
  {
    match RebuildAll(data.pairs, show, today)
    case Success(b) =>
      assert Validated(data, show, today) == Success(JDict(Assemble(data.pairs, b)));
  }

  /** The rebuilt skills and languages are the cleaned lists of the input's values. */
  lemma RebuiltLists(d: seq<(string, Json)>, show: Json -> string, today: Date)
    requires RebuildAll(d, show, today).Success?
    ensures RebuildAll(d, show, today).value.skills == JList(JStrs(CleanStringList(Get(d, "skills", NoItems), show)))
    ensures RebuildAll(d, show, today).value.languages == JList(JStrs(CleanStringList(Get(d, "languages", NoItems), show)))
  {
    var edu := EducationValue(d, show);
    var exps := EntriesValue(Experiences, "experiences", d, show, today);
    var projs := EntriesValue(Projects, "projects", d, show, today);
    var acts := EntriesValue(Activities, "activities", d, show, today);
    assert edu.Success? && exps.Success? && projs.Success? && acts.Success?;
    assert RebuildAll(d, show, today) == Success(Rebuilt(edu.value, exps.value, projs.value, acts.value,
      JList(JStrs(CleanStringList(Get(d, "skills", NoItems), show))),
      JList(JStrs(CleanStringList(Get(d, "languages", NoItems), show)))));
  }

  // ---------------------------------------------------------------------------
  // parse_resume
  // ---------------------------------------------------------------------------

  /** The text extractor `parse_resume` picks. */
  datatype Extractor = PdfText | ImageOcr

  /** The index of the last `c` in `s`, if any. */
  function LastIndexOf(s: string, c: char): (r: Option<nat>)
    ensures r.Some? ==> r.value < |s| && s[r.value] == c && forall j | r.value < j < |s| :: s[j] != c
    ensures r.None? ==> c !in s
  {
    if s == [] then None
    else if s[|s| - 1] == c then Some(|s| - 1)
    else LastIndexOf(s[..|s| - 1], c)
  }

  /** `os.path.splitext(path)[1]`: from the last dot of the file name on, provided the dot
      follows something other than dots in that name; otherwise empty. */
  function Extension(path: string): (r: string)
    ensures r != "" ==> r[0] == '.' && '/' !in r
  {
    var nameStart := match LastIndexOf(path, '/') case Some(i) => i + 1 case None => 0;
    match LastIndexOf(path, '.')
    case None => ""
    case Some(dot) =>
      if dot >= nameStart && exists k | nameStart <= k < dot :: path[k] != '.' then path[dot..] else ""
  }

  /** The extractor for a file, or `ValueError` for an unsupported extension. */
  function PickExtractor(path: string): (r: Result<Extractor, PyError>)
    ensures r.Success? <==> Lower(Extension(path)) in [".pdf", ".png", ".jpg", ".jpeg"]
    ensures r == Success(PdfText) <==> Lower(Extension(path)) == ".pdf"
    ensures r.Failure? ==> r.error == ValueError
  {
    var ext := Lower(Extension(path));
    if ext == ".pdf" then Success(PdfText)
    else if ext in [".png", ".jpg", ".jpeg"] then Success(ImageOcr)
    else Failure(ValueError)
  }

  /** `parse_resume(path)`: the extractor is picked by extension, `llm` stands for what the
      language model returns for the extracted text, and the result is validated. */
  function ParseResume(path: string, llm: Extractor -> Json, show: Json -> string, today: Date): (r: Result<Json, PyError>)
    ensures PickExtractor(path).Failure? ==> r == Failure(ValueError)
    ensures PickExtractor(path).Success? ==> r == Validated(llm(PickExtractor(path).value), show, today)
  {
    match PickExtractor(path)
    case Failure(e) => Failure(e)
    case Success(x) => Validated(llm(x), show, today)
  }

  /** A plain file name with an upper-case `.PDF` extension is read as a PDF. */
  lemma UpperCasePdfAccepted(name: string)
    requires name != [] && '.' !in name && '/' !in name
    ensures PickExtractor(name + ".PDF") == Success(PdfText)
  {
    var path := name + ".PDF";
    assert LastIndexOf(path, '/') == None by {
      assert forall c | c in path :: c in name || c in ".PDF";
    }
    var dot := |name|;
    assert path[dot] == '.';
    assert LastIndexOf(path, '.') == Some(dot) by {
      var r := LastIndexOf(path, '.');
      assert r.Some? && r.value >= dot;
    }
    assert path[0] != '.';
    assert path[dot..] == ".PDF";
    assert Lower(".PDF") == ".pdf";
  }

  /** A hidden file such as `.pdf` has no extension and is refused. */
  lemma HiddenFileRefused(name: string)
    requires '.' !in name && '/' !in name
    ensures PickExtractor("/" + "." + name) == Failure(ValueError)
  {
    var path := "/" + "." + name;
    assert path[0] == '/' && path[1] == '.';
    assert forall j | 1 < j < |path| :: path[j] != '/' && path[j] != '.' by {
      assert forall j | 1 < j < |path| :: path[j] == name[j - 2];
    }
    assert LastIndexOf(path, '/') == Some(0);
    assert LastIndexOf(path, '.') == Some(1);
    assert Lower("") == "";
  }
}
