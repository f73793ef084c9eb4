/** The match evaluator of the first pipeline (logics/llmEvaluate.py): the model is asked to
    judge a CV against a job description and to answer in JSON; its reply is unfenced, the
    JSON object is cut out of it, comments are removed, and the parsed object is coerced to
    the four-field verdict. The model's reply, `json.loads` and the text of an exception are
    parameters. */
module LlmEvaluate {
  import opened Wrappers
  import opened PyStr
  import opened PyJson
  import opened LlmReply

  // ---------------------------------------------------------------------------
  // _strip_code_fence
  // ---------------------------------------------------------------------------

  /** `re.sub(r"^\s*```json\s*", "", t, flags=re.IGNORECASE)`. */
  function DropLeadingJsonFence(t: string): (r: string)
    ensures |r| <= |t|
  {
    var e := WsEnd(t, 0);
    if JsonFenceAt(t, e) then t[WsEnd(t, e + 7)..] else t
  }

  /** `re.sub(r"^\s*```\s*", "", t)`. */
  function DropLeadingFence(t: string): (r: string)
    ensures |r| <= |t|
  {
    var e := WsEnd(t, 0);
    if FenceAt(t, e) then t[WsEnd(t, e + 3)..] else t
  }

  /** `\s*```\s*$` matches from `p`: whitespace, three backticks, then only whitespace up to
      the end (the `$` before a final newline is covered, the newline being whitespace). */
  predicate TrailingFenceAt(t: string, p: nat)
    requires p <= |t|
  {
    var e := WsEnd(t, p);
    FenceAt(t, e) && WsEnd(t, e + 3) == |t|
  }

  /** The leftmost position at or after `p` where the trailing fence matches. */
  function FirstTrailingFence(t: string, p: nat): (r: Option<nat>)
    requires p <= |t|
    ensures r.Some? ==> p <= r.value <= |t| && TrailingFenceAt(t, r.value)
    ensures forall q | p <= q < (if r.Some? then r.value else |t| + 1) :: !TrailingFenceAt(t, q)
    decreases |t| - p
  {
    if TrailingFenceAt(t, p) then Some(p)
    else if p == |t| then None
    else FirstTrailingFence(t, p + 1)
  }

  /** `re.sub(r"\s*```\s*$", "", t)`: everything from the leftmost match on is removed. */
  function DropTrailingFence(t: string): (r: string)
    ensures |r| <= |t|
  {
    match FirstTrailingFence(t, 0)
    case Some(p) => t[..p]
    case None => t
  }

  /** `_strip_code_fence(text)`. */
  function StripCodeFence(text: string): (r: string)
    ensures r == [] || (!IsSpace(r[0]) && !IsSpace(r[|r| - 1]))
  {
    Strip(DropTrailingFence(DropLeadingFence(DropLeadingJsonFence(Strip(text)))))
  }

  /** A reply fenced as ```json … ``` gives back what is inside the fence. */
  lemma FencedReplyUnwrapped(body: string)
    requires body != [] && Strip(body) == body && '`' !in body
    ensures StripCodeFence("```json\n" + body + "\n```") == body
  {
    var t := "```json\n" + body + "\n```";
    assert !IsSpace(t[0]) && !IsSpace(t[|t| - 1]);
    StripWithUnchanged(t, Whitespace);
    assert !IsSpace(body[0]) && !IsSpace(body[|body| - 1]);
    assert WsEnd(t, 0) == 0;
    assert Lower(t[3..7]) == "json";
    assert WsEnd(t, 7) == 8 by { assert t[7] == '\n' && t[8] == body[0]; }
    var u := body + "\n```";
    assert t[8..] == u;
    assert DropLeadingJsonFence(t) == u;
    assert WsEnd(u, 0) == 0 && !FenceAt(u, 0) by { assert u[0] == body[0]; }
    assert DropLeadingFence(u) == u;
    NoTrailingFenceInBody(body, u);
    assert u[..|body|] == body;
  }

  /** In `body + "\n```"`, the trailing fence is first matched at the newline. */
  lemma NoTrailingFenceInBody(body: string, u: string)
    requires body != [] && !IsSpace(body[|body| - 1]) && '`' !in body
    requires u == body + "\n```"
    ensures FirstTrailingFence(u, 0) == Some(|body|)
  {
    forall q | 0 <= q < |body| ensures !TrailingFenceAt(u, q) {
      var e := WsEnd(u, q);
      assert u[|body| - 1] == body[|body| - 1];
      assert u[e] == body[e];
    }
    assert WsEnd(u, |body|) == |body| + 1 by { assert u[|body| + 1] == '`'; }
    assert u[|body| + 1..|body| + 4] == "```";
    assert TrailingFenceAt(u, |body|);
  }

  // ---------------------------------------------------------------------------
  // _extract_json_block
  // ---------------------------------------------------------------------------

  /** A `}` at `q` followed by `\s*```` . */
  predicate CloseAt(t: string, q: nat) {
    q < |t| && t[q] == '}' && FenceAt(t, WsEnd(t, q + 1))
  }

  /** The lazy `.*?\}\s*```` from `j`: the first `}` at or after `j` that a fence follows. */
  function LazyClose(t: string, j: nat): (r: Option<nat>)
    ensures r.Some? ==> j <= r.value && CloseAt(t, r.value)
    ensures forall q | j <= q < (if r.Some? then r.value else |t|) :: !CloseAt(t, q)
    decreases |t| - j
  {
    if j >= |t| then None
    else if CloseAt(t, j) then Some(j)
    else LazyClose(t, j + 1)
  }

  /** `(\{.*?\})` inside a fence opened at `p` (```json when `tagged`, else ```): where the
      captured object starts and where its closing brace is. */
  function FencedObjectAt(t: string, p: nat, tagged: bool): (r: Option<(nat, nat)>)
    requires p <= |t|
    ensures r.Some? ==> r.value.0 < r.value.1 < |t| && t[r.value.0] == '{' && t[r.value.1] == '}'
  {
    var isOpen := if tagged then JsonFenceAt(t, p) else FenceAt(t, p);
    var o := if tagged then p + 7 else p + 3;
    if !isOpen then None
    else
      var k := WsEnd(t, o);
      if k < |t| && t[k] == '{' then
        match LazyClose(t, k + 1)
        case Some(q) => Some((k, q))
        case None => None
      else None
  }

  /** `re.search` for a fenced object: the leftmost fence, from `p` on, that holds one. */
  function FirstFencedObject(t: string, tagged: bool, p: nat): (r: Option<(nat, nat)>)
    requires p <= |t|
    ensures r.Some? ==> r.value.0 < r.value.1 < |t| && t[r.value.0] == '{' && t[r.value.1] == '}'
    ensures r.None? ==> forall q | p <= q <= |t| :: FencedObjectAt(t, q, tagged).None?
    decreases |t| - p
  {
    if FencedObjectAt(t, p, tagged).Some? then FencedObjectAt(t, p, tagged)
    else if p == |t| then None
    else FirstFencedObject(t, tagged, p + 1)
  }

  /** The number of `{` less the number of `}` in `s[start..k]`. */
  function Depth(s: string, start: nat, k: nat): int
    requires start <= k <= |s|
    decreases k - start
  {
    if k == start then 0
    else Depth(s, start, k - 1) + (if s[k - 1] == '{' then 1 else if s[k - 1] == '}' then -1 else 0)
  }

  /** The end of the first slice `s[start..end]`, with `end` at least `j`, that holds as many
      `{` as `}`. */
  function BalancedFrom(s: string, start: nat, j: nat): (r: Option<nat>)
    requires start <= j
    ensures r.Some? ==> j <= r.value <= |s| && Depth(s, start, r.value) == 0
    decreases |s| + 1 - j
  {
    if j > |s| then None
    else if Depth(s, start, j) == 0 then Some(j)
    else BalancedFrom(s, start, j + 1)
  }

  /** No slice shorter than the one found, and none at all when nothing is found, is
      balanced. */
  lemma {:induction false} BalancedFromFirst(s: string, start: nat, j: nat)
    requires start <= j
    ensures forall k | j <= k <= |s| && (BalancedFrom(s, start, j).None? || k < BalancedFrom(s, start, j).value) ::
      Depth(s, start, k) != 0
    decreases |s| + 1 - j
  {
    if j <= |s| && Depth(s, start, j) != 0 {
      BalancedFromFirst(s, start, j + 1);
    }
  }

  /** Starting at a `{`, a slice whose every longer-than-empty prefix is unbalanced has more
      `{` than `}`: the count moves by one at a time from 1. */
  lemma {:induction false} BalancePositive(s: string, start: nat, k: nat)
    requires start < k <= |s| && s[start] == '{'
    requires forall m | start < m <= k :: Depth(s, start, m) != 0
    ensures Depth(s, start, k) > 0
  {
    if k > start + 1 {
      BalancePositive(s, start, k - 1);
    }
  }

  /** The brace-counting loop of `_extract_json_block`, from the first `{`: the end of the
      shortest balanced slice, if there is one. */
  method ScanBraces(s: string, start: nat) returns (end: Option<nat>)
    requires start < |s| && s[start] == '{'
    ensures end == BalancedFrom(s, start, start + 1)
    ensures end.Some? ==> (start + 1 < end.value <= |s| && Depth(s, start, end.value) == 0
      && s[end.value - 1] == '}' && forall k | start < k < end.value :: Depth(s, start, k) > 0)
    ensures end.None? ==> forall k | start < k <= |s| :: Depth(s, start, k) > 0
  {
    var depth := 0;
    var i := start;
    while i < |s|
      invariant start <= i <= |s|
      invariant depth == Depth(s, start, i)
      invariant i > start ==> depth > 0
      invariant BalancedFrom(s, start, start + 1) == BalancedFrom(s, start, i + 1)
      invariant forall k | start < k <= i :: Depth(s, start, k) > 0
    {
      if s[i] == '{' {
        depth := depth + 1;
      } else if s[i] == '}' {
        depth := depth - 1;
        if depth == 0 {
          return Some(i + 1);
        }
      }
      i := i + 1;
    }
    return None;
  }

  /** What `_extract_json_block(text)` returns: the object of a ```json fence, else of a
      plain fence, else the shortest balanced slice from the first `{`, else the text,
      each stripped. */
  function ExtractJsonBlockOf(text: string): (r: string) {
    match FirstFencedObject(text, true, 0)
    case Some(m) => Strip(text[m.0..m.1 + 1])
    case None =>
      match FirstFencedObject(text, false, 0)
      case Some(m) => Strip(text[m.0..m.1 + 1])
      case None => BraceBlock(text)
  }

  /** The unfenced case of `_extract_json_block`: the shortest balanced slice from the first
      `{`, else the text, stripped. */
  function BraceBlock(text: string): string {
    var start := IndexOf(text, '{');
    if start == |text| then Strip(text)
    else
      var b := BalancedFrom(text, start, start + 1);
      if b.Some? then Strip(text[start..b.value]) else Strip(text)
  }

  /** `_extract_json_block(text)`. */
  method ExtractJsonBlock(text: string) returns (r: string)
    ensures r == ExtractJsonBlockOf(text)
  {
    var m := FirstFencedObject(text, true, 0);
    if m.Some? {
      return Strip(text[m.value.0..m.value.1 + 1]);
    }
    m := FirstFencedObject(text, false, 0);
    if m.Some? {
      return Strip(text[m.value.0..m.value.1 + 1]);
    }
    var s := text;
    var start := IndexOf(s, '{');
    if start == |s| {
      return Strip(text);
    }
    var end := ScanBraces(s, start);
    if end.Some? {
      return Strip(s[start..end.value]);
    }
    return Strip(text);
  }

  /** Without fences: no `{` gives the stripped text; otherwise the result is the shortest
      slice from the first `{` with as many `{` as `}` (every shorter one has more `{`), or
      the stripped text when there is no such slice. */
  lemma UnfencedBlock(text: string)
    requires FirstFencedObject(text, true, 0).None? && FirstFencedObject(text, false, 0).None?
    ensures '{' !in text ==> ExtractJsonBlockOf(text) == Strip(text)
    ensures '{' in text ==>
      var start := IndexOf(text, '{');
      (exists e | start < e <= |text| ::
         ExtractJsonBlockOf(text) == text[start..e] && Depth(text, start, e) == 0
         && forall k | start < k < e :: Depth(text, start, k) > 0)
      || ((forall k | start < k <= |text| :: Depth(text, start, k) > 0) && ExtractJsonBlockOf(text) == Strip(text))
  {
    assert ExtractJsonBlockOf(text) == BraceBlock(text);
    var start := IndexOf(text, '{');
    if start < |text| {
      var b := BalancedFrom(text, start, start + 1);
      if b.Some? {
        UnfencedBalanced(text, start, b.value);
      } else {
        UnfencedNoSlice(text, start);
        UnbalancedPositive(text, start);
      }
    }
  }

  /** Without fences, a balanced slice from the first `{` is the result. */
  lemma UnfencedBalanced(text: string, start: nat, e: nat)
    requires start == IndexOf(text, '{') && start < |text|
    requires BalancedFrom(text, start, start + 1) == Some(e)
    ensures start < e <= |text| && BraceBlock(text) == text[start..e] && Depth(text, start, e) == 0
      && forall k | start < k < e :: Depth(text, start, k) > 0
  {
    BalancedSlice(text, start, e);
  }

  /** Without fences and without a balanced slice, the stripped text is the result. */
  lemma UnfencedNoSlice(text: string, start: nat)
    requires start == IndexOf(text, '{') && start < |text|
    requires BalancedFrom(text, start, start + 1).None?
    ensures BraceBlock(text) == Strip(text)
  {
  }

  /** Without a balanced slice from a `{`, every prefix of the rest has more `{` than `}`. */
  lemma UnbalancedPositive(text: string, start: nat)
    requires start < |text| && text[start] == '{'
    requires BalancedFrom(text, start, start + 1).None?
    ensures forall k | start < k <= |text| :: Depth(text, start, k) > 0
  {
    BalancedFromFirst(text, start, start + 1);
    forall k | start < k <= |text| ensures Depth(text, start, k) > 0 {
      BalancePositive(text, start, k);
    }
  }

  /** The shortest balanced slice from a `{` has more `{` in every shorter prefix, ends with
      `}`, and is left as it is by `strip`. */
  lemma BalancedSlice(text: string, start: nat, e: nat)
    requires start < |text| && text[start] == '{'
    requires BalancedFrom(text, start, start + 1) == Some(e)
    ensures start + 1 < e && forall k | start < k < e :: Depth(text, start, k) > 0
    ensures Strip(text[start..e]) == text[start..e]
  {
    BalancedFromFirst(text, start, start + 1);
    forall k | start < k < e ensures Depth(text, start, k) > 0 {
      BalancePositive(text, start, k);
    }
    assert Depth(text, start, start + 1) == 1;
    assert Depth(text, start, e - 1) > 0;
    assert Depth(text, start, e) == Depth(text, start, e - 1)
      + (if text[e - 1] == '{' then 1 else if text[e - 1] == '}' then -1 else 0);
    var w := text[start..e];
    assert w[0] == '{' && w[|w| - 1] == '}';
    StripWithUnchanged(w, Whitespace);
  }

  /** A JSON object inside a ```json fence is what comes out. */
  lemma FencedObjectExtracted(obj: string)
    requires |obj| >= 2 && obj[0] == '{' && obj[|obj| - 1] == '}' && '`' !in obj
    ensures ExtractJsonBlockOf("```json\n" + obj + "\n```") == obj
  {
    var t := "```json\n" + obj + "\n```";
    var q0 := 8 + |obj| - 1;
    FencedObjectAtStart(t, obj);
    assert FirstFencedObject(t, true, 0) == Some((8, q0));
    assert t[8..q0 + 1] == obj;
    StripWithUnchanged(obj, Whitespace);
  }

  /** The ```json fence at the start captures the object, up to its last brace. */
  lemma FencedObjectAtStart(t: string, obj: string)
    requires |obj| >= 2 && obj[0] == '{' && obj[|obj| - 1] == '}' && '`' !in obj
    requires t == "```json\n" + obj + "\n```"
    ensures FencedObjectAt(t, 0, true) == Some((8, 8 + |obj| - 1))
  {
    assert Lower(t[3..7]) == "json";
    assert JsonFenceAt(t, 0);
    assert WsEnd(t, 7) == 8 by { assert t[8] == '{'; }
    ObjectClosesAtLastBrace(t, obj);
  }

  /** Inside the fence, the first `}` that a fence follows is the object's last one. */
  lemma ObjectClosesAtLastBrace(t: string, obj: string)
    requires |obj| >= 2 && obj[|obj| - 1] == '}' && '`' !in obj
    requires t == "```json\n" + obj + "\n```"
    ensures LazyClose(t, 9) == Some(8 + |obj| - 1)
  {
    var q0 := 8 + |obj| - 1;
    assert CloseAt(t, q0) by {
      assert t[q0] == '}';
      assert WsEnd(t, q0 + 1) == q0 + 2 by { assert t[q0 + 2] == '`'; }
      assert t[q0 + 2..q0 + 5] == "```";
    }
    forall q | 9 <= q < q0 ensures !CloseAt(t, q) {
      NoCloseInside(t, obj, q);
    }
  }

  /** A `}` inside the object is followed, after any whitespace, by more of the object. */
  lemma NoCloseInside(t: string, obj: string, q: nat)
    requires |obj| >= 2 && obj[|obj| - 1] == '}' && '`' !in obj
    requires t == "```json\n" + obj + "\n```"
    requires 9 <= q < 8 + |obj| - 1
    ensures !CloseAt(t, q)
  {
    var q0 := 8 + |obj| - 1;
    var e := WsEnd(t, q + 1);
    assert t[q0] == '}' && !IsSpace(t[q0]);
    assert e <= q0;
    assert t[e] == obj[e - 8];
    assert t[e] != '`';
  }

  // ---------------------------------------------------------------------------
  // _sanitize_json_text
  // ---------------------------------------------------------------------------

  /** `_sanitize_json_text(txt)`: parenthesised remarks, `//` and `#` comments removed, lines
      joined with spaces, carriage returns dropped, and the result stripped. */
  function SanitizeJsonText(txt: string): (r: string)
    ensures '\n' !in r && '\r' !in r && '#' !in r
  {
    var a := CutComments(CutComments(RemoveParens(txt), "//"), "#");
    var b := ReplaceChar(a, '\n', ' ');
    var c := RemoveChar(b, '\r');
    MarkerCharGone(CutComments(RemoveParens(txt), "//"), '#');
    assert '#' !in b && '\n' !in b;
    assert '#' !in c && '\n' !in c by {
      if '#' in c { RemoveCharChars(b, '\r', '#'); }
      if '\n' in c { RemoveCharChars(b, '\r', '\n'); }
    }
    StripKeepsOut(c, '\n');
    StripKeepsOut(c, '\r');
    StripKeepsOut(c, '#');
    Strip(c)
  }

  // ---------------------------------------------------------------------------
  // _coerce_schema
  // ---------------------------------------------------------------------------

  /** The score `_coerce_schema` reads: a number truncated by `int()`; otherwise its text,
      when that is digits once its first `.` is removed, truncated; otherwise 0. */
  function CoercedScore(val: Json, show: Json -> string): (n: int)
    ensures val.JInt? ==> n == val.i
    ensures val.JStr? && IsDigitString(val.s) ==> n == DecimalValue(val.s)
    ensures val.JStr? && '%' in val.s ==> n == 0
    ensures !IsNumber(val) ==> n >= 0
  {
    if IsNumber(val) then IntOfNumber(val)
    else
      var sv := Str(val, show);
      if IsDigitString(RemoveFirst(sv, '.')) then
        assert forall i | 0 <= i < |sv| :: IsDigit(sv[i]) || sv[i] == '.' by {
          forall i | 0 <= i < |sv| ensures IsDigit(sv[i]) || sv[i] == '.' {
            if sv[i] != '.' {
              RemoveFirstChars(sv, '.', sv[i]);
              var w := RemoveFirst(sv, '.');
              var j :| 0 <= j < |w| && w[j] == sv[i];
            }
          }
        }
        assert '%' in sv ==> '%' in RemoveFirst(sv, '.') by { RemoveFirstChars(sv, '.', '%'); }
        WholePart(sv)
      else 0
  }

  /** `_coerce_schema(obj)`. `list(v)` raises for a value that is not iterable. */
  function CoerceSchema(obj: Json, show: Json -> string): (r: Result<Evaluation, PyError>)
    ensures !obj.JDict? ==> r == Success(Fallback(Take(Str(obj, show), 200)))
    ensures r.Success? ==> |r.value.reason| <= 500
    ensures obj.JDict? ==> (r.Success? <==>
      Iterate(Get(obj.pairs, "matched_skills", JList([]))).Success?
      && Iterate(Get(obj.pairs, "missing_skills", JList([]))).Success?)
    ensures obj.JDict? && r.Success? ==> r.value.score == CoercedScore(Get(obj.pairs, "score", JInt(0)), show)
  {
    if !obj.JDict? then Success(Fallback(Take(Str(obj, show), 200)))
    else
      var score := CoercedScore(Get(obj.pairs, "score", JInt(0)), show);
      match Iterate(Get(obj.pairs, "matched_skills", JList([])))
      case Failure(e) => Failure(e)
      case Success(matched) =>
        match Iterate(Get(obj.pairs, "missing_skills", JList([])))
        case Failure(e) => Failure(e)
        case Success(missing) =>
          Success(Evaluation(score, matched, missing, Take(Str(Get(obj.pairs, "reason", JStr("")), show), 500)))
  }

  /** The score rule on text: "85" reads as 85, "85.9" as 85, and "85%" as 0. */
  lemma PercentScoreIsZero(show: Json -> string)
    ensures CoercedScore(JStr("85"), show) == 85
    ensures CoercedScore(JStr("85.9"), show) == 85
    ensures CoercedScore(JStr("85%"), show) == 0
  {
    WholeScoreRead("85", show);
    PointScoreRead("85.9", show);
    PercentScoreRead("85%", show);
  }

  lemma WholeScoreRead(v: string, show: Json -> string)
    requires v == "85"
    ensures CoercedScore(JStr(v), show) == 85
  {
    TwoDigitValue(v);
  }

  lemma PointScoreRead(v: string, show: Json -> string)
    requires v == "85.9"
    ensures CoercedScore(JStr(v), show) == 85
  {
    assert v[0] != '.' && v[1] != '.' && v[2] == '.';
    assert IndexOf(v, '.') == 2;
    var w := RemoveFirst(v, '.');
    assert w == v[..2] + v[3..];
    assert IsDigit(w[0]) && IsDigit(w[1]) && IsDigit(w[2]) && |w| == 3;
    assert IsDigitString(w);
    assert v[..2][0] == '8' && v[..2][1] == '5';
    TwoDigitValue(v[..2]);
  }

  /** The value of a two-digit decimal. */
  lemma TwoDigitValue(s: string)
    requires |s| == 2 && IsDigit(s[0]) && IsDigit(s[1])
    ensures AllDigits(s) && DecimalValue(s) == 10 * DigitValue(s[0]) + DigitValue(s[1])
  {
    var h := s[..1];
    assert h[..0] == [] && h[0] == s[0] && s[..|s| - 1] == h;
    assert DecimalValue(h) == 10 * DecimalValue(h[..0]) + DigitValue(s[0]);
    assert DecimalValue(s) == 10 * DecimalValue(h) + DigitValue(s[1]);
  }

  lemma PercentScoreRead(v: string, show: Json -> string)
    requires v == "85%"
    ensures CoercedScore(JStr(v), show) == 0
  {
    assert v[2] == '%';
  }

  // ---------------------------------------------------------------------------
  // evaluate_match
  // ---------------------------------------------------------------------------

  /** `evaluate_match(jd_text, cv_text)`: `llm` gives the model's reply text for the two
      texts, `parse` is `json.loads` (nothing when it fails), and `message` is `str(e)` of
      an exception raised while coercing. A blank input gets a verdict without the model. */
  function EvaluateMatch(jd: string, cv: string, llm: (string, string) -> string,
                         parse: string -> Option<Json>, show: Json -> string, message: PyError -> string): (r: Evaluation)
    ensures IsBlank(jd) || IsBlank(cv) ==> r == Fallback("Empty input text.")
    ensures !IsBlank(jd) && !IsBlank(cv) && IsBlank(llm(jd, cv)) ==> r == Fallback("Gemini returned empty response")
    ensures |r.reason| <= 500
  {
    if IsBlank(jd) || IsBlank(cv) then Fallback("Empty input text.")
    else
      var raw := Strip(llm(jd, cv));
      if raw == "" then Fallback("Gemini returned empty response")
      else
        var cleaned := SanitizeJsonText(ExtractJsonBlockOf(StripCodeFence(raw)));
        match parse(cleaned)
        case None => Fallback(Take(cleaned, 200))
        case Some(parsed) =>
          match CoerceSchema(parsed, show)
          case Success(e) => e
          case Failure(err) => Fallback(Take(message(err), 200))
  }

  /** A reply with no backtick holds no fenced object. */
  lemma {:induction false} NoFencedObjectWithoutBackticks(t: string, tagged: bool, p: nat)
    requires p <= |t| && '`' !in t
    ensures FirstFencedObject(t, tagged, p) == None
    decreases |t| - p
  {
    assert !FenceAt(t, p) by {
      if p + 3 <= |t| { assert t[p..p + 3][0] == t[p]; }
    }
    if p < |t| {
      NoFencedObjectWithoutBackticks(t, tagged, p + 1);
    }
  }

  /** A reply that is one balanced JSON object on one line, free of parenthesised remarks
      and comment markers, inside a ```json fence: the verdict is the coerced object that
      `json.loads` reads from exactly that object text, or the fallback quoting it when it
      does not parse. */
  lemma FencedObjectReplyEvaluated(jd: string, cv: string, llm: (string, string) -> string,
                                   parse: string -> Option<Json>, show: Json -> string,
                                   message: PyError -> string, obj: string)
    requires !IsBlank(jd) && !IsBlank(cv)
    requires llm(jd, cv) == "```json\n" + obj + "\n```"
    requires |obj| >= 2 && obj[0] == '{' && obj[|obj| - 1] == '}' && BalancedFrom(obj, 0, 1) == Some(|obj|)
    requires '`' !in obj && '(' !in obj && '/' !in obj && '#' !in obj && '\n' !in obj && '\r' !in obj
    ensures parse(obj).None? ==> EvaluateMatch(jd, cv, llm, parse, show, message) == Fallback(Take(obj, 200))
    ensures parse(obj).Some? && CoerceSchema(parse(obj).value, show).Success? ==>
      EvaluateMatch(jd, cv, llm, parse, show, message) == CoerceSchema(parse(obj).value, show).value
  {
    var reply := llm(jd, cv);
    StripWithUnchanged(reply, Whitespace);
    StripWithUnchanged(obj, Whitespace);
    FencedReplyUnwrapped(obj);
    BareObjectExtracted(obj);
    PlainObjectSanitized(obj);
    assert SanitizeJsonText(ExtractJsonBlockOf(StripCodeFence(Strip(reply)))) == obj;
  }

  /** Without fences, a balanced object from the first character is extracted whole. */
  lemma BareObjectExtracted(obj: string)
    requires |obj| >= 2 && obj[0] == '{' && obj[|obj| - 1] == '}' && BalancedFrom(obj, 0, 1) == Some(|obj|)
    requires '`' !in obj
    ensures ExtractJsonBlockOf(obj) == obj
  {
    NoFencedObjectWithoutBackticks(obj, true, 0);
    NoFencedObjectWithoutBackticks(obj, false, 0);
    assert IndexOf(obj, '{') == 0;
    assert obj[0..|obj|] == obj;
    StripWithUnchanged(obj, Whitespace);
  }

  /** A stripped line without parentheses, comment markers or line breaks is left as it is. */
  lemma PlainObjectSanitized(obj: string)
    requires obj != [] && !IsSpace(obj[0]) && !IsSpace(obj[|obj| - 1])
    requires '(' !in obj && '/' !in obj && '#' !in obj && '\n' !in obj && '\r' !in obj
    ensures SanitizeJsonText(obj) == obj
  {
    RemoveParensOfPlain(obj);
    CutCommentsOfPlain(obj, "//");
    CutCommentsOfPlain(obj, "#");
    assert ReplaceChar(obj, '\n', ' ') == obj;
    RemoveCharOfAbsent(obj, '\r');
    StripWithUnchanged(obj, Whitespace);
  }
}
