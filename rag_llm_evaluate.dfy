/** The match evaluator of the retrieval pipeline (app/server/ragmodel/logics/llmEvaluate.py):
    the same flow as the first evaluator with different clean-ups. Every fence is removed
    wherever it stands, the object is taken from the first `{` to the last `}`, and the
    score reader accepts a percent sign. The model's reply and `json.loads` are
    parameters. */
module RagLlmEvaluate {
  import opened Wrappers
  import opened PyStr
  import opened PyJson
  import opened LlmReply

  // ---------------------------------------------------------------------------
  // _clean_code_fence
  // ---------------------------------------------------------------------------

  /** `re.sub(r"```json", "", t, flags=re.I)`: every ```json, the word in any case, removed
      left to right. */
  function RemoveJsonFences(t: string): (r: string)
    ensures |r| <= |t|
    decreases |t|
  {
    if |t| < 7 then t
    else if JsonFenceAt(t, 0) then RemoveJsonFences(t[7..])
    else [t[0]] + RemoveJsonFences(t[1..])
  }

  /** No three backticks in a row. */
  predicate NoFence(t: string) { forall i | 0 <= i && i + 3 <= |t| :: !FenceAt(t, i) }

  /** `re.sub(r"```", "", t)`: every three backticks removed, left to right. */
  function RemoveFences(t: string): (r: string)
    ensures |r| <= |t|
    decreases |t|
  {
    if |t| < 3 then t
    else if FenceAt(t, 0) then RemoveFences(t[3..])
    else [t[0]] + RemoveFences(t[1..])
  }

  /** `_clean_code_fence(t)`. */
  function CleanCodeFence(t: string): (r: string)
    ensures NoFence(r)
    ensures r == [] || (!IsSpace(r[0]) && !IsSpace(r[|r| - 1]))
  {
    var u := RemoveFences(RemoveJsonFences(Strip(t)));
    FencesGone(RemoveJsonFences(Strip(t)));
    StripOfNoFence(u);
    Strip(u)
  }

  /** Removing ``` left to right leaves a string that starts like the original unless the
      original starts with ```. */
  lemma RemoveFencesHead(t: string)
    requires t != [] && !FenceAt(t, 0)
    ensures RemoveFences(t) == [t[0]] + RemoveFences(t[1..])
  {
  }

  /** Removing every ``` leaves none, even where the removal brings backticks together. */
  lemma {:induction false} FencesGone(t: string)
    ensures NoFence(RemoveFences(t))
    decreases |t|
  {
    if |t| >= 3 {
      if FenceAt(t, 0) {
        assert t[..3] == "```";
        FencesGone(t[3..]);
      } else {
        FencesGone(t[1..]);
        var rest := RemoveFences(t[1..]);
        var r := [t[0]] + rest;
        assert RemoveFences(t) == r;
        if t[0] == '`' {
          // `t` does not start with three backticks, so `rest` cannot start with two.
          if t[1] != '`' {
            if |t[1..]| >= 3 { assert !FenceAt(t[1..], 0); }
            HeadKept(t[1..]);
          } else {
            assert t[2] != '`';
            assert !FenceAt(t[1..], 0);
            HeadKept(t[1..]);
            HeadKept(t[2..]);
            assert rest == [t[1]] + RemoveFences(t[2..]);
          }
          assert |rest| >= 2 ==> rest[0] != '`' || rest[1] != '`';
        }
        forall i | 0 <= i && i + 3 <= |r| ensures !FenceAt(r, i) {
          if i == 0 {
            assert r[0..3] == [t[0], rest[0], rest[1]];
            assert r[0] != '`' || rest[0] != '`' || rest[1] != '`';
          } else {
            assert r[i..i + 3] == rest[i - 1..i + 2];
            assert !FenceAt(rest, i - 1);
          }
        }
      }
    } else {
      assert RemoveFences(t) == t;
    }
  }

  /** The first character survives when no ``` starts there. */
  lemma HeadKept(t: string)
    requires t != [] && !FenceAt(t, 0)
    ensures RemoveFences(t) != [] && RemoveFences(t)[0] == t[0]
  {
    if |t| >= 3 {
      assert t[..3] != "```";
    }
  }

  /** Stripping leaves no new fence. */
  lemma StripOfNoFence(t: string)
    requires NoFence(t)
    ensures NoFence(Strip(t))
  {
    LStripFacts(t, Whitespace);
    var l := LStrip(t, Whitespace);
    RStripFacts(l, Whitespace);
    var r := Strip(t);
    var k := |t| - |l|;
    assert r == l[..|r|] && l == t[k..];
    forall i | 0 <= i && i + 3 <= |r| ensures !FenceAt(r, i) {
      assert r[i..i + 3] == l[i..i + 3] == t[k + i..k + i + 3];
      assert !FenceAt(t, k + i);
    }
  }

  // ---------------------------------------------------------------------------
  // _extract_json
  // ---------------------------------------------------------------------------

  /** `t.rfind(c)`: the last index holding `c`. */
  function LastIndex(t: string, c: char): (r: Option<nat>)
    ensures r.Some? ==> r.value < |t| && t[r.value] == c && forall j | r.value < j < |t| :: t[j] != c
    ensures r.None? ==> c !in t
  {
    if t == [] then None
    else if t[|t| - 1] == c then Some(|t| - 1)
    else LastIndex(t[..|t| - 1], c)
  }

  /** `_extract_json(t)`: from the first `{` to the last `}` when the `}` comes after the
      `{`, else the stripped text. */
  function ExtractJson(t: string): (r: string)
    ensures '{' !in t || '}' !in t ==> r == Strip(t)
    ensures '{' in t && '}' in t && IndexOf(t, '{') < LastIndex(t, '}').value ==>
      r == t[IndexOf(t, '{')..LastIndex(t, '}').value + 1] && r[0] == '{' && r[|r| - 1] == '}'
  {
    var start := IndexOf(t, '{');
    var end := LastIndex(t, '}');
    if start < |t| && end.Some? && end.value > start then t[start..end.value + 1] else Strip(t)
  }

  /** An object written between a text without `{` and a text without `}` is what comes
      out, whatever braces it holds inside. */
  lemma ExtractJsonAround(pre: string, obj: string, post: string)
    requires '{' !in pre && '}' !in post
    requires |obj| >= 2 && obj[0] == '{' && obj[|obj| - 1] == '}'
    ensures ExtractJson(pre + obj + post) == obj
  {
    var t := pre + obj + post;
    assert t[|pre|] == '{';
    assert forall j | 0 <= j < |pre| :: t[j] == pre[j];
    assert IndexOf(t, '{') == |pre|;
    var last := |pre| + |obj| - 1;
    assert t[last] == '}';
    assert forall j | last < j < |t| :: t[j] == post[j - |pre| - |obj|];
    assert LastIndex(t, '}') == Some(last);
    assert t[|pre|..last + 1] == obj;
  }

  // ---------------------------------------------------------------------------
  // _sanitize_json
  // ---------------------------------------------------------------------------

  /** `_sanitize_json(t)`: parenthesised remarks, `//` and `#` comments removed, lines joined
      with spaces, and the result stripped. Carriage returns are kept. */
  function SanitizeJson(t: string): (r: string)
    ensures '\n' !in r && '#' !in r
  {
    var a := CutComments(CutComments(RemoveParens(t), "//"), "#");
    var b := ReplaceChar(a, '\n', ' ');
    MarkerCharGone(CutComments(RemoveParens(t), "//"), '#');
    assert '#' !in b && '\n' !in b;
    StripKeepsOut(b, '\n');
    StripKeepsOut(b, '#');
    Strip(b)
  }

  /** A carriage return inside the object is left in place. */
  lemma CarriageReturnKept(t: string)
    requires t == "{\r}"
    ensures SanitizeJson(t) == t
  {
    assert t[0] == '{' && t[1] == '\r' && t[2] == '}' && |t| == 3;
    assert !IsSpace(t[0]) && !IsSpace(t[2]);
    assert '(' !in t && '/' !in t && '#' !in t && '\n' !in t;
    PlainJsonSanitized(t);
  }

  // ---------------------------------------------------------------------------
  // _validate
  // ---------------------------------------------------------------------------

  /** The score `_validate` reads from text that is not a number, once every `%` is
      removed: when the text is digits once its points are removed, `int(float(v))`, which
      fails (giving 0) for more than one point; otherwise 0. */
  function TextScore(v: string): (n: nat)
    ensures IsDigitString(v) ==> n == DecimalValue(v)
  {
    if IsDigitString(RemoveChar(v, '.')) then
      if Count(v, '.') <= 1 then
        assert forall i | 0 <= i < |v| :: IsDigit(v[i]) || v[i] == '.' by {
          forall i | 0 <= i < |v| ensures IsDigit(v[i]) || v[i] == '.' {
            if v[i] != '.' {
              RemoveCharKeeps(v, '.', i);
            }
          }
        }
        WholePart(v)
      else 0
    else
      assert !IsDigitString(v) by {
        if IsDigitString(v) { RemoveCharOfAbsent(v, '.'); }
      }
      0
  }

  /** The score `_validate` reads: a number truncated by `int()`, otherwise its text read
      by `TextScore` once every `%` is removed. */
  function ValidatedScore(val: Json, show: Json -> string): (n: int)
    ensures val.JInt? ==> n == val.i
    ensures val.JStr? && IsDigitString(val.s) ==> n == DecimalValue(val.s)
    ensures !IsNumber(val) ==> n >= 0
  {
    if IsNumber(val) then IntOfNumber(val)
    else
      assert val.JStr? && IsDigitString(val.s) ==> RemoveChar(val.s, '%') == val.s by {
        if val.JStr? && IsDigitString(val.s) { RemoveCharOfAbsent(val.s, '%'); }
      }
      TextScore(RemoveChar(Str(val, show), '%'))
  }

  /** A percent sign after the score is dropped: "85%" reads as 85. */
  lemma PercentScoreRead(v: string, show: Json -> string)
    requires v == "85%"
    ensures ValidatedScore(JStr(v), show) == 85
  {
    assert ValidatedScore(JStr(v), show) == TextScore(RemoveChar(v, '%'));
    TextScoreWhole();
  }

  /** A score written with two points is not a number `float()` reads, so it counts 0. */
  lemma TwoPointScoreRead(v: string, show: Json -> string)
    requires v == "1.2.3"
    ensures ValidatedScore(JStr(v), show) == 0
  {
    assert ValidatedScore(JStr(v), show) == TextScore(RemoveChar(v, '%'));
    TextScoreTwoPoints();
  }

  lemma TextScoreWhole()
    ensures TextScore(RemoveChar("85%", '%')) == 85
  {
    assert RemoveChar("85%", '%') == "85";
    assert IsDigitString("85");
    assert DecimalValue("85") == 85 by { assert "85"[..1] == "8"; }
  }

  lemma TextScoreTwoPoints()
    ensures TextScore(RemoveChar("1.2.3", '%')) == 0
  {
    assert RemoveChar("1.2.3", '%') == "1.2.3";
    assert RemoveChar("1.2.3", '.') == "123";
    assert Count("1.2.3", '.') == 2;
  }

  /** `[s.strip() for s in items if isinstance(s, str)]`. */
  function StrippedStrings(items: seq<Json>): (r: seq<string>)
    ensures |r| <= |items|
  {
    if items == [] then []
    else StrippedStrings(items[..|items| - 1])
         + (if items[|items| - 1].JStr? then [Strip(items[|items| - 1].s)] else [])
  }

  /** The skills kept are exactly the strings of the list, stripped. */
  lemma {:induction false} StrippedStringsMembers(items: seq<Json>, x: string)
    ensures x in StrippedStrings(items) <==> exists i | 0 <= i < |items| :: items[i].JStr? && x == Strip(items[i].s)
  {
    if items != [] {
      var init := items[..|items| - 1];
      StrippedStringsMembers(init, x);
      if x in StrippedStrings(init) {
        var i :| 0 <= i < |init| && init[i].JStr? && x == Strip(init[i].s);
        assert items[i] == init[i];
      }
      if x !in StrippedStrings(items) {
        forall i | 0 <= i < |items| && items[i].JStr? ensures x != Strip(items[i].s) {
          if i < |init| { assert items[i] == init[i]; }
        }
      }
    }
  }

  /** `_validate(obj)`. Iterating a value that is not iterable raises. */
  function Validate(obj: Json, show: Json -> string): (r: Result<Evaluation, PyError>)
    ensures !obj.JDict? ==> r == Success(Fallback(Take(Str(obj, show), 200)))
    ensures r.Success? ==> |r.value.reason| <= 400
    ensures obj.JDict? ==> (r.Success? <==>
      Iterate(Get(obj.pairs, "matched_skills", JList([]))).Success?
      && Iterate(Get(obj.pairs, "missing_skills", JList([]))).Success?)
    ensures obj.JDict? && r.Success? ==> r.value.score == ValidatedScore(Get(obj.pairs, "score", JInt(0)), show)
    ensures obj.JDict? && r.Success? ==>
      (forall i | 0 <= i < |r.value.matchedSkills| :: r.value.matchedSkills[i].JStr?)
      && (forall i | 0 <= i < |r.value.missingSkills| :: r.value.missingSkills[i].JStr?)
  {
    if !obj.JDict? then Success(Fallback(Take(Str(obj, show), 200)))
    else
      var score := ValidatedScore(Get(obj.pairs, "score", JInt(0)), show);
      match Iterate(Get(obj.pairs, "matched_skills", JList([])))
      case Failure(e) => Failure(e)
      case Success(matched) =>
        match Iterate(Get(obj.pairs, "missing_skills", JList([])))
        case Failure(e) => Failure(e)
        case Success(missing) =>
          Success(Evaluation(score, JStrs(StrippedStrings(matched)), JStrs(StrippedStrings(missing)),
                             Take(Str(Get(obj.pairs, "reason", JStr("")), show), 400)))
  }

  // ---------------------------------------------------------------------------
  // evaluate_match
  // ---------------------------------------------------------------------------

  /** `evaluate_match(jd_fulltext, cv_fulltext)`: `llm` gives the model's reply text for the
      two texts and `parse` is `json.loads` (nothing when it fails). A blank input gets a
      verdict without the model; any failure after the reply falls back to the cleaned
      text. */
  function EvaluateMatch(jd: string, cv: string, llm: (string, string) -> string,
                         parse: string -> Option<Json>, show: Json -> string): (r: Evaluation)
    ensures IsBlank(jd) || IsBlank(cv) ==> r == Fallback("Empty input.")
    ensures |r.reason| <= 400
  {
    if IsBlank(jd) || IsBlank(cv) then Fallback("Empty input.")
    else
      var raw := Strip(llm(jd, cv));
      var cleaned := SanitizeJson(ExtractJson(CleanCodeFence(raw)));
      match parse(cleaned)
      case None => Fallback(Take(cleaned, 200))
      case Some(parsed) =>
        match Validate(parsed, show)
        case Success(e) => e
        case Failure(_) => Fallback(Take(cleaned, 200))
  }

  /** Before a closing fence, a text without backticks holds no ```json to remove. */
  lemma {:induction false} JsonFencesBeforeClose(p: string)
    requires '`' !in p
    ensures RemoveJsonFences(p + "```") == p + "```"
    decreases |p|
  {
    var t := p + "```";
    if |t| >= 7 {
      assert !JsonFenceAt(t, 0) by { assert t[0] == p[0]; }
      JsonFencesBeforeClose(p[1..]);
      assert t[1..] == p[1..] + "```";
    }
  }

  /** Before a closing fence, a text without backticks loses exactly that fence. */
  lemma {:induction false} FencesBeforeClose(p: string)
    requires '`' !in p
    ensures RemoveFences(p + "```") == p
    decreases |p|
  {
    var t := p + "```";
    if p == [] {
      assert FenceAt(t, 0);
      assert t[3..] == [];
    } else {
      assert !FenceAt(t, 0) by { assert t[0] == p[0]; }
      FencesBeforeClose(p[1..]);
      assert t[1..] == p[1..] + "```";
      assert p == [p[0]] + p[1..];
    }
  }

  /** A ```json fence around a stripped body without backticks is cleaned down to the body. */
  lemma FencedReplyCleaned(body: string)
    requires body != [] && !IsSpace(body[0]) && !IsSpace(body[|body| - 1]) && '`' !in body
    ensures CleanCodeFence("```json\n" + body + "\n```") == body
  {
    var t := "```json\n" + body + "\n```";
    StripWithUnchanged(t, Whitespace);
    assert Lower(t[3..7]) == "json";
    assert JsonFenceAt(t, 0);
    var p := "\n" + body + "\n";
    assert t[7..] == p + "```";
    JsonFencesBeforeClose(p);
    FencesBeforeClose(p);
    assert RemoveFences(RemoveJsonFences(Strip(t))) == p;
    assert LStrip(p, Whitespace) == body + "\n" by {
      assert p[1..] == body + "\n";
    }
    assert RStrip(body + "\n", Whitespace) == body by {
      assert (body + "\n")[..|body|] == body;
    }
  }

  /** A stripped line without parentheses, comment markers or line breaks is left as it is. */
  lemma PlainJsonSanitized(obj: string)
    requires obj != [] && !IsSpace(obj[0]) && !IsSpace(obj[|obj| - 1])
    requires '(' !in obj && '/' !in obj && '#' !in obj && '\n' !in obj
    ensures SanitizeJson(obj) == obj
  {
    RemoveParensOfPlain(obj);
    CutCommentsOfPlain(obj, "//");
    CutCommentsOfPlain(obj, "#");
    assert ReplaceChar(obj, '\n', ' ') == obj;
    StripWithUnchanged(obj, Whitespace);
  }

  /** A reply that is one JSON object on one line, free of parenthesised remarks and comment
      markers, inside a ```json fence: the verdict is the validated object that `json.loads`
      reads from exactly that object text, or the fallback quoting it when it does not
      parse. */
  lemma FencedObjectReplyEvaluated(jd: string, cv: string, llm: (string, string) -> string,
                                   parse: string -> Option<Json>, show: Json -> string, obj: string)
    requires !IsBlank(jd) && !IsBlank(cv)
    requires llm(jd, cv) == "```json\n" + obj + "\n```"
    requires |obj| >= 2 && obj[0] == '{' && obj[|obj| - 1] == '}'
    requires '`' !in obj && '(' !in obj && '/' !in obj && '#' !in obj && '\n' !in obj
    ensures parse(obj).None? ==> EvaluateMatch(jd, cv, llm, parse, show) == Fallback(Take(obj, 200))
    ensures parse(obj).Some? && Validate(parse(obj).value, show).Success? ==>
      EvaluateMatch(jd, cv, llm, parse, show) == Validate(parse(obj).value, show).value
    ensures parse(obj).Some? && Validate(parse(obj).value, show).Failure? ==>
      EvaluateMatch(jd, cv, llm, parse, show) == Fallback(Take(obj, 200))
  {
    FencedObjectCleaned(llm(jd, cv), obj);
    EvaluateMatchOfCleaned(jd, cv, llm, parse, show, obj);
  }

  /** The clean-up chain takes a fenced one-line object down to the object. */
  lemma FencedObjectCleaned(reply: string, obj: string)
    requires reply == "```json\n" + obj + "\n```"
    requires |obj| >= 2 && obj[0] == '{' && obj[|obj| - 1] == '}'
    requires '`' !in obj && '(' !in obj && '/' !in obj && '#' !in obj && '\n' !in obj
    ensures SanitizeJson(ExtractJson(CleanCodeFence(Strip(reply)))) == obj
  {
    StripWithUnchanged(reply, Whitespace);
    FencedReplyCleaned(obj);
    ExtractJsonAround("", obj, "");
    assert "" + obj + "" == obj;
    PlainJsonSanitized(obj);
  }

  /** The verdict on a non-blank input, in terms of the cleaned reply. */
  lemma EvaluateMatchOfCleaned(jd: string, cv: string, llm: (string, string) -> string,
                               parse: string -> Option<Json>, show: Json -> string, cleaned: string)
    requires !IsBlank(jd) && !IsBlank(cv)
    requires SanitizeJson(ExtractJson(CleanCodeFence(Strip(llm(jd, cv))))) == cleaned
    ensures parse(cleaned).None? ==> EvaluateMatch(jd, cv, llm, parse, show) == Fallback(Take(cleaned, 200))
    ensures parse(cleaned).Some? && Validate(parse(cleaned).value, show).Success? ==>
      EvaluateMatch(jd, cv, llm, parse, show) == Validate(parse(cleaned).value, show).value
    ensures parse(cleaned).Some? && Validate(parse(cleaned).value, show).Failure? ==>
      EvaluateMatch(jd, cv, llm, parse, show) == Fallback(Take(cleaned, 200))
  {
  }
}
