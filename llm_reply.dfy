/** What the two match evaluators (logics/llmEvaluate.py and
    app/server/ragmodel/logics/llmEvaluate.py) share: the four-field verdict they return,
    and the regular-expression clean-ups they apply to the model's reply before handing it
    to `json.loads`. */
module LlmReply {
  import opened Wrappers
  import opened PyStr
  import opened PyJson

  /** The verdict: exactly the keys score, matched_skills, missing_skills and reason. */
  datatype Evaluation = Evaluation(score: int, matchedSkills: seq<Json>, missingSkills: seq<Json>, reason: string)

  /** The verdict given when no reply could be used: score 0, no skills, and a reason. */
  function Fallback(reason: string): (r: Evaluation)
    ensures r.score == 0 && r.matchedSkills == [] && r.missingSkills == [] && r.reason == reason
  {
    Evaluation(0, [], [], reason)
  }

  /** `not s.strip()`. */
  predicate IsBlank(s: string) { Strip(s) == "" }

  /** The end of the run of whitespace starting at `k` (`\s*`, taken greedily). */
  function WsEnd(t: string, k: nat): (e: nat)
    requires k <= |t|
    ensures k <= e <= |t|
    ensures forall j | k <= j < e :: IsSpace(t[j])
    ensures e < |t| ==> !IsSpace(t[e])
    decreases |t| - k
  {
    if k < |t| && IsSpace(t[k]) then WsEnd(t, k + 1) else k
  }

  /** Three backticks at `k`. */
  predicate FenceAt(t: string, k: nat) { k + 3 <= |t| && t[k..k + 3] == "```" }

  /** Three backticks and the word `json`, in any case, at `k`. */
  predicate JsonFenceAt(t: string, k: nat) { FenceAt(t, k) && k + 7 <= |t| && Lower(t[k + 3..k + 7]) == "json" }

  /** Every character of a stripped string comes from the string. */
  lemma StripKeepsOut(s: string, c: char)
    requires c !in s
    ensures c !in Strip(s)
  {
    LStripFacts(s, Whitespace);
    RStripFacts(LStrip(s, Whitespace), Whitespace);
  }

  // ---------------------------------------------------------------------------
  // re.sub(r'\([^)]*\)', '', t)
  // ---------------------------------------------------------------------------

  /** No opening parenthesis has a closing one after it. */
  predicate NoParenPair(r: string) {
    forall i, j | 0 <= i < j < |r| :: r[i] == '(' ==> r[j] != ')'
  }

  /** `re.sub(r'\([^)]*\)', '', t)`: scanning left to right, every `(` that has a `)` after
      it is removed together with everything up to and including the first such `)`. */
  function RemoveParens(t: string): (r: string)
    ensures |r| <= |t|
    decreases |t|
  {
    if t == [] then []
    else if t[0] == '(' && ')' in t[1..] then RemoveParens(t[1..][IndexOf(t[1..], ')') + 1..])
    else [t[0]] + RemoveParens(t[1..])
  }

  /** Removing parenthesised remarks only removes characters. */
  lemma {:induction false} RemoveParensChars(t: string, c: char)
    requires c in RemoveParens(t)
    ensures c in t
    decreases |t|
  {
    if t[0] == '(' && ')' in t[1..] {
      var rest := t[1..][IndexOf(t[1..], ')') + 1..];
      RemoveParensChars(rest, c);
    } else if c != t[0] {
      RemoveParensChars(t[1..], c);
    }
  }

  /** Once the remarks are removed, no `(` has a `)` after it. */
  lemma {:induction false} RemoveParensNoPair(t: string)
    ensures NoParenPair(RemoveParens(t))
    decreases |t|
  {
    if t != [] {
      if t[0] == '(' && ')' in t[1..] {
        RemoveParensNoPair(t[1..][IndexOf(t[1..], ')') + 1..]);
      } else {
        var rest := RemoveParens(t[1..]);
        var r := RemoveParens(t);
        RemoveParensNoPair(t[1..]);
        assert r == [t[0]] + rest;
        forall i, j | 0 <= i < j < |r| && r[i] == '(' ensures r[j] != ')' {
          if i == 0 {
            assert ')' !in t[1..];
            if r[j] == ')' {
              assert rest[j - 1] == ')';
              RemoveParensChars(t[1..], ')');
            }
          } else {
            assert r[i] == rest[i - 1] && r[j] == rest[j - 1];
          }
        }
      }
    }
  }

  /** A text without `(` is left as it is. */
  lemma {:induction false} RemoveParensOfPlain(t: string)
    requires '(' !in t
    ensures RemoveParens(t) == t
    decreases |t|
  {
    if t != [] {
      RemoveParensOfPlain(t[1..]);
      assert t == [t[0]] + t[1..];
    }
  }

  /** A parenthesised remark is dropped from between two words. */
  lemma {:induction false} RemoveParensDropsRemark(a: string, remark: string, b: string)
    requires '(' !in a && ')' !in remark && '(' !in b
    ensures RemoveParens(a + "(" + remark + ")" + b) == a + b
    decreases |a|
  {
    var t := a + "(" + remark + ")" + b;
    if a == [] {
      var u := remark + ")" + b;
      assert t[1..] == u;
      assert IndexOf(u, ')') == |remark| by {
        assert u[|remark|] == ')';
      }
      assert u[|remark| + 1..] == b;
      RemoveParensOfPlain(b);
    } else {
      assert t[1..] == a[1..] + "(" + remark + ")" + b;
      RemoveParensDropsRemark(a[1..], remark, b);
      assert a == [a[0]] + a[1..];
    }
  }

  // ---------------------------------------------------------------------------
  // re.sub(r'//.*', '', t) and re.sub(r'#.*', '', t)
  // ---------------------------------------------------------------------------

  /** `re.sub(marker + r'.*', '', t)`: scanning left to right, every occurrence of `marker`
      is removed together with the rest of its line (`.` stops at a newline). */
  function CutComments(t: string, marker: string): (r: string)
    requires marker != [] && '\n' !in marker
    ensures |r| <= |t|
    ensures t != [] && !StartsWith(t, marker) ==> r != [] && r[0] == t[0]
    decreases |t|
  {
    if t == [] then []
    else if StartsWith(t, marker) then
      var k := IndexOf(t, '\n');
      assert k > 0 by { assert t[0] == marker[0]; }
      CutComments(t[k..], marker)
    else [t[0]] + CutComments(t[1..], marker)
  }

  /** Cutting comments only removes characters. */
  lemma {:induction false} CutCommentsChars(t: string, marker: string, c: char)
    requires marker != [] && '\n' !in marker
    requires c in CutComments(t, marker)
    ensures c in t
    decreases |t|
  {
    if StartsWith(t, marker) {
      var k := IndexOf(t, '\n');
      assert k > 0 by { assert t[0] == marker[0]; }
      CutCommentsChars(t[k..], marker, c);
    } else if c != t[0] {
      CutCommentsChars(t[1..], marker, c);
    }
  }

  /** A one-character marker is gone once its comments are cut. */
  lemma {:induction false} MarkerCharGone(t: string, m: char)
    requires m != '\n'
    ensures m !in CutComments(t, [m])
    decreases |t|
  {
    if t != [] {
      if StartsWith(t, [m]) {
        var k := IndexOf(t, '\n');
        assert k > 0;
        MarkerCharGone(t[k..], m);
      } else {
        MarkerCharGone(t[1..], m);
      }
    }
  }

  /** A text in which the marker's first character never occurs has no comment to cut. */
  lemma {:induction false} CutCommentsOfPlain(t: string, marker: string)
    requires marker != [] && '\n' !in marker && marker[0] !in t
    ensures CutComments(t, marker) == t
    decreases |t|
  {
    if t != [] {
      assert !StartsWith(t, marker) by { assert t[0] != marker[0]; }
      CutCommentsOfPlain(t[1..], marker);
      assert t == [t[0]] + t[1..];
    }
  }

  /** No two slashes are left side by side once the `//` comments are cut. */
  lemma {:induction false} NoDoubleSlashLeft(t: string)
    ensures forall i | 0 <= i < |CutComments(t, "//")| - 1 ::
      !(CutComments(t, "//")[i] == '/' && CutComments(t, "//")[i + 1] == '/')
    decreases |t|
  {
    if t != [] {
      if StartsWith(t, "//") {
        NoDoubleSlashLeft(t[IndexOf(t, '\n')..]);
      } else {
        NoDoubleSlashLeft(t[1..]);
        var rest := CutComments(t[1..], "//");
        var r := CutComments(t, "//");
        assert r == [t[0]] + rest;
        if t[0] == '/' && |t| > 1 {
          assert t[1] != '/';
          assert !StartsWith(t[1..], "//");
        }
      }
    }
  }

  /** A line with no marker is kept as it is, and a line that is all comment keeps only its
      newline. */
  lemma {:induction false} CutCommentLine(code: string, comment: string, rest: string)
    requires '#' !in code && '\n' !in comment
    ensures CutComments(code + "#" + comment + "\n" + rest, "#") == code + CutComments("\n" + rest, "#")
    decreases |code|
  {
    var t := code + "#" + comment + "\n" + rest;
    if code == [] {
      assert StartsWith(t, "#");
      assert IndexOf(t, '\n') == |comment| + 1 by {
        assert t[|comment| + 1] == '\n';
        forall j | 0 <= j < |comment| + 1 ensures t[j] != '\n' {
          if j > 0 { assert t[j] == comment[j - 1]; }
        }
      }
      assert t[|comment| + 1..] == "\n" + rest;
    } else {
      assert t[1..] == code[1..] + "#" + comment + "\n" + rest;
      CutCommentLine(code[1..], comment, rest);
      assert code == [code[0]] + code[1..];
    }
  }

  // ---------------------------------------------------------------------------
  // str.replace of one character
  // ---------------------------------------------------------------------------

  /** `t.replace(a, b)` for single characters. */
  function ReplaceChar(t: string, a: char, b: char): (r: string)
    ensures |r| == |t|
    ensures forall i | 0 <= i < |t| :: r[i] == (if t[i] == a then b else t[i])
  {
    seq(|t|, i requires 0 <= i < |t| => if t[i] == a then b else t[i])
  }

  // ---------------------------------------------------------------------------
  // Reading a score
  // ---------------------------------------------------------------------------

  /** `int(f)`: the float truncated toward zero. */
  function Trunc(f: real): (n: int)
    ensures f >= 0.0 ==> n as real <= f < n as real + 1.0
    ensures f < 0.0 ==> n as real - 1.0 < f <= n as real
  {
    if f >= 0.0 then f.Floor else -((-f).Floor)
  }

  /** `int(v)` for a number (a boolean counts as 0 or 1). */
  function IntOfNumber(v: Json): (n: int)
    requires IsNumber(v)
    ensures v.JInt? ==> n == v.i
    ensures v.JBool? ==> n == (if v.b then 1 else 0)
  {
    Trunc(NumValue(v))
  }

  /** `int(float(s))` for a string of digits with at most one `.`: the digits before the
      point. */
  function WholePart(s: string): (n: nat)
    requires forall i | 0 <= i < |s| :: IsDigit(s[i]) || s[i] == '.'
    ensures '.' !in s ==> n == DecimalValue(s)
  {
    assert '.' !in s ==> s[..IndexOf(s, '.')] == s;
    DecimalValue(s[..IndexOf(s, '.')])
  }

  /** The number of times `c` occurs in `s`. */
  function Count(s: string, c: char): (n: nat)
    ensures n == 0 <==> c !in s
  {
    if s == [] then 0 else (if s[0] == c then 1 else 0) + Count(s[1..], c)
  }

  /** `s.replace(c, "", 1)`: the first `c` removed. */
  function RemoveFirst(s: string, c: char): (r: string)
    ensures c in s ==> |r| == |s| - 1
    ensures c !in s ==> r == s
  {
    var i := IndexOf(s, c);
    if i == |s| then s else s[..i] + s[i + 1..]
  }

  /** `s.isdigit()` for ASCII digits: non-empty and digits only. */
  predicate IsDigitString(s: string) { s != [] && AllDigits(s) }

  /** Removing one character only removes characters. */
  lemma {:induction false} RemoveCharChars(s: string, c: char, d: char)
    requires d in RemoveChar(s, c)
    ensures d in s
  {
    if s[0] == c || s[0] != d {
      RemoveCharChars(s[1..], c, d);
    }
  }

  /** Removing a character keeps every other one. */
  lemma {:induction false} RemoveCharKeeps(s: string, c: char, i: nat)
    requires i < |s| && s[i] != c
    ensures s[i] in RemoveChar(s, c)
  {
    if i > 0 {
      RemoveCharKeeps(s[1..], c, i - 1);
    }
  }

  /** Removing a character that is not there changes nothing. */
  lemma {:induction false} RemoveCharOfAbsent(s: string, c: char)
    requires c !in s
    ensures RemoveChar(s, c) == s
  {
    if s != [] {
      RemoveCharOfAbsent(s[1..], c);
      assert s == [s[0]] + s[1..];
    }
  }

  /** `s.replace(c, "", 1)` keeps every other character, and leaves no new ones. */
  lemma RemoveFirstChars(s: string, c: char, d: char)
    ensures d != c ==> (d in RemoveFirst(s, c) <==> d in s)
    ensures d in RemoveFirst(s, c) ==> d in s
  {
    var i := IndexOf(s, c);
    if i < |s| {
      assert s == s[..i] + [s[i]] + s[i + 1..];
    }
  }
}
