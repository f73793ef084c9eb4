/** The JavaScript built-ins the web client relies on: `String.prototype.trim`,
    `parseInt(s, 10)`, `Number(s)`, `String(v)` and the values `JSON.parse` yields. */
module JsText {
  import opened Wrappers
  import PyStr

  /** ECMAScript WhiteSpace and LineTerminator: what `trim` and `\s` skip. */
  predicate IsJsSpace(c: char) {
    ('\t' <= c <= '\r') || c == ' ' || c == '\U{A0}' || c == '\U{1680}'
    || ('\U{2000}' <= c <= '\U{200A}') || c == '\U{2028}' || c == '\U{2029}'
    || c == '\U{202F}' || c == '\U{205F}' || c == '\U{3000}' || c == '\U{FEFF}'
  }

  /** `trimStart`. */
  function TrimStart(s: string): (r: string)
    ensures |r| <= |s| && r == s[|s| - |r|..]
    ensures forall i | 0 <= i < |s| - |r| :: IsJsSpace(s[i])
    ensures r != [] ==> !IsJsSpace(r[0])
  {
    if s != [] && IsJsSpace(s[0]) then
      var r := TrimStart(s[1..]);
      assert s[|s| - |r|..] == s[1..][|s| - 1 - |r|..];
      assert forall i | 1 <= i < |s| - |r| :: s[i] == s[1..][i - 1];
      r
    else s
  }

  /** `trimEnd`. */
  function TrimEnd(s: string): (r: string)
    ensures |r| <= |s| && r == s[..|r|]
    ensures forall i | |r| <= i < |s| :: IsJsSpace(s[i])
    ensures r != [] ==> !IsJsSpace(r[|r| - 1])
  {
    if s != [] && IsJsSpace(s[|s| - 1]) then TrimEnd(s[..|s| - 1]) else s
  }

  /** `trim`. */
  function Trim(s: string): (r: string)
    ensures r != [] ==> !IsJsSpace(r[0]) && !IsJsSpace(r[|r| - 1])
  {
    var l := TrimStart(s);
    var r := TrimEnd(l);
    assert r != [] ==> r[0] == l[0];
    r
  }

  /** `s.trim()` is the empty string exactly when `s` is only whitespace. */
  lemma TrimEmptyIffBlank(s: string)
    ensures Trim(s) == [] <==> forall i | 0 <= i < |s| :: IsJsSpace(s[i])
  {
    var l := TrimStart(s);
    assert l != [] ==> l[0] == s[|s| - |l|];
  }

  /** Trimming a string whose first `k` characters start and end with a non-space
      keeps those `k` characters: the result is a prefix of `s` at least `k` long. */
  lemma TrimKeepsHead(s: string, k: nat)
    requires 0 < k <= |s| && !IsJsSpace(s[0]) && !IsJsSpace(s[k - 1])
    ensures exists j: nat | k <= j <= |s| :: Trim(s) == s[..j]
  {
    assert TrimStart(s) == s;
    var t := TrimEnd(s);
    assert |t| >= k by { assert !IsJsSpace(s[k - 1]); }
    assert Trim(s) == s[..|t|];
  }

  /** The longest prefix of decimal digits. */
  function LeadingDigits(s: string): (r: string)
    ensures |r| <= |s| && r == s[..|r|] && PyStr.AllDigits(r)
    ensures |r| < |s| ==> !PyStr.IsDigit(s[|r|])
  {
    if s != [] && PyStr.IsDigit(s[0]) then [s[0]] + LeadingDigits(s[1..]) else []
  }

  /** `parseInt(s, 10)`: `None` stands for `NaN`. */
  function ParseInt(s: string): (r: Option<int>)
    ensures r.None? <==> LeadingDigits(SignStripped(TrimStart(s))) == []
  {
    var t := TrimStart(s);
    var digits := LeadingDigits(SignStripped(t));
    if digits == [] then None
    else if t[0] == '-' then Some(-(PyStr.DecimalValue(digits) as int))
    else Some(PyStr.DecimalValue(digits))
  }

  /** The text after one leading `+` or `-`. */
  function SignStripped(t: string): string {
    if t != [] && (t[0] == '-' || t[0] == '+') then t[1..] else t
  }

  /** `parseInt` reads exactly the leading digits of a string that starts with `k` digits. */
  lemma ParseIntOfDigits(s: string, k: nat)
    requires 0 < k <= |s| && PyStr.AllDigits(s[..k])
    requires k == |s| || !PyStr.IsDigit(s[k])
    ensures ParseInt(s) == Some(PyStr.DecimalValue(s[..k]))
  {
    assert s[..k][0] == s[0];
    DigitFirstPlain(s);
    LeadingDigitsOfPrefix(s, k);
    ParseIntOfPlain(s, s[..k]);
  }

  /** The leading digits of a string are its first `k` characters when those are digits and
      the next is not. */
  lemma LeadingDigitsOfPrefix(s: string, k: nat)
    requires k <= |s| && PyStr.AllDigits(s[..k])
    requires k == |s| || !PyStr.IsDigit(s[k])
    ensures LeadingDigits(s) == s[..k]
  {
    assert s == s[..k] + s[k..];
    LeadingDigitsOf(s[..k], s[k..]);
  }

  /** `parseInt` of a string with nothing to trim and no sign reads its leading digits. */
  lemma ParseIntOfPlain(s: string, digits: string)
    requires s != [] && TrimStart(s) == s && SignStripped(s) == s && s[0] != '-'
    requires LeadingDigits(s) == digits && digits != []
    ensures ParseInt(s) == Some(PyStr.DecimalValue(digits))
  {
  }

  /** A string that starts with a digit has no leading space and no sign to strip. */
  lemma DigitFirstPlain(s: string)
    requires s != [] && PyStr.IsDigit(s[0])
    ensures TrimStart(s) == s && SignStripped(s) == s && s[0] != '-'
  {
    assert '0' <= s[0] <= '9';
    assert !IsJsSpace(s[0]);
  }

  lemma {:induction false} LeadingDigitsOf(d: string, r: string)
    requires PyStr.AllDigits(d)
    requires r == [] || !PyStr.IsDigit(r[0])
    ensures LeadingDigits(d + r) == d
  {
    if d != [] {
      LeadingDigitsOf(d[1..], r);
      assert (d + r)[1..] == d[1..] + r;
    }
  }

  /** The result of `Number(x)`. */
  datatype JsNumber = NaN | Num(value: real)

  /** JavaScript truthiness of a number: neither zero nor NaN. */
  predicate NumberTruthy(n: JsNumber) { n.Num? && n.value != 0.0 }

  /** The value of the digits `whole` followed by the fraction digits `frac`. */
  function DecimalReal(whole: string, frac: string): real
    requires PyStr.AllDigits(whole) && PyStr.AllDigits(frac)
  {
    PyStr.DecimalValue(whole) as real + PyStr.DecimalValue(frac) as real / Pow10(|frac|) as real
  }

  function Pow10(n: nat): (r: nat)
    ensures r >= 1
  {
    if n == 0 then 1 else 10 * Pow10(n - 1)
  }

  /** An unsigned decimal literal `digits[.digits]` with at least one digit. */
  function DecimalLiteral(body: string): Option<real> {
    var whole := LeadingDigits(body);
    var rest := body[|whole|..];
    if rest == [] then (if whole == [] then None else Some(DecimalReal(whole, [])))
    else if rest[0] != '.' then None
    else
      var frac := LeadingDigits(rest[1..]);
      if 1 + |frac| != |rest| || (whole == [] && frac == []) then None
      else Some(DecimalReal(whole, frac))
  }

  /** `Number(x)` for `x` a stored string or `null`: `null` and blank text are 0;
      an optionally signed decimal literal `digits[.digits]` is its value;
      anything else is NaN. */
  function NumberOf(x: Option<string>): (n: JsNumber)
    ensures x.None? ==> n == Num(0.0)
  {
    if x.None? then Num(0.0)
    else
      var t := Trim(x.value);
      if t == [] then Num(0.0)
      else
        match DecimalLiteral(SignStripped(t))
        case None => NaN
        case Some(v) => if t[0] == '-' then Num(-v) else Num(v)
  }

  /** A user id written by the client as `String(id)` reads back as that id. */
  lemma NumberOfDecimal(n: nat)
    ensures NumberOf(Some(PyStr.NatToDecimal(n))) == Num(n as real)
  {
    var d := PyStr.NatToDecimal(n);
    TrimOfDigits(d);
    assert SignStripped(d) == d;
    DecimalLiteralOfDigits(d);
    PyStr.DecimalRoundTrip(n);
  }

  lemma TrimOfDigits(d: string)
    requires d != [] && PyStr.AllDigits(d)
    ensures Trim(d) == d
  {
    assert TrimStart(d) == d by { assert PyStr.IsDigit(d[0]); }
    assert TrimEnd(d) == d by { assert PyStr.IsDigit(d[|d| - 1]); }
  }

  lemma DecimalLiteralOfDigits(d: string)
    requires d != [] && PyStr.AllDigits(d)
    ensures DecimalLiteral(d) == Some(PyStr.DecimalValue(d) as real)
  {
    LeadingDigitsOf(d, []);
    assert d + [] == d;
    assert d[|d|..] == [];
  }

  /** The values `JSON.parse` can produce (numbers restricted to integers) plus `undefined`. */
  datatype JsValue =
    | Undefined
    | Null
    | Bool(b: bool)
    | Int(i: int)
    | Str(s: string)
    | Arr(items: seq<JsValue>)
    | Obj(fields: map<string, JsValue>)

  /** Property access `o.k`: `undefined` for a missing key or a non-object. */
  function Prop(v: JsValue, k: string): JsValue {
    if v.Obj? && k in v.fields then v.fields[k] else Undefined
  }

  /** `a ?? b`. */
  function Coalesce(a: JsValue, b: JsValue): JsValue {
    if a == Undefined || a == Null then b else a
  }

  /** An optional string as a JSON value: `s ?? null`. */
  function OptStr(s: Option<string>): JsValue {
    if s.Some? then Str(s.value) else Null
  }

  /** An optional string list as a JSON value: `xs ?? null`. */
  function OptList(xs: Option<seq<string>>): JsValue {
    if xs.Some? then Arr(StrItems(xs.value)) else Null
  }

  function StrItems(xs: seq<string>): (r: seq<JsValue>)
    ensures |r| == |xs| && forall i | 0 <= i < |xs| :: r[i] == Str(xs[i])
  {
    if xs == [] then [] else [Str(xs[0])] + StrItems(xs[1..])
  }

  /** `String(v)`. Arrays join their items with "," and print `null`/`undefined` items as "". */
  function ToJsString(v: JsValue): string {
    match v
    case Undefined => "undefined"
    case Null => "null"
    case Bool(b) => if b then "true" else "false"
    case Int(i) => PyStr.IntToDecimal(i)
    case Str(s) => s
    case Arr(items) => JoinItems(items)
    case Obj(_) => "[object Object]"
  }

  function JoinItems(items: seq<JsValue>): string
    decreases items, 0
  {
    if items == [] then ""
    else
      var head := if items[0] == Undefined || items[0] == Null then "" else ToJsString(items[0]);
      if |items| == 1 then head else head + "," + JoinItems(items[1..])
  }

  /** `s.toLowerCase().includes(q.toLowerCase())`. */
  predicate IncludesIgnoringCase(s: string, q: string) {
    PyStr.Contains(PyStr.Lower(s), PyStr.Lower(q))
  }

  /** Every string includes the empty query. */
  lemma IncludesEmptyQuery(s: string)
    ensures IncludesIgnoringCase(s, "")
  {
    assert PyStr.OccursAt(PyStr.Lower(s), PyStr.Lower(""), 0);
  }

  /** A string that includes a query includes every prefix of it. */
  lemma IncludesPrefixOfQuery(s: string, q: string, more: string)
    requires IncludesIgnoringCase(s, q + more)
    ensures IncludesIgnoringCase(s, q)
  {
    var l, lq := PyStr.Lower(s), PyStr.Lower(q + more);
    var i: nat :| i <= |l| && PyStr.OccursAt(l, lq, i);
    assert lq[..|q|] == PyStr.Lower(q);
    assert l[i..i + |q|] == lq[..|q|];
    assert PyStr.OccursAt(l, PyStr.Lower(q), i);
  }
}
