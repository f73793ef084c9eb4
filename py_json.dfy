/** Python values as `json.loads` produces them and as the pipeline's dictionaries hold
    them, with the few built-ins the pipeline applies to them: truthiness, `dict.get`,
    iteration, `isinstance(v, (int, float))` and `str`. */
module PyJson {
  import opened Wrappers
  import PyStr

  /** A Python value. A dictionary is written as its `(key, value)` pairs in insertion
      order and stands for `dict(pairs)`: a repeated key keeps its first position and its
      last value. */
  datatype Json =
    | JNull
    | JBool(b: bool)
    | JInt(i: int)
    | JFloat(f: real)
    | JStr(s: string)
    | JList(items: seq<Json>)
    | JDict(pairs: seq<(string, Json)>)

  /** The exceptions the pipeline's code can raise on unexpected values. */
  datatype PyError = TypeError | AttributeError | ValueError

  /** `bool(v)`. */
  predicate Truthy(v: Json) {
    match v
    case JNull => false
    case JBool(b) => b
    case JInt(i) => i != 0
    case JFloat(f) => f != 0.0
    case JStr(s) => s != ""
    case JList(xs) => xs != []
    case JDict(ps) => ps != []
  }

  /** The keys of the pairs, repeats included. */
  function KeyList(pairs: seq<(string, Json)>): (r: seq<string>)
    ensures |r| == |pairs| && forall i | 0 <= i < |pairs| :: r[i] == pairs[i].0
  {
    seq(|pairs|, i requires 0 <= i < |pairs| => pairs[i].0)
  }

  /** The keys of `dict(pairs)`, in insertion order. */
  function Keys(pairs: seq<(string, Json)>): (r: seq<string>)
    ensures PyStr.NoDups(r)
    ensures forall k :: k in r <==> k in KeyList(pairs)
  {
    PyStr.Dedupe(KeyList(pairs))
  }

  /** `d[k]` for `d = dict(pairs)`: the last value given for `k`, if any. */
  function Lookup(pairs: seq<(string, Json)>, k: string): (r: Option<Json>)
    ensures r.None? <==> k !in KeyList(pairs)
  {
    if pairs == [] then None
    else if pairs[|pairs| - 1].0 == k then Some(pairs[|pairs| - 1].1)
    else
      var r := Lookup(pairs[..|pairs| - 1], k);
      assert KeyList(pairs) == KeyList(pairs[..|pairs| - 1]) + [pairs[|pairs| - 1].0];
      r
  }

  /** `d.get(k, default)`. */
  function Get(pairs: seq<(string, Json)>, k: string, default: Json): (r: Json)
    ensures k !in KeyList(pairs) ==> r == default
  {
    match Lookup(pairs, k)
    case Some(v) => v
    case None => default
  }

  /** A dictionary written with distinct keys reads back each key's value. */
  lemma {:induction false} LookupDistinct(pairs: seq<(string, Json)>, i: nat)
    requires i < |pairs|
    requires forall a, b | 0 <= a < b < |pairs| :: pairs[a].0 != pairs[b].0
    ensures Lookup(pairs, pairs[i].0) == Some(pairs[i].1)
  {
    if i < |pairs| - 1 {
      var init := pairs[..|pairs| - 1];
      assert init[i] == pairs[i];
      LookupDistinct(init, i);
    }
  }

  /** Pairs written after the last one for `k` do not change what `d[k]` reads. */
  lemma {:induction false} LookupBefore(pairs: seq<(string, Json)>, n: nat, k: string)
    requires n <= |pairs|
    requires forall i | n <= i < |pairs| :: pairs[i].0 != k
    ensures Lookup(pairs, k) == Lookup(pairs[..n], k)
  {
    if n < |pairs| {
      var init := pairs[..|pairs| - 1];
      assert init[..n] == pairs[..n];
      LookupBefore(init, n, k);
    } else {
      assert pairs[..n] == pairs;
    }
  }

  /** `isinstance(v, (int, float))`; a Python `bool` is an `int`. */
  predicate IsNumber(v: Json) { v.JBool? || v.JInt? || v.JFloat? }

  /** The numeric value of a number (`True` is 1 and `False` is 0). */
  function NumValue(v: Json): real
    requires IsNumber(v)
  {
    match v
    case JBool(b) => if b then 1.0 else 0.0
    case JInt(i) => i as real
    case JFloat(f) => f
  }

  /** `for x in v` / `list(v)`: the items of a list, the one-character strings of a string,
      the keys of a dictionary; anything else is not iterable. */
  function Iterate(v: Json): (r: Result<seq<Json>, PyError>)
    ensures v.JList? ==> r == Success(v.items)
    ensures r.Success? <==> v.JList? || v.JStr? || v.JDict?
  {
    match v
    case JList(xs) => Success(xs)
    case JStr(s) => Success(seq(|s|, i requires 0 <= i < |s| => JStr([s[i]])))
    case JDict(ps) =>
      var ks := Keys(ps);
      Success(seq(|ks|, i requires 0 <= i < |ks| => JStr(ks[i])))
    case _ => Failure(TypeError)
  }

  /** `str(v)`. Strings, `None`, booleans and integers print as Python prints them; how a
      float, a list or a dictionary prints is left to `show`. */
  function Str(v: Json, show: Json -> string): (r: string)
    ensures v.JStr? ==> r == v.s
  {
    match v
    case JStr(s) => s
    case JNull => "None"
    case JBool(b) => if b then "True" else "False"
    case JInt(i) => PyStr.IntToDecimal(i)
    case _ => show(v)
  }

  /** The strings of a list of strings, as Python values. */
  function JStrs(xs: seq<string>): (r: seq<Json>)
    ensures |r| == |xs| && forall i | 0 <= i < |xs| :: r[i] == JStr(xs[i])
  {
    seq(|xs|, i requires 0 <= i < |xs| => JStr(xs[i]))
  }
  /** The strings of a list of values; TypeError when one is not a string. */
  function StrItems(items: seq<Json>): (r: Result<seq<string>, PyError>)
    ensures r.Success? <==> forall i | 0 <= i < |items| :: items[i].JStr?
    ensures r.Success? ==> JStrs(r.value) == items
  {
    if items == [] then Success([])
    else match StrItems(items[1..])
      case Failure(e) => Failure(e)
      case Success(rest) =>
        if items[0].JStr? then Success([items[0].s] + rest) else Failure(TypeError)
  }

  /** `sep.join(items)`: every item must be a string. */
  function JoinItems(items: seq<Json>, sep: string): (r: Result<string, PyError>)
    ensures r.Success? <==> forall i | 0 <= i < |items| :: items[i].JStr?
  {
    match StrItems(items)
    case Failure(e) => Failure(e)
    case Success(ss) => Success(PyStr.Join(ss, sep))
  }
}
