/** Python's built-in string operations as the pipeline uses them: `str.isspace`,
    `str.lower`/`str.upper`, `strip`, `split`, `join`, `in`, `replace`,
    `dict.fromkeys` deduplication, `sorted` and decimal `int`/`str` conversion. */
module PyStr {
  import opened Wrappers

  // ---------------------------------------------------------------------------
  // Character classes
  // ---------------------------------------------------------------------------

  /** `str.isspace`: the characters `strip()`, `split()` and the regex class `\s` skip. */
  predicate IsSpace(c: char) {
    ('\t' <= c <= '\r') || ('\U{1C}' <= c <= ' ') || c == '\U{85}' || c == '\U{A0}'
    || c == '\U{1680}' || ('\U{2000}' <= c <= '\U{200A}') || c == '\U{2028}'
    || c == '\U{2029}' || c == '\U{202F}' || c == '\U{205F}' || c == '\U{3000}'
  }

  predicate IsDigit(c: char) { '0' <= c <= '9' }
  predicate IsAsciiLetter(c: char) { 'a' <= c <= 'z' || 'A' <= c <= 'Z' }
  predicate IsAsciiAlnum(c: char) { IsAsciiLetter(c) || IsDigit(c) }

  /** Letters of the Latin-1 supplement and the Latin extended blocks, which cover
      the Vietnamese alphabet the pipeline's patterns are written in. */
  predicate IsLatinLetter(c: char) {
    c == '\U{AA}' || c == '\U{B5}' || c == '\U{BA}' || ('\U{C0}' <= c <= '\U{24F}' && c != '\U{D7}' && c != '\U{F7}')
    || ('\U{1E00}' <= c <= '\U{1EFF}')
  }

  /** The regex class `\w`: letters, digits and the underscore. */
  predicate IsWordChar(c: char) { IsAsciiAlnum(c) || c == '_' || IsLatinLetter(c) }

  predicate AllDigits(s: string) { forall i | 0 <= i < |s| :: IsDigit(s[i]) }

  // ---------------------------------------------------------------------------
  // Case mapping
  // ---------------------------------------------------------------------------

  /** `str.lower` on one character (ASCII, Latin-1 and the Latin extended letters). */
  function LowerChar(c: char): char {
    if 'A' <= c <= 'Z' || ('\U{C0}' <= c <= '\U{DE}' && c != '\U{D7}') then (c as int + 32) as char
    else if (('\U{100}' <= c <= '\U{12F}') || ('\U{132}' <= c <= '\U{137}') || ('\U{14A}' <= c <= '\U{177}')
             || ('\U{1E00}' <= c <= '\U{1E95}') || ('\U{1EA0}' <= c <= '\U{1EFF}')) && c as int % 2 == 0
    then (c as int + 1) as char
    else if (('\U{139}' <= c <= '\U{148}') || ('\U{179}' <= c <= '\U{17E}')) && c as int % 2 == 1
    then (c as int + 1) as char
    else if c == '\U{1A0}' || c == '\U{1AF}' then (c as int + 1) as char
    else c
  }

  /** `str.upper` on one character; the German sharp s becomes two letters. */
  function UpperChar(c: char): (r: string)
    ensures 1 <= |r| <= 2
  {
    if 'a' <= c <= 'z' || ('\U{E0}' <= c <= '\U{FE}' && c != '\U{F7}') then [(c as int - 32) as char]
    else if c == '\U{DF}' then "SS"
    else if (('\U{100}' <= c <= '\U{12F}') || ('\U{132}' <= c <= '\U{137}') || ('\U{14A}' <= c <= '\U{177}')
             || ('\U{1E00}' <= c <= '\U{1E95}') || ('\U{1EA0}' <= c <= '\U{1EFF}')) && c as int % 2 == 1
    then [(c as int - 1) as char]
    else if (('\U{139}' <= c <= '\U{148}') || ('\U{179}' <= c <= '\U{17E}')) && c as int % 2 == 0
    then [(c as int - 1) as char]
    else if c == '\U{1A1}' || c == '\U{1B0}' then [(c as int - 1) as char]
    else [c]
  }

  /** A character that `str.upper` leaves as it is. */
  predicate IsUpperStable(c: char) { UpperChar(c) == [c] }

  lemma UpperCharIsStable(c: char)
    ensures IsUpperStable(UpperChar(c)[0])
  {
  }

  /** `str.lower`. */
  function Lower(s: string): (r: string)
    ensures |r| == |s|
    ensures forall i | 0 <= i < |s| :: r[i] == LowerChar(s[i])
  {
    if s == [] then [] else [LowerChar(s[0])] + Lower(s[1..])
  }

  /** A string that `str.lower` leaves unchanged. */
  predicate IsLower(s: string) { forall i | 0 <= i < |s| :: LowerChar(s[i]) == s[i] }

  lemma LowerIsLower(s: string)
    ensures IsLower(Lower(s))
  {
  }

  // ---------------------------------------------------------------------------
  // strip
  // ---------------------------------------------------------------------------

  /** The argument of `strip`: no argument (whitespace), an explicit set of characters, or
      the whitespace together with a set of characters. */
  datatype StripSet = Whitespace | AnyOf(chars: set<char>) | WhitespaceOr(chars: set<char>)

  predicate Strips(t: StripSet, c: char) {
    match t
    case Whitespace => IsSpace(c)
    case AnyOf(cs) => c in cs
    case WhitespaceOr(cs) => IsSpace(c) || c in cs
  }

  /** `lstrip`: drops stripped characters from the front. */
  function LStrip(s: string, t: StripSet): string {
    if s != [] && Strips(t, s[0]) then LStrip(s[1..], t) else s
  }

  /** `rstrip`: drops stripped characters from the back. */
  function RStrip(s: string, t: StripSet): string {
    if s != [] && Strips(t, s[|s| - 1]) then RStrip(s[..|s| - 1], t) else s
  }

  /** `lstrip` keeps the longest suffix that does not start with a stripped character. */
  lemma {:induction false} LStripFacts(s: string, t: StripSet)
    ensures |LStrip(s, t)| <= |s| && LStrip(s, t) == s[|s| - |LStrip(s, t)|..]
    ensures LStrip(s, t) != [] ==> !Strips(t, LStrip(s, t)[0])
    ensures forall i | 0 <= i < |s| - |LStrip(s, t)| :: Strips(t, s[i])
  {
    if s != [] && Strips(t, s[0]) {
      LStripFacts(s[1..], t);
      forall i | 1 <= i < |s| - |LStrip(s, t)| ensures Strips(t, s[i]) {
        assert s[1..][i - 1] == s[i];
      }
    }
  }

  /** `rstrip` keeps the longest prefix that does not end with a stripped character. */
  lemma {:induction false} RStripFacts(s: string, t: StripSet)
    ensures |RStrip(s, t)| <= |s| && RStrip(s, t) == s[..|RStrip(s, t)|]
    ensures RStrip(s, t) != [] ==> !Strips(t, RStrip(s, t)[|RStrip(s, t)| - 1])
    ensures forall i | |RStrip(s, t)| <= i < |s| :: Strips(t, s[i])
  {
    if s != [] && Strips(t, s[|s| - 1]) {
      RStripFacts(s[..|s| - 1], t);
    }
  }

  /** `s.strip(chars)`. */
  function StripWith(s: string, t: StripSet): (r: string)
    ensures |r| <= |s|
    ensures r != [] ==> !Strips(t, r[0]) && !Strips(t, r[|r| - 1])
  {
    var l := LStrip(s, t);
    LStripFacts(s, t);
    RStripFacts(l, t);
    RStrip(l, t)
  }

  /** `s.strip()`. */
  function Strip(s: string): (r: string)
    ensures |r| <= |s|
    ensures r != [] ==> !IsSpace(r[0]) && !IsSpace(r[|r| - 1])
  {
    StripWith(s, Whitespace)
  }

  /** A string that neither starts nor ends with a stripped character is left as it is. */
  lemma StripWithUnchanged(s: string, t: StripSet)
    requires s != [] ==> !Strips(t, s[0]) && !Strips(t, s[|s| - 1])
    ensures StripWith(s, t) == s
  {
  }

  /** Stripping twice is stripping once. */
  lemma StripWithIdempotent(s: string, t: StripSet)
    ensures StripWith(StripWith(s, t), t) == StripWith(s, t)
  {
    StripWithUnchanged(StripWith(s, t), t);
  }

  /** A string made only of whitespace strips to the empty string, and only such a string. */
  lemma StripEmptyIffBlank(s: string)
    ensures Strip(s) == [] <==> forall i | 0 <= i < |s| :: IsSpace(s[i])
  {
    var l := LStrip(s, Whitespace);
    LStripFacts(s, Whitespace);
    RStripFacts(l, Whitespace);
    if l != [] {
      assert l[0] == s[|s| - |l|];
    }
  }

  /** `strip` keeps a contiguous piece of the string: the one starting at `a`. */
  lemma StripOffset(s: string) returns (a: nat)
    ensures a + |Strip(s)| <= |s| && Strip(s) == s[a..a + |Strip(s)|]
  {
    var l := LStrip(s, Whitespace);
    LStripFacts(s, Whitespace);
    RStripFacts(l, Whitespace);
    a := |s| - |l|;
  }

  // ---------------------------------------------------------------------------
  // split, join, substrings
  // ---------------------------------------------------------------------------

  /** `len(s.split())`: the number of maximal runs of non-whitespace characters. */
  function WordCount(s: string): nat {
    if s == [] then 0
    else WordCount(s[..|s| - 1])
         + (if !IsSpace(s[|s| - 1]) && (|s| == 1 || IsSpace(s[|s| - 2])) then 1 else 0)
  }

  /** The index of the first `c` in `s`, or `|s|` when there is none. */
  function IndexOf(s: string, c: char): (i: nat)
    ensures i <= |s|
    ensures i < |s| ==> s[i] == c
    ensures forall j | 0 <= j < i :: s[j] != c
  {
    if s == [] then 0 else if s[0] == c then 0 else 1 + IndexOf(s[1..], c)
  }

  /** `s.split(sep)` for a one-character separator. */
  function SplitOn(s: string, sep: char): (r: seq<string>)
    ensures |r| >= 1
    ensures forall k | 0 <= k < |r| :: sep !in r[k]
    decreases |s|
  {
    var i := IndexOf(s, sep);
    if i == |s| then [s] else [s[..i]] + SplitOn(s[i + 1..], sep)
  }

  /** `sep.join(parts)`. */
  function Join(parts: seq<string>, sep: string): string {
    if parts == [] then ""
    else if |parts| == 1 then parts[0]
    else parts[0] + sep + Join(parts[1..], sep)
  }

  /** Joining the pieces of a split with the separator gives back the original string. */
  lemma {:induction false} JoinSplitOn(s: string, sep: char)
    ensures Join(SplitOn(s, sep), [sep]) == s
    decreases |s|
  {
    var i := IndexOf(s, sep);
    if i < |s| {
      var rest := SplitOn(s[i + 1..], sep);
      assert SplitOn(s, sep) == [s[..i]] + rest;
      assert ([s[..i]] + rest)[1..] == rest;
      JoinSplitOn(s[i + 1..], sep);
      assert Join([s[..i]] + rest, [sep]) == s[..i] + [sep] + s[i + 1..];
      assert s == s[..i] + [sep] + s[i + 1..];
    }
  }

  /** `p` occurs in `s` at index `i`. */
  predicate OccursAt(s: string, p: string, i: nat) {
    i + |p| <= |s| && s[i..i + |p|] == p
  }

  /** Python's `p in s`. */
  predicate Contains(s: string, p: string) {
    exists i: nat | i <= |s| :: OccursAt(s, p, i)
  }

  /** `s.find(p)` from index `from`: the first occurrence at or after `from`. */
  function FindFrom(s: string, p: string, from: nat): (r: Option<nat>)
    ensures r.Some? ==> from <= r.value && OccursAt(s, p, r.value)
    ensures forall j: nat | from <= j < (if r.Some? then r.value else |s| + 1) :: !OccursAt(s, p, j)
    decreases |s| + 1 - from
  {
    if from > |s| then None
    else if OccursAt(s, p, from) then Some(from)
    else FindFrom(s, p, from + 1)
  }

  /** `s.find(p)`, with `None` for -1. */
  function Find(s: string, p: string): (r: Option<nat>)
    ensures r.Some? <==> Contains(s, p)
    ensures r.Some? ==> OccursAt(s, p, r.value) && forall j: nat | j < r.value :: !OccursAt(s, p, j)
  {
    FindFrom(s, p, 0)
  }

  predicate StartsWith(s: string, p: string) { |p| <= |s| && s[..|p|] == p }
  predicate EndsWith(s: string, p: string) { |p| <= |s| && s[|s| - |p|..] == p }

  /** `s[:n]`: the first `n` elements, or all of them when there are fewer. */
  function Take<T>(s: seq<T>, n: nat): (r: seq<T>)
    ensures |r| <= n && r <= s
    ensures |s| <= n ==> r == s
    ensures n <= |s| ==> |r| == n
  {
    if n < |s| then s[..n] else s
  }

  /** `s.replace(pat, rep)`: every non-overlapping occurrence, left to right. */
  function ReplaceAll(s: string, pat: string, rep: string): string
    requires |pat| > 0
  {
    if |s| < |pat| then s
    else if s[..|pat|] == pat then rep + ReplaceAll(s[|pat|..], pat, rep)
    else [s[0]] + ReplaceAll(s[1..], pat, rep)
  }

  /** Every character of `s` except those equal to `c` (`s.replace(c, "")`). */
  function RemoveChar(s: string, c: char): (r: string)
    ensures c !in r
    ensures |r| <= |s|
  {
    if s == [] then [] else (if s[0] == c then [] else [s[0]]) + RemoveChar(s[1..], c)
  }

  // ---------------------------------------------------------------------------
  // dict.fromkeys deduplication
  // ---------------------------------------------------------------------------

  predicate NoDups<T(==)>(s: seq<T>) {
    forall i, j | 0 <= i < j < |s| :: s[i] != s[j]
  }

  /** `list(dict.fromkeys(s))`: the first occurrence of every element, in order. */
  function Dedupe<T(==,!new)>(s: seq<T>): (r: seq<T>)
    ensures NoDups(r)
    ensures forall x :: x in r <==> x in s
    ensures |r| <= |s|
  {
    if s == [] then []
    else
      var d := Dedupe(s[..|s| - 1]);
      if s[|s| - 1] in d then d else d + [s[|s| - 1]]
  }

  /** A duplicate-free list is its own deduplication. */
  lemma {:induction false} DedupeOfNoDups<T(!new)>(s: seq<T>)
    requires NoDups(s)
    ensures Dedupe(s) == s
  {
    if s != [] {
      var init := s[..|s| - 1];
      DedupeOfNoDups(init);
      assert s[|s| - 1] !in init;
      assert init + [s[|s| - 1]] == s;
    }
  }

  lemma DedupeIdempotent<T(!new)>(s: seq<T>)
    ensures Dedupe(Dedupe(s)) == Dedupe(s)
  {
    DedupeOfNoDups(Dedupe(s));
  }

  /** The index of the first occurrence of `x` in `s`. */
  function FirstIndex<T(==)>(s: seq<T>, x: T): (i: nat)
    requires x in s
    ensures i < |s| && s[i] == x && x !in s[..i]
  {
    if s[0] == x then 0 else 1 + FirstIndex(s[1..], x)
  }

  /** Deduplication keeps elements in the order of their first occurrences. */
  lemma {:induction false} DedupeKeepsFirstOccurrenceOrder<T(!new)>(s: seq<T>, i: nat, j: nat)
    requires i < j < |Dedupe(s)|
    ensures FirstIndex(s, Dedupe(s)[i]) < FirstIndex(s, Dedupe(s)[j])
  {
    assert s != [];
    var init := s[..|s| - 1];
    var d := Dedupe(init);
    var a, b := Dedupe(s)[i], Dedupe(s)[j];
    assert a in d;
    FirstIndexOfPrefix(s, init, a);
    assert b in Dedupe(s);
    if j < |d| {
      DedupeKeepsFirstOccurrenceOrder(init, i, j);
      FirstIndexOfPrefix(s, init, b);
    } else {
      LastNewElementIndex(s);
    }
  }

  /** An element that first occurs at the end of `s` has its first index there. */
  lemma LastNewElementIndex<T(!new)>(s: seq<T>)
    requires s != [] && s[|s| - 1] !in s[..|s| - 1]
    ensures FirstIndex(s, s[|s| - 1]) == |s| - 1
  {
  }

  /** An element of a prefix has the same first index in the whole sequence. */
  lemma FirstIndexOfPrefix<T>(s: seq<T>, p: seq<T>, x: T)
    requires |p| <= |s| && p == s[..|p|] && x in p
    ensures FirstIndex(s, x) == FirstIndex(p, x)
  {
    var fp := FirstIndex(p, x);
    assert s[fp] == x;
  }

  // ---------------------------------------------------------------------------
  // sorted
  // ---------------------------------------------------------------------------

  /** Python's ordering of strings: lexicographic by code point. */
  predicate StrLt(a: string, b: string) {
    b != [] && (a == [] || a[0] < b[0] || (a[0] == b[0] && StrLt(a[1..], b[1..])))
  }

  lemma {:induction false} StrLtIrreflexive(a: string)
    ensures !StrLt(a, a)
  {
    if a != [] { StrLtIrreflexive(a[1..]); }
  }

  lemma {:induction false} StrLtTotal(a: string, b: string)
    ensures a == b || StrLt(a, b) || StrLt(b, a)
  {
    if a != [] && b != [] && a[0] == b[0] {
      StrLtTotal(a[1..], b[1..]);
      if a[1..] == b[1..] { assert a == [a[0]] + a[1..] && b == [b[0]] + b[1..]; }
    }
  }

  lemma {:induction false} StrLtTransitive(a: string, b: string, c: string)
    requires StrLt(a, b) && StrLt(b, c)
    ensures StrLt(a, c)
  {
    if a != [] && a[0] == b[0] && b[0] == c[0] {
      StrLtTransitive(a[1..], b[1..], c[1..]);
    }
  }

  lemma StrLtAsymmetric(a: string, b: string)
    requires StrLt(a, b)
    ensures !StrLt(b, a)
  {
    if StrLt(b, a) {
      StrLtTransitive(a, b, a);
      StrLtIrreflexive(a);
    }
  }

  /** No element is smaller than an earlier one. */
  predicate Ascending(s: seq<string>) {
    forall i, j | 0 <= i < j < |s| :: !StrLt(s[j], s[i])
  }

  /** Strictly increasing: ascending and duplicate-free. */
  predicate StrictlyAscending(s: seq<string>) {
    forall i, j | 0 <= i < j < |s| :: StrLt(s[i], s[j])
  }

  /** Inserts `x` before the first element that is not smaller than it. */
  function Insert(x: string, s: seq<string>): (r: seq<string>)
    ensures multiset(r) == multiset(s) + multiset{x}
  {
    if s == [] || !StrLt(s[0], x) then [x] + s
    else
      assert s == [s[0]] + s[1..];
      [s[0]] + Insert(x, s[1..])
  }

  /** `sorted(s)` on a list of strings. */
  function SortStrings(s: seq<string>): (r: seq<string>)
    ensures multiset(r) == multiset(s)
  {
    if s == [] then []
    else
      assert s == [s[0]] + s[1..];
      Insert(s[0], SortStrings(s[1..]))
  }

  lemma {:induction false} InsertAscending(x: string, s: seq<string>)
    requires Ascending(s)
    ensures Ascending(Insert(x, s))
  {
    var r := Insert(x, s);
    if s == [] || !StrLt(s[0], x) {
      forall i, j | 0 <= i < j < |r| ensures !StrLt(r[j], r[i]) {
        if i == 0 && j > 0 {
          if StrLt(r[j], x) {
            if j > 1 { assert !StrLt(s[j - 1], s[0]); }
            StrLtTotal(s[0], s[j - 1]);
            if s[0] != s[j - 1] { StrLtTransitive(s[0], s[j - 1], x); }
          }
        }
      }
    } else {
      InsertAscending(x, s[1..]);
      var rest := Insert(x, s[1..]);
      assert multiset(rest) == multiset(s[1..]) + multiset{x};
      forall j | 0 < j < |r| ensures !StrLt(r[j], s[0]) {
        var y := rest[j - 1];
        assert y in multiset(rest);
        if y == x {
          StrLtAsymmetric(s[0], x);
        } else {
          assert y in multiset(s[1..]);
          var k :| 0 <= k < |s[1..]| && s[1..][k] == y;
          assert s[k + 1] == y;
        }
      }
    }
  }

  lemma {:induction false} SortStringsAscending(s: seq<string>)
    ensures Ascending(SortStrings(s))
  {
    if s != [] {
      SortStringsAscending(s[1..]);
      InsertAscending(s[0], SortStrings(s[1..]));
    }
  }

  /** The elements of `s` in Python's string order, without duplicates: `sorted(set(s))`. */
  function SortedSet(s: seq<string>): (r: seq<string>) {
    SortStrings(Dedupe(s))
  }

  lemma SortedSetStrictlyAscending(s: seq<string>)
    ensures StrictlyAscending(SortedSet(s))
    ensures forall x :: x in SortedSet(s) <==> x in s
  {
    var d := Dedupe(s);
    var r := SortStrings(d);
    SortStringsAscending(d);
    assert forall x :: x in r <==> x in d by {
      forall x ensures x in r <==> x in d {
        assert x in r <==> x in multiset(r);
        assert x in d <==> x in multiset(d);
      }
    }
    forall i, j | 0 <= i < j < |r| ensures StrLt(r[i], r[j]) {
      StrLtTotal(r[i], r[j]);
      if r[i] == r[j] {
        MultisetNoDups(d, r, i, j);
      }
    }
  }

  /** A permutation of a duplicate-free sequence has no duplicates. */
  lemma MultisetNoDups(d: seq<string>, r: seq<string>, i: nat, j: nat)
    requires NoDups(d) && multiset(r) == multiset(d) && i < j < |r|
    ensures r[i] != r[j]
  {
    if r[i] == r[j] {
      var x := r[i];
      assert multiset(r)[x] >= 2 by {
        assert r == r[..i] + [x] + r[i + 1..j] + [x] + r[j + 1..];
      }
      DupFreeCount(d, x);
    }
  }

  lemma {:induction false} DupFreeCount(d: seq<string>, x: string)
    requires NoDups(d)
    ensures multiset(d)[x] <= 1
  {
    if d != [] {
      assert d == [d[0]] + d[1..];
      DupFreeCount(d[1..], x);
      if d[0] == x { assert x !in d[1..]; }
    }
  }

  /** Two strictly ascending lists with the same elements are equal. */
  lemma {:induction false} StrictlyAscendingUnique(a: seq<string>, b: seq<string>)
    requires StrictlyAscending(a) && StrictlyAscending(b)
    requires forall x :: x in a <==> x in b
    ensures a == b
  {
    if a != [] { assert a[0] in a; }
    if b != [] { assert b[0] in b; }
    if a != [] && b != [] {
      if a[0] != b[0] {
        assert b[0] in a;
        assert a[0] in b;
        var i :| 0 <= i < |a| && a[i] == b[0];
        var j :| 0 <= j < |b| && b[j] == a[0];
        assert StrLt(a[0], b[0]) by { StrLtIrreflexive(a[0]); }
        assert StrLt(b[0], a[0]) by { StrLtIrreflexive(b[0]); }
        StrLtAsymmetric(a[0], b[0]);
      }
      forall x ensures x in a[1..] <==> x in b[1..] {
        if x in a[1..] {
          var i :| 0 <= i < |a[1..]| && a[1..][i] == x;
          assert StrLt(a[0], x);
          StrLtIrreflexive(x);
          assert x in b;
        }
        if x in b[1..] {
          var i :| 0 <= i < |b[1..]| && b[1..][i] == x;
          assert StrLt(b[0], x);
          StrLtIrreflexive(x);
          assert x in a;
        }
      }
      StrictlyAscendingUnique(a[1..], b[1..]);
      assert a == [a[0]] + a[1..] && b == [b[0]] + b[1..];
    }
  }

  /** `sorted(set(s))` depends only on which strings occur in `s`. */
  lemma SortedSetDependsOnElementsOnly(s: seq<string>, t: seq<string>)
    requires forall x :: x in s <==> x in t
    ensures SortedSet(s) == SortedSet(t)
  {
    SortedSetStrictlyAscending(s);
    SortedSetStrictlyAscending(t);
    StrictlyAscendingUnique(SortedSet(s), SortedSet(t));
  }

  // ---------------------------------------------------------------------------
  // Decimal numbers
  // ---------------------------------------------------------------------------

  function DigitValue(c: char): nat
    requires IsDigit(c)
  {
    c as int - '0' as int
  }

  /** The value of a string of decimal digits. */
  function DecimalValue(s: string): nat
    requires AllDigits(s)
  {
    if s == [] then 0 else 10 * DecimalValue(s[..|s| - 1]) + DigitValue(s[|s| - 1])
  }

  /** `str(n)` for a natural number: decimal digits without leading zeros. */
  function NatToDecimal(n: nat): (r: string)
    ensures |r| >= 1 && AllDigits(r)
    ensures |r| > 1 ==> r[0] != '0'
  {
    if n < 10 then [('0' as int + n) as char]
    else NatToDecimal(n / 10) + [('0' as int + n % 10) as char]
  }

  /** `str(i)` for any integer. */
  function IntToDecimal(i: int): string {
    if i < 0 then "-" + NatToDecimal(-i) else NatToDecimal(i)
  }

  lemma {:induction false} DecimalRoundTrip(n: nat)
    ensures DecimalValue(NatToDecimal(n)) == n
  {
    if n >= 10 {
      DecimalRoundTrip(n / 10);
      var r := NatToDecimal(n);
      assert r[..|r| - 1] == NatToDecimal(n / 10);
    }
  }
}
