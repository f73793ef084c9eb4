/** The highlight clean-up of the resume parser (`filter_highlights` and
    `refine_highlights` in logic/resume_parser.py, repeated line for line in
    dataPreprocess/resumeParser.py): bullets and whitespace are trimmed, items under three
    words are dropped, long items are split into clauses, and every item is capitalised,
    given a final full stop and deduplicated. */
module ResumeHighlights {
  import opened PyStr
  import opened PyJson

  /** The characters `strip("•- \n\t")` removes. */
  const BulletChars: set<char> := {'•', '-', ' ', '\n', '\t'}

  /** The verbs `filter_highlights` tests the first word against. */
  const ActionVerbs: seq<string> := [
    "developed", "designed", "implemented", "led", "analyzed",
    "created", "managed", "optimized", "conducted", "built",
    "researched", "improved", "organized", "presented", "trained"]

  /** `text.strip("•- \n\t").strip()`. */
  function Clean(s: string): (r: string)
    ensures r != [] ==> !IsSpace(r[0]) && !IsSpace(r[|r| - 1])
  {
    Strip(StripWith(s, AnyOf(BulletChars)))
  }

  /** The test `filter_highlights` keeps an item by: non-empty and at least three words. */
  predicate LongEnough(t: string) {
    t != "" && WordCount(t) >= 3
  }

  /** `text.split()[0]`: the first word of a text that has one. */
  function FirstWord(s: string): string
    decreases |s|
  {
    if s == [] then []
    else if IsSpace(s[0]) then FirstWord(s[1..])
    else [s[0]] + WordHead(s[1..])
  }

  function WordHead(s: string): string {
    if s == [] || IsSpace(s[0]) then [] else [s[0]] + WordHead(s[1..])
  }

  /** `str(item)` of every item. */
  function Texts(items: seq<Json>, show: Json -> string): (r: seq<string>)
    ensures |r| == |items| && forall i | 0 <= i < |items| :: r[i] == Str(items[i], show)
  {
    seq(|items|, i requires 0 <= i < |items| => Str(items[i], show))
  }

  /** What the loop of `filter_highlights` appends for `texts`, cleaned by `clean`, before
      the deduplication. */
  function Kept(texts: seq<string>, clean: string -> string): seq<string> {
    if texts == [] then []
    else
      var t := clean(texts[|texts| - 1]);
      Kept(texts[..|texts| - 1], clean) + (if LongEnough(t) then [t] else [])
  }

  /** The loop keeps exactly the cleaned texts of at least three words. */
  lemma {:induction false} KeptMembers(texts: seq<string>, clean: string -> string, x: string)
    ensures x in Kept(texts, clean) <==> exists i | 0 <= i < |texts| :: x == clean(texts[i]) && LongEnough(x)
  {
    if texts != [] {
      var init := texts[..|texts| - 1];
      var t := clean(texts[|texts| - 1]);
      KeptMembers(init, clean, x);
      if x in Kept(texts, clean) {
        if x in Kept(init, clean) {
          var i :| 0 <= i < |init| && x == clean(init[i]) && LongEnough(x);
          assert texts[i] == init[i];
        }
      } else {
        forall i | 0 <= i < |texts| && x == clean(texts[i]) ensures !LongEnough(x) {
          if i < |init| { assert texts[i] == init[i]; }
        }
      }
    }
  }

  /** `filter_highlights(raw_list)` over the items of the list: the cleaned items of at least
      three words, each once, in the order they first occur. The action-verb test appends in
      both of its branches, so it decides nothing. */
  method FilterHighlights(items: seq<Json>, show: Json -> string) returns (r: seq<string>)
    ensures r == Dedupe(Kept(Texts(items, show), Clean))
    ensures NoDups(r)
    ensures forall x :: x in r <==> exists i | 0 <= i < |items| :: x == Clean(Str(items[i], show)) && LongEnough(x)
  {
    var texts := Texts(items, show);
    var filtered: seq<string> := [];
    for i := 0 to |items|
      invariant filtered == Kept(texts[..i], Clean)
    {
      assert texts[..i + 1][..i] == texts[..i];
      var text := Clean(Str(items[i], show));
      if text == "" {
        continue;
      }
      if WordCount(text) < 3 {
        continue;
      }
      if Lower(FirstWord(text)) in ActionVerbs {
        filtered := filtered + [text];
      } else {
        filtered := filtered + [text];
      }
    }
    assert texts[..|items|] == texts;
    r := Dedupe(filtered);
    forall x ensures x in r <==> exists i | 0 <= i < |items| :: x == Clean(Str(items[i], show)) && LongEnough(x) {
      KeptMembers(texts, Clean, x);
    }
  }

  // ---------------------------------------------------------------------------
  // refine_highlights
  // ---------------------------------------------------------------------------

  /** `re.split(r',| and ', s)`: the pieces between the commas and the `" and "`s, found left
      to right. */
  function SplitClauses(s: string): (r: seq<string>)
    ensures |r| >= 1
    ensures forall k | 0 <= k < |r| :: ',' !in r[k]
    decreases |s|
  {
    if s == [] then [""]
    else if s[0] == ',' then [""] + SplitClauses(s[1..])
    else if StartsWith(s, " and ") then [""] + SplitClauses(s[5..])
    else
      var rest := SplitClauses(s[1..]);
      [[s[0]] + rest[0]] + rest[1..]
  }

  /** `[p.strip() for p in parts if len(p.strip().split()) >= 3]`. */
  function LongPieces(parts: seq<string>): seq<string> {
    if parts == [] then []
    else
      var init := parts[..|parts| - 1];
      var p := Strip(parts[|parts| - 1]);
      LongPieces(init) + (if WordCount(p) >= 3 then [p] else [])
  }

  /** The clauses kept are exactly the stripped pieces of at least three words. */
  lemma LongPiecesMembers(parts: seq<string>, x: string)
    ensures x in LongPieces(parts) <==> exists i | 0 <= i < |parts| :: x == Strip(parts[i]) && WordCount(x) >= 3
  {
    if x in LongPieces(parts) {
      var i := LongPieceSource(parts, x);
    }
    if exists i | 0 <= i < |parts| :: x == Strip(parts[i]) && WordCount(x) >= 3 {
      var i :| 0 <= i < |parts| && x == Strip(parts[i]) && WordCount(x) >= 3;
      LongPieceKept(parts, i);
    }
  }

  /** A kept clause is the stripped form of some piece, and has at least three words. */
  lemma {:induction false} LongPieceSource(parts: seq<string>, x: string) returns (i: nat)
    requires x in LongPieces(parts)
    ensures i < |parts| && x == Strip(parts[i]) && WordCount(x) >= 3
  {
    var init := parts[..|parts| - 1];
    if x in LongPieces(init) {
      i := LongPieceSource(init, x);
      assert parts[i] == init[i];
    } else {
      i := |parts| - 1;
    }
  }

  /** Every piece of at least three words, once stripped, is kept. */
  lemma {:induction false} LongPieceKept(parts: seq<string>, i: nat)
    requires i < |parts| && WordCount(Strip(parts[i])) >= 3
    ensures Strip(parts[i]) in LongPieces(parts)
  {
    var init := parts[..|parts| - 1];
    if i < |init| {
      assert init[i] == parts[i];
      LongPieceKept(init, i);
    }
  }

  /** What the first loop of `refine_highlights` appends for one highlight: nothing for a
      blank one, the whole cleaned text when it has at most `maxWords` words, its long
      clauses otherwise. */
  function RefinedItem(hl: string, maxWords: int): seq<string> {
    var text := Clean(hl);
    if text == "" then []
    else if WordCount(text) > maxWords then LongPieces(SplitClauses(text))
    else [text]
  }

  /** The list the first loop of `refine_highlights` builds. */
  function Refined(hls: seq<string>, maxWords: int): seq<string> {
    if hls == [] then []
    else Refined(hls[..|hls| - 1], maxWords) + RefinedItem(hls[|hls| - 1], maxWords)
  }

  /** A finished highlight: not empty, starting with a character `upper` leaves alone, and
      ending with a full stop. */
  predicate Finished(x: string) {
    x != "" && IsUpperStable(x[0]) && x[|x| - 1] == '.'
  }

  /** What the second loop of `refine_highlights` makes of one item: stripped, the first
      character upper-cased and a full stop added when missing; nothing for a blank item. */
  function Normalize(item: string): (r: seq<string>)
    ensures |r| <= 1 && forall x | x in r :: Finished(x)
  {
    var t := Strip(item);
    if t == "" then []
    else
      var u := UpperChar(t[0]) + t[1..];
      UpperCharIsStable(t[0]);
      [if EndsWith(u, ".") then u else u + "."]
  }

  /** The list the second loop of `refine_highlights` builds. */
  function NormalizedAll(items: seq<string>): (r: seq<string>)
    ensures forall x | x in r :: Finished(x)
  {
    if items == [] then []
    else NormalizedAll(items[..|items| - 1]) + Normalize(items[|items| - 1])
  }

  /** `refine_highlights(highlights, max_words)`: every result is a finished highlight and
      occurs once. */
  method RefineHighlights(highlights: seq<string>, maxWords: int) returns (r: seq<string>)
    ensures r == Dedupe(NormalizedAll(Refined(highlights, maxWords)))
    ensures NoDups(r) && forall x | x in r :: Finished(x)
  {
    var refined := SplitLong(highlights, maxWords);
    var normalized := NormalizeEach(refined);
    r := Dedupe(normalized);
  }

  /** The first loop of `refine_highlights`. */
  method SplitLong(highlights: seq<string>, maxWords: int) returns (refined: seq<string>)
    ensures refined == Refined(highlights, maxWords)
  {
    refined := [];
    for i := 0 to |highlights|
      invariant refined == Refined(highlights[..i], maxWords)
    {
      assert highlights[..i + 1][..i] == highlights[..i];
      ghost var before := refined;
      assert Refined(highlights[..i + 1], maxWords) == before + RefinedItem(highlights[i], maxWords);
      var text := Clean(highlights[i]);
      if text == "" {
        continue;
      }
      if WordCount(text) > maxWords {
        var parts := LongPieces(SplitClauses(text));
        refined := AppendEach(refined, parts);
      } else {
        refined := refined + [text];
      }
    }
    assert highlights[..|highlights|] == highlights;
  }

  /** `for p in parts: refined.append(p)`. */
  method AppendEach(refined: seq<string>, parts: seq<string>) returns (r: seq<string>)
    ensures r == refined + parts
  {
    r := refined;
    for j := 0 to |parts|
      invariant r == refined + parts[..j]
    {
      assert parts[..j + 1] == parts[..j] + [parts[j]];
      r := r + [parts[j]];
    }
    assert parts[..|parts|] == parts;
  }

  /** The second loop of `refine_highlights`. */
  method NormalizeEach(refined: seq<string>) returns (normalized: seq<string>)
    ensures normalized == NormalizedAll(refined)
  {
    normalized := [];
    for i := 0 to |refined|
      invariant normalized == NormalizedAll(refined[..i])
    {
      assert refined[..i + 1][..i] == refined[..i];
      var item := Strip(refined[i]);
      if item == "" {
        assert Normalize(refined[i]) == [];
        continue;
      }
      item := UpperChar(item[0]) + item[1..];
      if !EndsWith(item, ".") {
        item := item + ".";
      }
      assert Normalize(refined[i]) == [item];
      normalized := normalized + [item];
    }
    assert refined[..|refined|] == refined;
  }

  // ---------------------------------------------------------------------------
  // Properties
  // ---------------------------------------------------------------------------

  /** A text without surrounding whitespace is its own `strip()`. */
  lemma StripOfStripped(t: string)
    requires t != [] ==> !IsSpace(t[0]) && !IsSpace(t[|t| - 1])
    ensures Strip(t) == t
  {
    StripWithUnchanged(t, Whitespace);
  }

  /** A finished highlight of at most `maxWords` words comes out of `refine_highlights`
      exactly as it went in. */
  lemma RefineKeepsFinished(h: string, maxWords: int)
    requires Clean(h) == h && Finished(h) && WordCount(h) <= maxWords
    ensures Dedupe(NormalizedAll(Refined([h], maxWords))) == [h]
  {
    assert [h][..0] == [];
    assert Refined([h], maxWords) == [h];
    StripOfStripped(h);
    UpperCharIsStable(h[0]);
    assert UpperChar(h[0]) + h[1..] == h;
    assert EndsWith(h, ".");
    assert Normalize(h) == [h];
    assert [h][..0] == [];
    assert NormalizedAll([h]) == [h];
  }

  /** Texts of at least three words that cleaning leaves alone come out of the loop of
      `filter_highlights` unchanged and in order. */
  lemma {:induction false} FilterKeepsCleanTexts(texts: seq<string>, clean: string -> string)
    requires forall i | 0 <= i < |texts| :: clean(texts[i]) == texts[i] && LongEnough(texts[i])
    ensures Kept(texts, clean) == texts
  {
    if texts != [] {
      var init := texts[..|texts| - 1];
      var last := texts[|texts| - 1];
      assert forall i | 0 <= i < |init| :: init[i] == texts[i];
      FilterKeepsCleanTexts(init, clean);
      assert clean(last) == last && LongEnough(last);
      assert Kept(texts, clean) == Kept(init, clean) + [last];
      assert init + [last] == texts;
    }
  }

  // ---------------------------------------------------------------------------
  // Finding: filter_highlights is not idempotent
  // ---------------------------------------------------------------------------

  /** `Clean` strips the bullet characters before the whitespace: a highlight whose bullet
      sits behind a carriage return, such as `"\r- built a thing"`, keeps its bullet the
      first time and loses it the second time, so `filter_highlights` applied to its own
      output changes it. */
  lemma FilterNotIdempotent(w: string)
    requires w != [] && !Strips(WhitespaceOr(BulletChars), w[0]) && !Strips(WhitespaceOr(BulletChars), w[|w| - 1])
    requires WordCount(w) >= 3
    ensures Dedupe(Kept(["\r- " + w], Clean)) == ["- " + w]
    ensures Dedupe(Kept(["- " + w], Clean)) == [w]
    ensures ["- " + w] != [w]
  {
    var t := "- " + w;
    var s := "\r- " + w;
    CleanBehindCarriageReturn(w);
    CleanAfterBullet(w);
    WordCountAfterSpace("-", w);
    assert t == "-" + " " + w;
    assert LongEnough(t) && LongEnough(w);
    assert [t][..0] == [] && [s][..0] == [];
    assert Kept([s], Clean) == Kept([], Clean) + [t];
    assert Kept([t], Clean) == Kept([], Clean) + [w];
    assert |t| != |w|;
  }

  /** Behind a carriage return the bullet survives: only the whitespace goes. */
  lemma CleanBehindCarriageReturn(w: string)
    requires w != [] && !Strips(WhitespaceOr(BulletChars), w[0]) && !Strips(WhitespaceOr(BulletChars), w[|w| - 1])
    ensures Clean("\r- " + w) == "- " + w
  {
    var t := "- " + w;
    var s := "\r- " + w;
    assert s == "\r" + t;
    assert s[|s| - 1] == w[|w| - 1] && t[|t| - 1] == w[|w| - 1];
    StripWithUnchanged(s, AnyOf(BulletChars));
    assert s[1..] == t;
    assert LStrip(s, Whitespace) == t;
  }

  /** A leading bullet and its space go. */
  lemma CleanAfterBullet(w: string)
    requires w != [] && !Strips(WhitespaceOr(BulletChars), w[0]) && !Strips(WhitespaceOr(BulletChars), w[|w| - 1])
    ensures Clean("- " + w) == w
  {
    var t := "- " + w;
    var bullets := AnyOf(BulletChars);
    assert t[|t| - 1] == w[|w| - 1];
    assert t[1..][1..] == w;
    assert LStrip(w, bullets) == w;
    assert LStrip(t[1..], bullets) == LStrip(w, bullets);
    assert LStrip(t, bullets) == LStrip(t[1..], bullets);
    StripWithUnchanged(w, Whitespace);
  }

  /** Words after a separating space are counted on their own. */
  lemma {:induction false} WordCountAfterSpace(p: string, w: string)
    requires w != [] && !IsSpace(w[0])
    ensures WordCount(p + " " + w) == WordCount(p + " ") + WordCount(w)
    decreases |w|
  {
    var q := p + " ";
    if |w| == 1 {
      assert (q + w)[..|q + w| - 1] == q;
      assert WordCount([w[0]]) == 1 by { assert [w[0]][..0] == []; }
      assert [w[0]] == w;
    } else {
      var w' := w[..|w| - 1];
      WordCountAfterSpace(p, w');
      assert (q + w)[..|q + w| - 1] == q + w';
      assert p + " " + w == q + w;
      assert p + " " + w' == q + w';
      assert (q + w)[|q + w| - 2] == w[|w| - 2];
    }
  }

  /** The evidently intended clean-up: bullets and whitespace stripped together, in any
      mix. */
  function CleanFixed(s: string): (r: string)
    ensures r != [] ==> !IsSpace(r[0]) && !IsSpace(r[|r| - 1])
    ensures r != [] ==> r[0] !in BulletChars && r[|r| - 1] !in BulletChars
  {
    StripWith(s, WhitespaceOr(BulletChars))
  }

  /** `filter_highlights` with the intended clean-up. */
  function FilterFixed(texts: seq<string>): (r: seq<string>)
    ensures NoDups(r)
  {
    Dedupe(Kept(texts, CleanFixed))
  }

  /** With the intended clean-up, filtering the filtered highlights changes nothing. */
  lemma FilterFixedIdempotent(texts: seq<string>)
    ensures FilterFixed(FilterFixed(texts)) == FilterFixed(texts)
  {
    var r := FilterFixed(texts);
    forall i | 0 <= i < |r| ensures CleanFixed(r[i]) == r[i] && LongEnough(r[i]) {
      KeptMembers(texts, CleanFixed, r[i]);
      var j :| 0 <= j < |texts| && r[i] == CleanFixed(texts[j]) && LongEnough(r[i]);
      StripWithIdempotent(texts[j], WhitespaceOr(BulletChars));
    }
    FilterKeepsCleanTexts(r, CleanFixed);
    DedupeOfNoDups(r);
  }
}
