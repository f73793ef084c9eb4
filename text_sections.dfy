/** The regular-expression helpers the retrieval parsers share
    (app/server/ragmodel/dataPreprocess/resumeParser.py and jobParser.py): splitting a text
    at its headings, picking out bullet lines, and collecting the comma-separated pieces of
    a text. The patterns are written out as recognisers over characters. */
module TextSections {
  import opened Wrappers
  import opened PyStr

  // ---------------------------------------------------------------------------
  // Headings: re.split(r"(?:^|\n)(N1|N2|…)[:\s]*\n", text, flags=re.I)
  // ---------------------------------------------------------------------------

  /** The regex class `[:\s]`. */
  predicate IsColonOrSpace(c: char) { c == ':' || IsSpace(c) }

  /** Where the run of `[:\s]` characters that starts at `k` ends. */
  function RunEnd(text: string, k: nat): (e: nat)
    requires k <= |text|
    ensures k <= e <= |text|
    ensures forall j | k <= j < e :: IsColonOrSpace(text[j])
    ensures e < |text| ==> !IsColonOrSpace(text[e])
    decreases |text| - k
  {
    if k < |text| && IsColonOrSpace(text[k]) then RunEnd(text, k + 1) else k
  }

  /** The position just after the last newline of `text[k..e]`, if it has one. */
  function AfterLastNewline(text: string, k: nat, e: nat): (r: Option<nat>)
    requires k <= e <= |text|
    ensures r.Some? ==> k < r.value <= e && text[r.value - 1] == '\n'
    ensures r.Some? ==> forall j | r.value <= j < e :: text[j] != '\n'
    ensures r.None? ==> forall j | k <= j < e :: text[j] != '\n'
    decreases e - k
  {
    if e == k then None
    else if text[e - 1] == '\n' then Some(e)
    else AfterLastNewline(text, k, e - 1)
  }

  /** `[:\s]*\n` from position `k`: the greedy run of colons and whitespace, backed off to
      just after its last newline; nothing when the run holds no newline. */
  function HeadingTail(text: string, k: nat): (r: Option<nat>)
    requires k <= |text|
    ensures r.Some? ==> k < r.value <= |text| && text[r.value - 1] == '\n'
    ensures r.Some? ==> forall j | k <= j < r.value :: IsColonOrSpace(text[j])
  {
    AfterLastNewline(text, k, RunEnd(text, k))
  }

  /** `name` occurs at `q`, compared case-insensitively. */
  predicate NameAt(text: string, name: string, q: nat) {
    q + |name| <= |text| && forall j | 0 <= j < |name| :: LowerChar(text[q + j]) == LowerChar(name[j])
  }

  /** The alternatives `N_i|…|N_n` tried in order at `q`: the end of the first name that the
      rest of the pattern accepts, with the end of the whole match. */
  function Alternative(text: string, names: seq<string>, q: nat, i: nat): (r: Option<(nat, nat)>)
    requires q <= |text|
    ensures r.Some? ==> q <= r.value.0 < r.value.1 <= |text| && text[r.value.1 - 1] == '\n'
    ensures r.Some? ==> exists k | i <= k < |names| ::
      NameAt(text, names[k], q) && r.value.0 == q + |names[k]|
    decreases |names| - i
  {
    if i >= |names| then None
    else if NameAt(text, names[i], q) && HeadingTail(text, q + |names[i]|).Some? then
      Some((q + |names[i]|, HeadingTail(text, q + |names[i]|).value))
    else Alternative(text, names, q, i + 1)
  }

  /** A match of the heading pattern: where it starts, where the captured heading starts and
      ends, and where the match ends. */
  datatype Match = Match(start: nat, nameStart: nat, nameEnd: nat, end: nat)

  /** The heading pattern tried at `p`: `^` only at the very start of the text, else a
      newline followed by a heading. */
  function MatchAt(text: string, names: seq<string>, p: nat): (r: Option<Match>)
    requires p <= |text|
    ensures r.Some? ==> r.value.start == p && p <= r.value.nameStart <= r.value.nameEnd < r.value.end <= |text|
    ensures r.Some? ==> r.value.nameStart == 0 || text[r.value.nameStart - 1] == '\n'
    ensures r.Some? ==> text[r.value.end - 1] == '\n'
    ensures r.Some? ==> exists k | 0 <= k < |names| ::
      NameAt(text, names[k], r.value.nameStart) && r.value.nameEnd == r.value.nameStart + |names[k]|
  {
    var caret := if p == 0 then Alternative(text, names, 0, 0) else None;
    if caret.Some? then Some(Match(p, 0, caret.value.0, caret.value.1))
    else if p < |text| && text[p] == '\n' then
      match Alternative(text, names, p + 1, 0)
      case Some(x) => Some(Match(p, p + 1, x.0, x.1))
      case None => None
    else None
  }

  /** The leftmost match at or after `from`. */
  function NextMatch(text: string, names: seq<string>, from: nat): (r: Option<Match>)
    requires from <= |text|
    ensures r.Some? ==> from <= r.value.start <= |text| && MatchAt(text, names, r.value.start) == r
    ensures forall p | from <= p <= |text| && (r.None? || p < r.value.start) :: MatchAt(text, names, p).None?
    decreases |text| - from
  {
    if MatchAt(text, names, from).Some? then MatchAt(text, names, from)
    else if from == |text| then None
    else NextMatch(text, names, from + 1)
  }

  /** `re.split` from `from` on: the text up to the next heading, then each heading with the
      text up to the heading after it. */
  function SplitFrom(text: string, names: seq<string>, from: nat): (r: (string, seq<(string, string)>))
    requires from <= |text|
    decreases |text| - from
  {
    match NextMatch(text, names, from)
    case None => (text[from..], [])
    case Some(m) =>
      var rest := SplitFrom(text, names, m.end);
      (text[from..m.start], [(text[m.nameStart..m.nameEnd], rest.0)] + rest.1)
  }

  /** The headings and bodies laid out one after the other. */
  function Flatten(pairs: seq<(string, string)>): (r: seq<string>)
    ensures |r| == 2 * |pairs|
    ensures forall k | 0 <= k < |pairs| :: r[2 * k] == pairs[k].0 && r[2 * k + 1] == pairs[k].1
  {
    if pairs == [] then [] else [pairs[0].0, pairs[0].1] + Flatten(pairs[1..])
  }

  /** The dictionary the loop over the split builds: each heading lower-cased, mapped to its
      stripped body, a later heading overwriting an earlier one. */
  function SectionMap(pairs: seq<(string, string)>): map<string, string> {
    if pairs == [] then map[]
    else SectionMap(pairs[..|pairs| - 1])[Lower(pairs[|pairs| - 1].0) := Strip(pairs[|pairs| - 1].1)]
  }

  /** The sections of `text` under the headings `names`. */
  function Sections(text: string, names: seq<string>): map<string, string> {
    SectionMap(SplitFrom(text, names, 0).1)
  }

  /** `regex_find_section(text, names)` / `find_section(text, names)`: the pieces of
      `re.split` as Python lists them (the preamble, then each captured heading followed by
      its body), walked from the first heading in steps of two. */
  method FindSection(text: string, names: seq<string>) returns (out: map<string, string>)
    ensures out == Sections(text, names)
  {
    var parts := SplitFrom(text, names, 0);
    out := SectionLoop([parts.0] + Flatten(parts.1), parts.1);
  }

  /** The loop over the split, walked from the first heading in steps of two. */
  method SectionLoop(splits: seq<string>, ghost pairs: seq<(string, string)>) returns (out: map<string, string>)
    requires |splits| == 2 * |pairs| + 1
    requires forall k | 0 <= k < |pairs| :: splits[2 * k + 1] == pairs[k].0 && splits[2 * k + 2] == pairs[k].1
    ensures out == SectionMap(pairs)
  {
    out := map[];
    var i := 1;
    ghost var j := 0;
    while i < |splits|
      invariant i == 2 * j + 1 && 0 <= j <= |pairs|
      invariant out == SectionMap(pairs[..j])
    {
      assert splits[i] == pairs[j].0 && splits[i + 1] == pairs[j].1;
      assert pairs[..j + 1][..j] == pairs[..j];
      var sec := Lower(splits[i]);
      var data := splits[i + 1];
      out := out[sec := Strip(data)];
      i := i + 2;
      j := j + 1;
    }
    assert pairs[..j] == pairs;
  }

  // ---------------------------------------------------------------------------
  // Properties of the section split
  // ---------------------------------------------------------------------------

  /** Every captured heading is one of the names, up to case. */
  lemma {:induction false} HeadingsAreNames(text: string, names: seq<string>, from: nat)
    requires from <= |text|
    ensures forall k | 0 <= k < |SplitFrom(text, names, from).1| ::
      exists n | n in names :: Lower(SplitFrom(text, names, from).1[k].0) == Lower(n)
    decreases |text| - from
  {
    var pairs := SplitFrom(text, names, from).1;
    match NextMatch(text, names, from)
    case None =>
      assert pairs == [];
    case Some(m) =>
      var rest := SplitFrom(text, names, m.end);
      HeadingsAreNames(text, names, m.end);
      assert pairs == [(text[m.nameStart..m.nameEnd], rest.0)] + rest.1;
      var i :| 0 <= i < |names| && NameAt(text, names[i], m.nameStart) && m.nameEnd == m.nameStart + |names[i]|;
      var h := text[m.nameStart..m.nameEnd];
      assert Lower(h) == Lower(names[i]);
      forall k | 0 <= k < |pairs| ensures exists n | n in names :: Lower(pairs[k].0) == Lower(n) {
        if k == 0 {
          assert names[i] in names;
        } else {
          assert pairs[k] == rest.1[k - 1];
        }
      }
  }

  /** The dictionary has an entry for exactly the lower-cased headings. */
  lemma {:induction false} SectionMapKeys(pairs: seq<(string, string)>, key: string)
    ensures key in SectionMap(pairs) <==> exists j | 0 <= j < |pairs| :: Lower(pairs[j].0) == key
  {
    if pairs != [] {
      var init := pairs[..|pairs| - 1];
      SectionMapKeys(init, key);
      if key in SectionMap(pairs) && Lower(pairs[|pairs| - 1].0) != key {
        var j :| 0 <= j < |init| && Lower(init[j].0) == key;
        assert pairs[j] == init[j];
      }
      if key !in SectionMap(pairs) {
        forall j | 0 <= j < |pairs| ensures Lower(pairs[j].0) != key {
          if j < |init| { assert pairs[j] == init[j]; }
        }
      }
    }
  }

  /** A heading that no later heading repeats (up to case) has its own stripped body in the
      dictionary: the last of several equal headings wins. */
  lemma {:induction false} SectionMapLastWins(pairs: seq<(string, string)>, j: nat)
    requires j < |pairs|
    requires forall l | j < l < |pairs| :: Lower(pairs[l].0) != Lower(pairs[j].0)
    ensures Lower(pairs[j].0) in SectionMap(pairs)
    ensures SectionMap(pairs)[Lower(pairs[j].0)] == Strip(pairs[j].1)
  {
    if j < |pairs| - 1 {
      var init := pairs[..|pairs| - 1];
      assert init[j] == pairs[j];
      forall l | j < l < |init| ensures Lower(init[l].0) != Lower(init[j].0) {
        assert init[l] == pairs[l];
      }
      SectionMapLastWins(init, j);
    }
  }

  /** Every key of the dictionary `find_section` returns is one of the names, lower-cased:
      the text before the first heading is dropped. */
  lemma SectionKeysAreNames(text: string, names: seq<string>, key: string)
    requires key in SectionMap(SplitFrom(text, names, 0).1)
    ensures exists n | n in names :: key == Lower(n)
  {
    var pairs := SplitFrom(text, names, 0).1;
    SectionMapKeys(pairs, key);
    HeadingsAreNames(text, names, 0);
    var j :| 0 <= j < |pairs| && Lower(pairs[j].0) == key;
  }

  /** A text that is one heading (the first name), a colon and newline, and a one-line body
      has exactly one section, holding that body stripped. */
  lemma OneSection(names: seq<string>, body: string)
    requires names != [] && names[0] != [] && !IsColonOrSpace(names[0][|names[0]| - 1])
    requires '\n' !in body && (body != [] ==> !IsColonOrSpace(body[0]))
    ensures SectionMap(SplitFrom(names[0] + ":\n" + body, names, 0).1) == map[Lower(names[0]) := Strip(body)]
  {
    var n := names[0];
    var text := n + ":\n" + body;
    var e := |n| + 2;
    OneSectionHeading(names, body, text);
    OneSectionBody(names, body, text);
    assert text[0..|n|] == n && text[e..] == body;
    assert SplitFrom(text, names, e) == (body, []);
    assert SplitFrom(text, names, 0).1 == [(n, body)];
    assert [(n, body)][..0] == [];
  }

  /** The heading of a one-section text is matched at its very start. */
  lemma OneSectionHeading(names: seq<string>, body: string, text: string)
    requires names != [] && names[0] != [] && !IsColonOrSpace(names[0][|names[0]| - 1])
    requires body != [] ==> !IsColonOrSpace(body[0])
    requires text == names[0] + ":\n" + body
    ensures NextMatch(text, names, 0) == Some(Match(0, 0, |names[0]|, |names[0]| + 2))
  {
    var n := names[0];
    var e := |n| + 2;
    assert NameAt(text, n, 0);
    assert RunEnd(text, |n|) == e by {
      assert text[|n|] == ':' && text[|n| + 1] == '\n';
      assert e < |text| ==> text[e] == body[0];
      assert RunEnd(text, e) == e;
    }
    assert HeadingTail(text, |n|) == Some(e);
    assert MatchAt(text, names, 0) == Some(Match(0, 0, |n|, e));
  }

  /** No heading follows in a one-line body. */
  lemma OneSectionBody(names: seq<string>, body: string, text: string)
    requires names != [] && '\n' !in body
    requires text == names[0] + ":\n" + body
    ensures NextMatch(text, names, |names[0]| + 2) == None
  {
    var e := |names[0]| + 2;
    forall p | e <= p <= |text| ensures MatchAt(text, names, p).None? {
      if p < |text| { assert text[p] == body[p - e]; }
    }
    NoMatchFrom(text, names, e);
  }

  lemma {:induction false} NoMatchFrom(text: string, names: seq<string>, from: nat)
    requires from <= |text|
    requires forall p | from <= p <= |text| :: MatchAt(text, names, p).None?
    ensures NextMatch(text, names, from) == None
    decreases |text| - from
  {
    if from < |text| {
      NoMatchFrom(text, names, from + 1);
    }
  }

  // ---------------------------------------------------------------------------
  // Bullet lines
  // ---------------------------------------------------------------------------

  /** The characters `line.strip("•-* \n")` removes. */
  const BulletStrip: StripSet := AnyOf({'•', '-', '*', ' ', '\n'})

  /** `re.match(r"^[\-\*\•]\s+", line.strip())`: a bullet sign and whitespace after it. */
  predicate IsBulletLine(line: string) {
    var t := Strip(line);
    |t| >= 2 && t[0] in {'-', '*', '•'} && IsSpace(t[1])
  }

  /** The bullet lines of `lines`, each with its bullet signs and spaces stripped. */
  function Bullets(lines: seq<string>): (r: seq<string>)
  {
    if lines == [] then []
    else
      var last := lines[|lines| - 1];
      Bullets(lines[..|lines| - 1]) + (if IsBulletLine(last) then [StripWith(last, BulletStrip)] else [])
  }

  /** `regex_extract_highlights(text)` / `extract_bullets(text)`: over the lines of the text,
      each bullet line with its bullet signs stripped. */
  method ExtractBullets(text: string) returns (out: seq<string>)
    ensures out == Bullets(SplitOn(text, '\n'))
  {
    var lines := SplitOn(text, '\n');
    out := [];
    for i := 0 to |lines|
      invariant out == Bullets(lines[..i])
    {
      assert lines[..i + 1][..i] == lines[..i];
      if IsBulletLine(lines[i]) {
        out := out + [StripWith(lines[i], BulletStrip)];
      }
    }
    assert lines[..|lines|] == lines;
  }

  /** Every line kept is a bullet line, stripped. */
  lemma {:induction false} BulletsFrom(lines: seq<string>, x: string)
    requires x in Bullets(lines)
    ensures exists i | 0 <= i < |lines| :: IsBulletLine(lines[i]) && x == StripWith(lines[i], BulletStrip)
  {
    var init := lines[..|lines| - 1];
    if x in Bullets(init) {
      BulletsFrom(init, x);
      var i :| 0 <= i < |init| && IsBulletLine(init[i]) && x == StripWith(init[i], BulletStrip);
      assert lines[i] == init[i];
    }
  }

  /** Every bullet line is kept, stripped. */
  lemma {:induction false} BulletsKeep(lines: seq<string>, i: nat)
    requires i < |lines| && IsBulletLine(lines[i])
    ensures StripWith(lines[i], BulletStrip) in Bullets(lines)
  {
    var init := lines[..|lines| - 1];
    if i < |init| {
      assert init[i] == lines[i];
      BulletsKeep(init, i);
    }
  }

  /** The lines kept are exactly the bullet lines. */
  lemma BulletsExactly(lines: seq<string>, x: string)
    ensures x in Bullets(lines) <==> exists i | 0 <= i < |lines| :: IsBulletLine(lines[i]) && x == StripWith(lines[i], BulletStrip)
  {
    if x in Bullets(lines) {
      BulletsFrom(lines, x);
    }
    if exists i | 0 <= i < |lines| :: IsBulletLine(lines[i]) && x == StripWith(lines[i], BulletStrip) {
      var i :| 0 <= i < |lines| && IsBulletLine(lines[i]) && x == StripWith(lines[i], BulletStrip);
      BulletsKeep(lines, i);
    }
  }

  /** A tab in front of the bullet is not among the stripped characters: the line is
      recognised, but comes out with its tab and bullet. */
  lemma TabbedBulletKeepsBullet(rest: string)
    requires rest != [] && !IsSpace(rest[0]) && !IsSpace(rest[|rest| - 1]) && !Strips(BulletStrip, rest[|rest| - 1])
    ensures IsBulletLine("\t- " + rest)
    ensures Bullets(["\t- " + rest]) == ["\t- " + rest]
  {
    var line := "\t- " + rest;
    assert LStrip(line, Whitespace) == line[1..] by {
      assert LStrip(line[1..], Whitespace) == line[1..];
    }
    assert line[1..] == "- " + rest;
    assert RStrip(line[1..], Whitespace) == line[1..];
    assert Strip(line) == "- " + rest;
    StripWithUnchanged(line, BulletStrip);
    assert [line][..0] == [];
  }

  // ---------------------------------------------------------------------------
  // Comma-separated pieces
  // ---------------------------------------------------------------------------

  /** `[s.strip() for s in parts if keep(s.strip())]`. */
  function KeptPieces(parts: seq<string>, keep: string -> bool): (r: seq<string>)
  {
    if parts == [] then []
    else
      var p := Strip(parts[|parts| - 1]);
      KeptPieces(parts[..|parts| - 1], keep) + (if keep(p) then [p] else [])
  }

  /** The pieces the line loop collects: from each line holding a comma, the kept stripped
      pieces between its commas. */
  function CommaPieces(lines: seq<string>, keep: string -> bool): (r: seq<string>)
  {
    if lines == [] then []
    else
      var line := lines[|lines| - 1];
      CommaPieces(lines[..|lines| - 1], keep) + (if ',' in line then KeptPieces(SplitOn(line, ','), keep) else [])
  }

  lemma {:induction false} CommaPiecesFrom(lines: seq<string>, keep: string -> bool, x: string)
    requires x in CommaPieces(lines, keep)
    ensures exists i | 0 <= i < |lines| :: ',' in lines[i] && x in KeptPieces(SplitOn(lines[i], ','), keep)
  {
    var init := lines[..|lines| - 1];
    if x in CommaPieces(init, keep) {
      CommaPiecesFrom(init, keep, x);
      var i :| 0 <= i < |init| && ',' in init[i] && x in KeptPieces(SplitOn(init[i], ','), keep);
      assert lines[i] == init[i];
    }
  }

  lemma {:induction false} CommaPiecesKeep(lines: seq<string>, keep: string -> bool, i: nat, x: string)
    requires i < |lines| && ',' in lines[i] && x in KeptPieces(SplitOn(lines[i], ','), keep)
    ensures x in CommaPieces(lines, keep)
  {
    var init := lines[..|lines| - 1];
    if i < |init| {
      assert init[i] == lines[i];
      CommaPiecesKeep(init, keep, i, x);
    }
  }

  /** A piece is collected exactly when it is a kept stripped piece of a line holding a
      comma. */
  lemma CommaPiecesExactly(lines: seq<string>, keep: string -> bool, x: string)
    ensures x in CommaPieces(lines, keep) <==>
      exists i | 0 <= i < |lines| :: ',' in lines[i] && x in KeptPieces(SplitOn(lines[i], ','), keep)
  {
    if x in CommaPieces(lines, keep) {
      CommaPiecesFrom(lines, keep, x);
    }
    if exists i | 0 <= i < |lines| :: ',' in lines[i] && x in KeptPieces(SplitOn(lines[i], ','), keep) {
      var i :| 0 <= i < |lines| && ',' in lines[i] && x in KeptPieces(SplitOn(lines[i], ','), keep);
      CommaPiecesKeep(lines, keep, i, x);
    }
  }

  /** The stripped pieces kept are exactly the stripped parts `keep` accepts. */
  lemma KeptPiecesExactly(parts: seq<string>, keep: string -> bool, x: string)
    ensures x in KeptPieces(parts, keep) <==> exists i | 0 <= i < |parts| :: x == Strip(parts[i]) && keep(x)
  {
    if x in KeptPieces(parts, keep) {
      var i := KeptPieceSource(parts, keep, x);
    }
    if exists i | 0 <= i < |parts| :: x == Strip(parts[i]) && keep(x) {
      var i :| 0 <= i < |parts| && x == Strip(parts[i]) && keep(x);
      KeptPieceKept(parts, keep, i);
    }
  }

  /** A kept piece is some part, stripped, that `keep` accepts. */
  lemma {:induction false} KeptPieceSource(parts: seq<string>, keep: string -> bool, x: string) returns (i: nat)
    requires x in KeptPieces(parts, keep)
    ensures i < |parts| && x == Strip(parts[i]) && keep(x)
  {
    var init := parts[..|parts| - 1];
    if x in KeptPieces(init, keep) {
      i := KeptPieceSource(init, keep, x);
      assert parts[i] == init[i];
    } else {
      i := |parts| - 1;
    }
  }

  /** Every part whose stripped form `keep` accepts is kept. */
  lemma {:induction false} KeptPieceKept(parts: seq<string>, keep: string -> bool, i: nat)
    requires i < |parts| && keep(Strip(parts[i]))
    ensures Strip(parts[i]) in KeptPieces(parts, keep)
  {
    var init := parts[..|parts| - 1];
    if i < |init| {
      assert init[i] == parts[i];
      KeptPieceKept(init, keep, i);
    }
  }

  /** The stripped, non-empty items, without repeats, in Python's string order:
      `sorted(list(dict.fromkeys([s.strip() for s in raw if s.strip()])))`. */
  function SortedSkills(raw: seq<string>): (r: seq<string>)
    ensures StrictlyAscending(r)
    ensures forall x :: x in r <==> x in KeptPieces(raw, NonEmpty)
  {
    SortedSetStrictlyAscending(KeptPieces(raw, NonEmpty));
    SortedSet(KeptPieces(raw, NonEmpty))
  }

  predicate NonEmpty(s: string) { s != "" }
}
