/** The list-as-set operations the onboarding screens share: the chosen skills of the
    candidate flow and the chosen industries of the recruiter flow are lists to which a
    non-empty entry is appended once, from which an entry is removed everywhere, and whose
    complement in a fixed suggestion list is shown. */
module ListSet {
  import opened Seqs
  import PyStr

  /** `if (x && !xs.includes(x)) xs = [...xs, x]`. */
  function AddIfNew(xs: seq<string>, x: string): (r: seq<string>)
    ensures x != "" && x !in xs ==> r == xs + [x]
    ensures x == "" || x in xs ==> r == xs
  {
    if x != "" && x !in xs then xs + [x] else xs
  }

  /** `xs.filter(y => y !== x)`. */
  function RemoveAll(xs: seq<string>, x: string): (r: seq<string>)
    ensures forall y :: y in r <==> y in xs && y != x
    ensures Subsequence(r, xs)
  {
    FilterIsSubsequence(xs, y => y != x);
    Filter(xs, y => y != x)
  }

  /** `fixed.filter(s => !chosen.includes(s))`. */
  function Suggestions(fixed: seq<string>, chosen: seq<string>): (r: seq<string>)
    ensures forall s :: s in r <==> s in fixed && s !in chosen
    ensures Subsequence(r, fixed)
  {
    FilterIsSubsequence(fixed, s => s !in chosen);
    Filter(fixed, s => s !in chosen)
  }

  /** An edit the user makes to the list. */
  datatype Edit = Add(entry: string) | Remove(entry: string)

  /** The list after the edits, in order. */
  function ApplyEdits(xs: seq<string>, edits: seq<Edit>): seq<string>
    decreases |edits|
  {
    if edits == [] then xs
    else
      var next := match edits[0] case Add(x) => AddIfNew(xs, x) case Remove(x) => RemoveAll(xs, x);
      ApplyEdits(next, edits[1..])
  }

  // ---------------------------------------------------------------------------
  // Properties
  // ---------------------------------------------------------------------------

  /** A filter of a duplicate-free list is duplicate-free. */
  lemma {:induction false} FilterNoDups(xs: seq<string>, p: string -> bool)
    requires PyStr.NoDups(xs)
    ensures PyStr.NoDups(Filter(xs, p))
  {
    if xs != [] {
      var rest := Filter(xs[1..], p);
      assert PyStr.NoDups(xs[1..]) by {
        forall i, j | 0 <= i < j < |xs[1..]| ensures xs[1..][i] != xs[1..][j] {
          assert xs[1..][i] == xs[i + 1] && xs[1..][j] == xs[j + 1];
        }
      }
      FilterNoDups(xs[1..], p);
      if p(xs[0]) {
        assert xs[0] !in xs[1..] by {
          forall k | 0 <= k < |xs[1..]| ensures xs[1..][k] != xs[0] {
            assert xs[1..][k] == xs[k + 1];
          }
        }
        assert xs[0] !in rest;
        var r := [xs[0]] + rest;
        forall i, j | 0 <= i < j < |r| ensures r[i] != r[j] {
          if i == 0 {
            assert r[j] == rest[j - 1];
            assert rest[j - 1] in rest;
          } else {
            assert r[i] == rest[i - 1] && r[j] == rest[j - 1];
          }
        }
      }
    }
  }

  /** Adding keeps a duplicate-free list duplicate-free. */
  lemma AddKeepsNoDups(xs: seq<string>, x: string)
    requires PyStr.NoDups(xs)
    ensures PyStr.NoDups(AddIfNew(xs, x))
  {
    if x != "" && x !in xs {
      var r := xs + [x];
      forall i, j | 0 <= i < j < |r| ensures r[i] != r[j] {
        if j == |xs| {
          assert r[i] == xs[i];
        }
      }
    }
  }

  /** Starting from a duplicate-free list, any sequence of adds and removes keeps it so. */
  lemma {:induction false} EditsKeepNoDups(xs: seq<string>, edits: seq<Edit>)
    requires PyStr.NoDups(xs)
    ensures PyStr.NoDups(ApplyEdits(xs, edits))
    decreases |edits|
  {
    if edits != [] {
      match edits[0]
      case Add(x) =>
        AddKeepsNoDups(xs, x);
        EditsKeepNoDups(AddIfNew(xs, x), edits[1..]);
      case Remove(x) =>
        FilterNoDups(xs, y => y != x);
        EditsKeepNoDups(RemoveAll(xs, x), edits[1..]);
    }
  }

  /** Removing what is absent changes nothing. */
  lemma RemoveAbsent(xs: seq<string>, x: string)
    requires x !in xs
    ensures RemoveAll(xs, x) == xs
  {
    FilterAll(xs, y => y != x);
  }

  /** Removing twice is removing once. */
  lemma RemoveIdempotent(xs: seq<string>, x: string)
    ensures RemoveAll(RemoveAll(xs, x), x) == RemoveAll(xs, x)
  {
    RemoveAbsent(RemoveAll(xs, x), x);
  }

  /** Removing an entry just added undoes the add. */
  lemma RemoveUndoesAdd(xs: seq<string>, x: string)
    requires x != "" && x !in xs
    ensures RemoveAll(AddIfNew(xs, x), x) == xs
  {
    FilterAppend(xs, [x], y => y != x);
    assert Filter([x], y => y != x) == [];
    RemoveAbsent(xs, x);
  }

  /** An entry just added is in the list, and adding it again changes nothing. */
  lemma AddThenPresent(xs: seq<string>, x: string)
    requires x != ""
    ensures x in AddIfNew(xs, x)
    ensures AddIfNew(AddIfNew(xs, x), x) == AddIfNew(xs, x)
  {
    if x !in xs {
      assert (xs + [x])[|xs|] == x;
    }
  }

  /** Filtering a concatenation filters each part. */
  lemma {:induction false} FilterAppend(a: seq<string>, b: seq<string>, p: string -> bool)
    ensures Filter(a + b, p) == Filter(a, p) + Filter(b, p)
  {
    if a != [] {
      FilterAppend(a[1..], b, p);
      assert (a + b)[1..] == a[1..] + b;
      assert (a + b)[0] == a[0];
    } else {
      assert a + b == b;
    }
  }

  /** Choosing a suggestion (or typing one in) takes exactly it out of the suggestions and
      keeps the order of the others. */
  lemma {:induction false} SuggestionsAfterAdd(fixed: seq<string>, chosen: seq<string>, x: string)
    requires x != "" && x !in chosen
    ensures Suggestions(fixed, AddIfNew(chosen, x)) == RemoveAll(Suggestions(fixed, chosen), x)
  {
    if fixed != [] {
      SuggestionsAfterAdd(fixed[1..], chosen, x);
      var f := fixed[0];
      var c2 := AddIfNew(chosen, x);
      assert c2 == chosen + [x];
      assert f in c2 <==> f in chosen || f == x;
      var rest := Suggestions(fixed[1..], chosen);
      var head := if f !in chosen then [f] else [];
      assert Suggestions(fixed, chosen) == head + rest;
      FilterAppend(head, rest, y => y != x);
      assert Suggestions(fixed, c2) == (if f !in c2 then [f] else []) + Suggestions(fixed[1..], c2);
      if f !in chosen && f != x {
        assert RemoveAll(head, x) == [f];
      } else {
        assert RemoveAll(head, x) == [];
      }
    }
  }
}
