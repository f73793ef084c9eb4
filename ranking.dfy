/** Python's `list.sort(key=..., reverse=True)` on real-valued keys, and the prefix slice
    `xs[:n]`, as the two rankers use them. Python's sort is stable, also in reverse: items
    with equal keys keep their order. A result that is a permutation of the input, ordered
    by non-increasing key and keeps the order of every group of equal keys is the one
    Python produces; `SortDesc` is proved to be all three. */
module Ranking {
  import Seqs

  /** The keys never increase along `s`. */
  predicate Descending<T>(s: seq<T>, key: T -> real) {
    forall i, j | 0 <= i < j < |s| :: key(s[i]) >= key(s[j])
  }

  /** Inserts `x` after every leading item whose key is at least `x`'s. */
  function InsertDesc<T>(x: T, key: T -> real, s: seq<T>): (r: seq<T>)
    ensures |r| == |s| + 1
  {
    if s == [] then [x]
    else if key(s[0]) >= key(x) then [s[0]] + InsertDesc(x, key, s[1..])
    else [x] + s
  }

  /** The items in descending key order, equal keys in input order. */
  function SortDesc<T>(xs: seq<T>, key: T -> real): (r: seq<T>)
    ensures |r| == |xs|
  {
    if xs == [] then []
    else InsertDesc(xs[|xs| - 1], key, SortDesc(xs[..|xs| - 1], key))
  }

  /** The insertion adds `x` and keeps every item of `s`. */
  lemma {:induction false} InsertDescPermutes<T>(x: T, key: T -> real, s: seq<T>)
    ensures multiset(InsertDesc(x, key, s)) == multiset(s) + multiset{x}
  {
    if s != [] && key(s[0]) >= key(x) {
      InsertDescPermutes(x, key, s[1..]);
      assert s == [s[0]] + s[1..];
    }
  }

  /** The sort is a permutation of its input. */
  lemma {:induction false} SortDescPermutes<T>(xs: seq<T>, key: T -> real)
    ensures multiset(SortDesc(xs, key)) == multiset(xs)
  {
    if xs != [] {
      var init := xs[..|xs| - 1];
      SortDescPermutes(init, key);
      InsertDescPermutes(xs[|xs| - 1], key, SortDesc(init, key));
      assert xs == init + [xs[|xs| - 1]];
    }
  }

  /** Every item of the insertion is `x` or an item of `s`. */
  lemma InsertDescItems<T>(x: T, key: T -> real, s: seq<T>, k: nat)
    requires k < |s| + 1
    ensures InsertDesc(x, key, s)[k] == x || InsertDesc(x, key, s)[k] in s
  {
    InsertDescPermutes(x, key, s);
    assert InsertDesc(x, key, s)[k] in multiset(s) + multiset{x};
  }

  /** Inserting into a descending sequence keeps it descending. */
  lemma {:induction false} InsertDescending<T>(x: T, key: T -> real, s: seq<T>)
    requires Descending(s, key)
    ensures Descending(InsertDesc(x, key, s), key)
  {
    if s != [] && key(s[0]) >= key(x) {
      var rest := InsertDesc(x, key, s[1..]);
      InsertDescending(x, key, s[1..]);
      var r := [s[0]] + rest;
      forall j | 0 < j < |r| ensures key(r[0]) >= key(r[j]) {
        InsertDescItems(x, key, s[1..], j - 1);
      }
    }
  }

  /** The sort's result is descending. */
  lemma {:induction false} SortDescDescending<T>(xs: seq<T>, key: T -> real)
    ensures Descending(SortDesc(xs, key), key)
  {
    if xs != [] {
      SortDescDescending(xs[..|xs| - 1], key);
      InsertDescending(xs[|xs| - 1], key, SortDesc(xs[..|xs| - 1], key));
    }
  }

  /** The test "has key `v`". */
  function HasKey<T>(key: T -> real, v: real): T -> bool {
    x => key(x) == v
  }

  /** Inserting `x` puts it after every item with its key, and moves no other item of that
      key. */
  lemma {:induction false} InsertDescGroups<T(!new)>(x: T, key: T -> real, s: seq<T>, v: real)
    requires Descending(s, key)
    ensures Seqs.Filter(InsertDesc(x, key, s), HasKey(key, v))
         == Seqs.Filter(s, HasKey(key, v)) + (if key(x) == v then [x] else [])
  {
    var p := HasKey(key, v);
    if s == [] {
      assert Seqs.Filter([x], p) == (if p(x) then [x] else []) + Seqs.Filter([], p);
    } else if key(s[0]) >= key(x) {
      InsertDescGroups(x, key, s[1..], v);
      var rest := InsertDesc(x, key, s[1..]);
      assert ([s[0]] + rest)[1..] == rest;
    } else {
      InsertFrontGroups(x, key, s, v);
    }
  }

  /** An item placed in front of a descending sequence whose keys are all below its own
      comes after every item of its key, since there are none. */
  lemma InsertFrontGroups<T(!new)>(x: T, key: T -> real, s: seq<T>, v: real)
    requires Descending(s, key) && s != [] && key(s[0]) < key(x)
    ensures Seqs.Filter([x] + s, HasKey(key, v)) == Seqs.Filter(s, HasKey(key, v)) + (if key(x) == v then [x] else [])
  {
    var p := HasKey(key, v);
    assert ([x] + s)[1..] == s;
    if key(x) == v {
      forall i | 0 <= i < |s| ensures !p(s[i]) {
        assert key(s[i]) <= key(s[0]);
      }
      Seqs.FilterEmpty(s, p);
    }
  }

  /** The sort keeps the order of every group of items with equal keys: it is stable. */
  lemma {:induction false} SortDescStable<T(!new)>(xs: seq<T>, key: T -> real, v: real)
    ensures Seqs.Filter(SortDesc(xs, key), HasKey(key, v)) == Seqs.Filter(xs, HasKey(key, v))
  {
    if xs != [] {
      var init, x := xs[..|xs| - 1], xs[|xs| - 1];
      assert SortDesc(xs, key) == InsertDesc(x, key, SortDesc(init, key));
      assert xs == init + [x];
      SortDescStable(init, key, v);
      SortDescDescending(init, key);
      StableStep(init, x, key, v, SortDesc(init, key));
    }
  }

  /** Inserting the next item into a descending, group-preserving arrangement of `init`
      gives one of `init + [x]`. */
  lemma StableStep<T(!new)>(init: seq<T>, x: T, key: T -> real, v: real, sorted: seq<T>)
    requires Descending(sorted, key)
    requires Seqs.Filter(sorted, HasKey(key, v)) == Seqs.Filter(init, HasKey(key, v))
    ensures Seqs.Filter(InsertDesc(x, key, sorted), HasKey(key, v)) == Seqs.Filter(init + [x], HasKey(key, v))
  {
    InsertDescGroups(x, key, sorted, v);
    Seqs.FilterSnoc(init, x, HasKey(key, v));
  }

  /** A descending sequence is left as it is when its items all have distinct keys. */
  lemma {:induction false} SortDescOfSorted<T>(xs: seq<T>, key: T -> real)
    requires forall i, j | 0 <= i < j < |xs| :: key(xs[i]) > key(xs[j])
    ensures SortDesc(xs, key) == xs
  {
    if xs != [] {
      var init := xs[..|xs| - 1];
      SortDescOfSorted(init, key);
      InsertAtEnd(xs[|xs| - 1], key, init);
      assert init + [xs[|xs| - 1]] == xs;
    }
  }

  /** An item whose key is below every key of `s` goes at the end. */
  lemma {:induction false} InsertAtEnd<T>(x: T, key: T -> real, s: seq<T>)
    requires forall i | 0 <= i < |s| :: key(s[i]) > key(x)
    ensures InsertDesc(x, key, s) == s + [x]
  {
    if s != [] {
      InsertAtEnd(x, key, s[1..]);
      assert [s[0]] + (s[1..] + [x]) == s + [x];
    }
  }

  /** `xs[:n]` for an integer `n`: a negative `n` drops that many items from the end. */
  function Prefix<T>(xs: seq<T>, n: int): (r: seq<T>)
    ensures n >= 0 ==> |r| == (if n < |xs| then n else |xs|)
    ensures n < 0 ==> |r| == (if |xs| + n > 0 then |xs| + n else 0)
    ensures forall i | 0 <= i < |r| :: r[i] == xs[i]
  {
    if n >= 0 then (if n < |xs| then xs[..n] else xs)
    else if |xs| + n > 0 then xs[..|xs| + n] else []
  }

  /** A sequence without repeats holds each value at most once. */
  lemma {:induction false} DistinctCount<T>(a: seq<T>, x: T)
    requires forall i, j | 0 <= i < j < |a| :: a[i] != a[j]
    ensures multiset(a)[x] <= 1
  {
    if a != [] {
      DistinctCount(a[1..], x);
      assert a == [a[0]] + a[1..];
      if a[0] == x {
        assert x !in a[1..];
      }
    }
  }

  /** A permutation of a sequence without repeats has none. */
  lemma PermutationDistinct<T>(a: seq<T>, b: seq<T>)
    requires multiset(a) == multiset(b)
    requires forall i, j | 0 <= i < j < |a| :: a[i] != a[j]
    ensures forall i, j | 0 <= i < j < |b| :: b[i] != b[j]
  {
    forall i, j | 0 <= i < j < |b| ensures b[i] != b[j] {
      var x := b[i];
      DistinctCount(a, x);
      assert b == b[..j] + b[j..];
      assert x in b[..j];
      assert multiset(b)[x] == multiset(b[..j])[x] + multiset(b[j..])[x];
    }
  }
}
