/** A MongoDB collection as the server's repositories use it through their document
    models. A document is a map from field names to values; the collection keeps its
    documents in insertion order. `find_one(query)` gives the first document holding every
    field of the query with the query's value, `find(query)` all of them in order,
    `update({"$set": kwargs})` overwrites exactly the named fields of one document, and
    `delete()` removes it. */
module Documents {
  import opened Wrappers
  import opened PyJson
  import Seqs

  type Doc = map<string, Json>

  /** An equality query: field name to the value it must hold. */
  type Query = map<string, Json>

  /** The document holds every field of the query with the query's value. */
  predicate Matches(d: Doc, q: Query) {
    forall k | k in q :: k in d && d[k] == q[k]
  }

  /** The position of the first document matching `q`. */
  function FirstMatch(docs: seq<Doc>, q: Query): (r: Option<nat>)
    ensures r.Some? ==> r.value < |docs| && Matches(docs[r.value], q)
    ensures r.Some? ==> forall j | 0 <= j < r.value :: !Matches(docs[j], q)
    ensures r.None? ==> forall j | 0 <= j < |docs| :: !Matches(docs[j], q)
  {
    if docs == [] then None
    else if Matches(docs[0], q) then Some(0)
    else
      match FirstMatch(docs[1..], q)
      case None => None
      case Some(i) => Some(i + 1)
  }

  /** `find_one(query)`: some matching document exactly when one exists. */
  function FindOne(docs: seq<Doc>, q: Query): (r: Option<Doc>)
    ensures r.Some? <==> exists j | 0 <= j < |docs| :: Matches(docs[j], q)
    ensures r.Some? ==> r.value in docs && Matches(r.value, q)
  {
    match FirstMatch(docs, q)
    case None => None
    case Some(i) => Some(docs[i])
  }

  /** The test "matches `q`". */
  function Matching(q: Query): Doc -> bool {
    d => Matches(d, q)
  }

  /** `find(query).to_list(None)`: exactly the matching documents, in their order. */
  function FindAll(docs: seq<Doc>, q: Query): (r: seq<Doc>)
    ensures forall d :: d in r <==> d in docs && Matches(d, q)
    ensures Seqs.Subsequence(r, docs)
  {
    Seqs.FilterIsSubsequence(docs, Matching(q));
    Seqs.Filter(docs, Matching(q))
  }

  /** After an insert, `find` lists what it listed before, then the new document when it
      matches. */
  lemma InsertedIsListed(docs: seq<Doc>, q: Query, d: Doc)
    ensures FindAll(docs + [d], q) == FindAll(docs, q) + (if Matches(d, q) then [d] else [])
  {
    Seqs.FilterSnoc(docs, d, Matching(q));
  }

  /** A query on one field. */
  function By(key: string, v: Json): (q: Query)
    ensures forall d: Doc :: Matches(d, q) <==> key in d && d[key] == v
  {
    map[key := v]
  }

  /** The integer a document holds in its id field; documents made by the repositories
      always hold one, any other value reads as 0. */
  function IdOf(d: Doc, key: string): int {
    if key in d && d[key].JInt? then d[key].i else 0
  }

  /** The largest id of a non-empty collection. */
  function MaxId(docs: seq<Doc>, key: string): (m: int)
    requires docs != []
    ensures forall j | 0 <= j < |docs| :: IdOf(docs[j], key) <= m
    ensures exists j | 0 <= j < |docs| :: IdOf(docs[j], key) == m
  {
    if |docs| == 1 then IdOf(docs[0], key)
    else
      var m := MaxId(docs[1..], key);
      assert forall j | 1 <= j < |docs| :: docs[1..][j - 1] == docs[j];
      if IdOf(docs[0], key) >= m then IdOf(docs[0], key) else m
  }

  /** `find().sort([(key, -1)]).limit(1)` and one more than the id found, or 1 for an empty
      collection: above every id in use, and one above the largest. */
  function NextId(docs: seq<Doc>, key: string): (id: int)
    ensures forall j | 0 <= j < |docs| :: IdOf(docs[j], key) < id
    ensures docs == [] ==> id == 1
    ensures docs != [] ==> exists j | 0 <= j < |docs| :: id == IdOf(docs[j], key) + 1
  {
    if docs == [] then 1 else MaxId(docs, key) + 1
  }

  /** No document holds the next id. */
  lemma NextIdIsFresh(docs: seq<Doc>, key: string)
    ensures forall j | 0 <= j < |docs| :: !Matches(docs[j], By(key, JInt(NextId(docs, key))))
  {
    var id := NextId(docs, key);
    forall j | 0 <= j < |docs| ensures !Matches(docs[j], By(key, JInt(id))) {
      assert IdOf(docs[j], key) < id;
    }
  }

  /** No two documents hold the same value in field `key`. */
  predicate Unique(docs: seq<Doc>, key: string) {
    forall i, j | 0 <= i < j < |docs| && key in docs[i] && key in docs[j] :: docs[i][key] != docs[j][key]
  }

  /** When the ids are unique, a document found by id is the only one with that id. */
  lemma {:induction false} UniqueFindsOnly(docs: seq<Doc>, key: string, v: Json, j: nat)
    requires Unique(docs, key) && j < |docs| && Matches(docs[j], By(key, v))
    ensures FindOne(docs, By(key, v)) == Some(docs[j])
  {
    var i := FirstMatch(docs, By(key, v)).value;
    assert !(i < j) && !(j < i);
  }

  /** Appending a document whose key value no document holds keeps the key unique. */
  lemma InsertFreshKeepsUnique(docs: seq<Doc>, key: string, d: Doc)
    requires Unique(docs, key) && key in d
    requires forall j | 0 <= j < |docs| :: !Matches(docs[j], By(key, d[key]))
    ensures Unique(docs + [d], key)
  {
    var r := docs + [d];
    forall i, j | 0 <= i < j < |r| && key in r[i] && key in r[j] ensures r[i][key] != r[j][key] {
      if j == |docs| {
        assert !Matches(docs[i], By(key, d[key]));
      }
    }
  }

  /** A document appended with the next id is the one found by that id, and unique ids
      stay unique. */
  lemma InsertWithNextId(docs: seq<Doc>, key: string, d: Doc)
    requires key in d && d[key] == JInt(NextId(docs, key))
    ensures FindOne(docs + [d], By(key, d[key])) == Some(d)
    ensures Unique(docs, key) ==> Unique(docs + [d], key)
  {
    NextIdIsFresh(docs, key);
    InsertedIsFound(docs, By(key, d[key]), d);
    if Unique(docs, key) {
      InsertFreshKeepsUnique(docs, key, d);
    }
  }

  /** An appended document is found by a query it matches once nothing before it does. */
  lemma InsertedIsFound(docs: seq<Doc>, q: Query, d: Doc)
    requires Matches(d, q)
    requires forall j | 0 <= j < |docs| :: !Matches(docs[j], q)
    ensures FindOne(docs + [d], q) == Some(d)
  {
    var r := docs + [d];
    assert Matches(r[|docs|], q);
    var i := FirstMatch(r, q).value;
    assert forall j | 0 <= j < |docs| :: r[j] == docs[j];
  }

  /** `update({"$set": kwargs})` on the first match: the named fields take the given values,
      every other field and every other document is left as it was. */
  function SetFirst(docs: seq<Doc>, q: Query, kwargs: map<string, Json>): (r: seq<Doc>)
    ensures |r| == |docs|
    ensures FirstMatch(docs, q).None? ==> r == docs
    ensures FirstMatch(docs, q).Some? ==> var i := FirstMatch(docs, q).value;
      (forall j | 0 <= j < |docs| && j != i :: r[j] == docs[j])
      && r[i].Keys == docs[i].Keys + kwargs.Keys
      && (forall k | k in kwargs :: r[i][k] == kwargs[k])
      && (forall k | k in docs[i] && k !in kwargs :: r[i][k] == docs[i][k])
  {
    match FirstMatch(docs, q)
    case None => docs
    case Some(i) => docs[i := docs[i] + kwargs]
  }

  /** `delete()` on the first match: that document goes, the others keep their order. */
  function RemoveFirst(docs: seq<Doc>, q: Query): (r: seq<Doc>)
    ensures FirstMatch(docs, q).None? ==> r == docs
    ensures FirstMatch(docs, q).Some? ==> var i := FirstMatch(docs, q).value;
      |r| == |docs| - 1 && multiset(r) + multiset{docs[i]} == multiset(docs) && Seqs.Subsequence(r, docs)
  {
    match FirstMatch(docs, q)
    case None => docs
    case Some(i) =>
      Without(docs, i);
      docs[..i] + docs[i + 1..]
  }

  /** The sequence with item `i` left out. */
  lemma Without<T>(s: seq<T>, i: nat)
    requires i < |s|
    ensures |s[..i] + s[i + 1..]| == |s| - 1
    ensures multiset(s[..i] + s[i + 1..]) + multiset{s[i]} == multiset(s)
    ensures Seqs.Subsequence(s[..i] + s[i + 1..], s)
  {
    assert s == s[..i] + [s[i]] + s[i + 1..];
    SubsequenceWithout(s, i);
  }

  /** Leaving one item out gives a subsequence. */
  lemma {:induction false} SubsequenceWithout<T>(s: seq<T>, i: nat)
    requires i < |s|
    ensures Seqs.Subsequence(s[..i] + s[i + 1..], s)
  {
    if i == 0 {
      assert s[..0] + s[1..] == s[1..];
      SubsequenceDrop(s);
    } else {
      SubsequenceWithout(s[1..], i - 1);
      assert s[1..][..i - 1] + s[1..][i..] == (s[..i] + s[i + 1..])[1..];
      assert (s[..i] + s[i + 1..])[0] == s[0];
    }
  }

  /** Dropping the first item gives a subsequence. */
  lemma {:induction false} SubsequenceDrop<T>(s: seq<T>)
    requires s != []
    ensures Seqs.Subsequence(s[1..], s)
  {
    SubsequenceRefl(s[1..]);
    assert Seqs.Subsequence(s[1..], s[1..]);
  }

  /** Every sequence is a subsequence of itself. */
  lemma {:induction false} SubsequenceRefl<T>(s: seq<T>)
    ensures Seqs.Subsequence(s, s)
  {
    if s != [] {
      SubsequenceRefl(s[1..]);
    }
  }

  /** When at most one document holds a key value, deleting by that value leaves none. */
  lemma RemoveUniqueLeavesNone(docs: seq<Doc>, key: string, v: Json)
    requires Unique(docs, key)
    ensures FindOne(RemoveFirst(docs, By(key, v)), By(key, v)).None?
  {
    var q := By(key, v);
    var r := RemoveFirst(docs, q);
    match FirstMatch(docs, q)
    case None =>
    case Some(i) =>
      assert r == docs[..i] + docs[i + 1..];
      forall j | 0 <= j < |r| ensures !Matches(r[j], q) {
        if j >= i {
          assert r[j] == docs[j + 1];
        }
      }
  }

  /** Deleting keeps a unique key unique. */
  lemma RemoveKeepsUnique(docs: seq<Doc>, q: Query, key: string)
    requires Unique(docs, key)
    ensures Unique(RemoveFirst(docs, q), key)
  {
    match FirstMatch(docs, q)
    case None =>
    case Some(i) =>
      var r := docs[..i] + docs[i + 1..];
      forall a, b | 0 <= a < b < |r| && key in r[a] && key in r[b] ensures r[a][key] != r[b][key] {
        var a' := if a < i then a else a + 1;
        var b' := if b < i then b else b + 1;
        assert r[a] == docs[a'] && r[b] == docs[b'];
      }
  }

  /** `$set` of fields other than `key` keeps a unique key unique. */
  lemma SetKeepsUnique(docs: seq<Doc>, q: Query, kwargs: map<string, Json>, key: string)
    requires Unique(docs, key) && key !in kwargs
    ensures Unique(SetFirst(docs, q, kwargs), key)
  {
    var r := SetFirst(docs, q, kwargs);
    forall a, b | 0 <= a < b < |r| && key in r[a] && key in r[b] ensures r[a][key] != r[b][key] {
      assert key in docs[a] && key in docs[b] && r[a][key] == docs[a][key] && r[b][key] == docs[b][key];
    }
  }

  /** When `$set` leaves the query's fields alone, re-reading by the query finds the updated
      document. */
  lemma SetThenFind(docs: seq<Doc>, q: Query, kwargs: map<string, Json>)
    requires FirstMatch(docs, q).Some?
    requires forall k | k in q :: k !in kwargs
    ensures FindOne(SetFirst(docs, q, kwargs), q) == Some(docs[FirstMatch(docs, q).value] + kwargs)
  {
    var i := FirstMatch(docs, q).value;
    var r := SetFirst(docs, q, kwargs);
    assert r == docs[i := docs[i] + kwargs];
    assert Matches(r[i], q);
    var k := FirstMatch(r, q).value;
    assert !(k < i) && !(i < k);
  }

  /** An `Optional[str]` field value. */
  function OptStr(o: Option<string>): Json {
    if o.Some? then JStr(o.value) else JNull
  }

  /** An `Optional[float]` field value. */
  function OptReal(o: Option<real>): Json {
    if o.Some? then JFloat(o.value) else JNull
  }

  /** A `List[str]` field value. */
  function Strs(xs: seq<string>): Json {
    JList(JStrs(xs))
  }

  /** One collection of the database. */
  class Collection {
    var docs: seq<Doc>

    constructor ()
      ensures docs == []
    {
      docs := [];
    }

    /** `document.insert()`. */
    method Insert(d: Doc)
      modifies this
      ensures docs == old(docs) + [d]
    {
      docs := docs + [d];
    }

    /** `find_one(q)`, `update({"$set": kwargs})` on it when found, then `find_one(q)`
        again; None when nothing matched. */
    method Update(q: Query, kwargs: map<string, Json>) returns (r: Option<Doc>)
      modifies this
      ensures docs == SetFirst(old(docs), q, kwargs)
      ensures r == if FirstMatch(old(docs), q).Some? then FindOne(docs, q) else None
    {
      var found := FindOne(docs, q);
      if found.None? {
        return None;
      }
      docs := SetFirst(docs, q, kwargs);
      r := FindOne(docs, q);
    }

    /** `find_one(q)`, then `delete()` on it when found; whether one was found. */
    method Delete(q: Query) returns (deleted: bool)
      modifies this
      ensures deleted <==> FirstMatch(old(docs), q).Some?
      ensures docs == RemoveFirst(old(docs), q)
    {
      deleted := FindOne(docs, q).Some?;
      docs := RemoveFirst(docs, q);
    }
  }
}
