/**
 * Queries over a document collection kept in natural (insertion) order:
 * `find(filter)` keeps the matching documents in order, `deleteMany(filter)`
 * keeps the others, and `findOne(filter)` returns the first match.
 */
module Query {
  import opened Wrappers

  /** The documents that match, in their original order. */
  function Select<T(==,!new)>(docs: seq<T>, matches: T -> bool): (r: seq<T>)
    ensures |r| <= |docs|
    ensures forall d :: d in r <==> d in docs && matches(d)
    decreases |docs|
  {
    if docs == [] then []
    else (if matches(docs[0]) then [docs[0]] else []) + Select(docs[1..], matches)
  }

  /** Two filters applied one after the other select what their conjunction selects. */
  lemma {:induction false} SelectSelect<T(!new)>(docs: seq<T>, p: T -> bool, q: T -> bool, both: T -> bool)
    requires forall d :: both(d) == (p(d) && q(d))
    ensures Select(Select(docs, p), q) == Select(docs, both)
    decreases |docs|
  {
    if docs != [] {
      SelectSelect(docs[1..], p, q, both);
      var rest := Select(docs[1..], p);
      if p(docs[0]) {
        var s := [docs[0]] + rest;
        assert Select(docs, p) == s;
        assert s[0] == docs[0] && s[1..] == rest;
      } else {
        assert Select(docs, p) == rest;
      }
    }
  }

  /** Applying the same filter again selects nothing new and drops nothing. */
  lemma SelectIdempotent<T(!new)>(docs: seq<T>, p: T -> bool)
    ensures Select(Select(docs, p), p) == Select(docs, p)
  {
    SelectSelect(docs, p, p, p);
  }

  /** A filter that every document passes keeps the collection as it is. */
  lemma {:induction false} SelectAll<T(!new)>(docs: seq<T>, p: T -> bool)
    requires forall d :: d in docs ==> p(d)
    ensures Select(docs, p) == docs
    decreases |docs|
  {
    if docs != [] {
      SelectAll(docs[1..], p);
      assert [docs[0]] + docs[1..] == docs;
    }
  }

  /** No two documents share a key. */
  ghost predicate DistinctKeys<T, K>(docs: seq<T>, key: T -> K)
  {
    forall i, j :: 0 <= i < j < |docs| ==> key(docs[i]) != key(docs[j])
  }

  /** The documents after the first keep distinct keys, none equal to the first's. */
  lemma DistinctKeysTail<T, K>(docs: seq<T>, key: T -> K)
    requires DistinctKeys(docs, key) && docs != []
    ensures DistinctKeys(docs[1..], key)
    ensures forall d :: d in docs[1..] ==> key(d) != key(docs[0])
  {
    var tail := docs[1..];
    forall i, j | 0 <= i < j < |tail| ensures key(tail[i]) != key(tail[j]) {
      assert tail[i] == docs[i + 1] && tail[j] == docs[j + 1];
    }
    forall d | d in tail ensures key(d) != key(docs[0]) {
      var k :| 0 <= k < |tail| && tail[k] == d;
      assert docs[k + 1] == d;
    }
  }

  /** A document whose key no other document has can be put in front. */
  lemma DistinctKeysCons<T, K>(d: T, rest: seq<T>, key: T -> K)
    requires DistinctKeys(rest, key)
    requires forall e :: e in rest ==> key(e) != key(d)
    ensures DistinctKeys([d] + rest, key)
  {
    var s := [d] + rest;
    forall i, j | 0 <= i < j < |s| ensures key(s[i]) != key(s[j]) {
      assert s[j] == rest[j - 1];
      if i > 0 {
        assert s[i] == rest[i - 1];
      }
    }
  }

  /** Keeping some documents and dropping others cannot make two keys collide. */
  lemma {:induction false} SelectKeepsDistinctKeys<T(!new), K>(docs: seq<T>, matches: T -> bool, key: T -> K)
    requires DistinctKeys(docs, key)
    ensures DistinctKeys(Select(docs, matches), key)
    decreases |docs|
  {
    if docs != [] {
      DistinctKeysTail(docs, key);
      SelectKeepsDistinctKeys(docs[1..], matches, key);
      var rest := Select(docs[1..], matches);
      if matches(docs[0]) {
        DistinctKeysCons(docs[0], rest, key);
      }
    }
  }

  /** The position of the first matching document, or |docs| when none matches. */
  function FirstIndex<T>(docs: seq<T>, matches: T -> bool): (i: nat)
    ensures i <= |docs|
    ensures i < |docs| ==> matches(docs[i])
    ensures forall j :: 0 <= j < i ==> !matches(docs[j])
    decreases |docs|
  {
    if docs == [] then 0
    else if matches(docs[0]) then 0
    else 1 + FirstIndex(docs[1..], matches)
  }

  /** `findOne(filter)`: the first matching document in natural order, if any. */
  function FindOne<T(==,!new)>(docs: seq<T>, matches: T -> bool): (r: Option<T>)
    ensures r.None? <==> forall d :: d in docs ==> !matches(d)
    ensures r.Some? ==> r.value in docs && matches(r.value)
  {
    var i := FirstIndex(docs, matches);
    if i < |docs| then Some(docs[i]) else None
  }

  /** When at most one document can match, `findOne` returns that one. */
  lemma FindOneOfUnique<T(!new)>(docs: seq<T>, matches: T -> bool, d: T)
    requires d in docs && matches(d)
    requires forall d' :: d' in docs && matches(d') ==> d' == d
    ensures FindOne(docs, matches) == Some(d)
  {
  }
}
