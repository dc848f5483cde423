/**
 Rows in the order of an index, and keyset pages of them.  A row's place in an order is its `Key`:
 the sort column, then the id.  (A descending order is the ascending order of negated keys.)
 */
module Ordering {
  import opened Wrappers

  datatype Key = Key(major: int, id: int)

  predicate Before(a: Key, b: Key)
  {
    a.major < b.major || (a.major == b.major && a.id < b.id)
  }

  predicate IsLeast(k: Key, s: set<Key>)
  {
    k in s && forall x :: x in s ==> x == k || Before(k, x)
  }

  lemma {:induction false} LeastExists(s: set<Key>)
    requires s != {}
    ensures exists k :: IsLeast(k, s)
    decreases |s|
  {
    var k :| k in s;
    var rest := s - {k};
    assert forall x :: x in s ==> x == k || x in rest;
    if rest == {} {
      assert IsLeast(k, s);
    } else {
      LeastExists(rest);
      var least :| IsLeast(least, rest);
      assert IsLeast(if Before(least, k) then least else k, s);
    }
  }

  function Least(s: set<Key>): (k: Key)
    requires s != {}
    ensures IsLeast(k, s)
  {
    LeastExists(s);
    var k :| k in s && IsLeast(k, s);
    k
  }

  /** The rows of `s` in ascending order. */
  function Ascending(s: set<Key>): (keys: seq<Key>)
    ensures |keys| == |s|
  {
    if s == {} then [] else [Least(s)] + Ascending(s - {Least(s)})
  }

  predicate Increasing(keys: seq<Key>)
  {
    forall i, j :: 0 <= i < j < |keys| ==> Before(keys[i], keys[j])
  }

  lemma {:induction false} AscendingMeaning(s: set<Key>)
    ensures Increasing(Ascending(s))
    ensures forall k :: k in Ascending(s) <==> k in s
    decreases |s|
  {
    if s != {} {
      var least := Least(s);
      var rest := s - {least};
      AscendingMeaning(rest);
      var tail := Ascending(rest);
      assert Ascending(s) == [least] + tail;
      assert forall i :: 0 <= i < |tail| ==> tail[i] in tail && Before(least, tail[i]);
      assert forall k :: k in s <==> k == least || k in rest;
    }
  }

  function After(s: set<Key>, anchor: Option<Key>): set<Key>
  {
    set k | k in s && (anchor.Some? ==> Before(anchor.value, k))
  }

  /** `WHERE key > anchor ORDER BY key LIMIT take`. */
  function Take(s: set<Key>, anchor: Option<Key>, take: nat): seq<Key>
  {
    var rest := Ascending(After(s, anchor));
    if |rest| <= take then rest else rest[..take]
  }

  lemma AfterLeast(s: set<Key>, k: Key)
    requires s != {} && k in s && k != Least(s)
    ensures After(s, Some(k)) == After(s - {Least(s)}, Some(k))
  {
  }

  /** Dropping the first rows of an order leaves the rows after the last one dropped. */
  lemma {:induction false} DropIsAfter(s: set<Key>, n: nat)
    requires 0 < n <= |s|
    ensures Ascending(s)[n..] == Ascending(After(s, Some(Ascending(s)[n - 1])))
    decreases n
  {
    AscendingMeaning(s);
    var least := Least(s);
    var rest := s - {least};
    assert Ascending(s)[0] == least && Ascending(s)[1..] == Ascending(rest);
    if n == 1 {
      assert After(s, Some(least)) == rest;
    } else {
      DropIsAfter(rest, n - 1);
      var last := Ascending(s)[n - 1];
      assert last == Ascending(rest)[n - 2] && last in rest;
      AfterLeast(s, last);
      assert Ascending(s)[n..] == Ascending(rest)[n - 1..];
    }
  }

  lemma AfterAfter(s: set<Key>, a: Option<Key>, b: Key)
    requires a.Some? ==> Before(a.value, b)
    ensures After(After(s, a), Some(b)) == After(s, Some(b))
  {
  }
}
