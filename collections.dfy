/**
 * Query building blocks shared by the controllers: the order in which a collection's
 * `find()` returns its documents, `Array.prototype.filter`, and a sort on a numeric key
 * in descending order (`.sort({ createdAt: -1 })`).
 */
module Collections {
  import opened Common

  predicate Increasing(s: seq<Id>) {
    forall i, j :: 0 <= i < j < |s| ==> s[i] < s[j]
  }

  /** `m` is the least element of `ids`. */
  predicate IsLeast(m: Id, ids: set<Id>) {
    m in ids && forall y :: y in ids ==> m <= y
  }

  lemma {:induction false} MinimumExists(ids: set<Id>)
    requires ids != {}
    ensures exists m :: IsLeast(m, ids)
  {
    var x :| x in ids;
    if ids == {x} {
      assert IsLeast(x, ids);
    } else {
      MinimumExists(ids - {x});
      var m :| IsLeast(m, ids - {x});
      var least := if x < m then x else m;
      forall y | y in ids ensures least <= y {
        if y != x {
          assert y in ids - {x};
        }
      }
      assert IsLeast(least, ids);
    }
  }

  /**
   * The ids of a collection in the order a `find()` without a sort returns them. By convention the
   * model takes this to be ascending id order; new ids are only required to be unused, so this order
   * is not insertion order.
   */
  function StoreOrder(ids: set<Id>): (r: seq<Id>)
    ensures Increasing(r)
    ensures forall x :: x in r <==> x in ids
    decreases |ids|
  {
    if ids == {} then []
    else
      MinimumExists(ids);
      var m :| IsLeast(m, ids);
      [m] + StoreOrder(ids - {m})
  }

  /** The elements of `s` that satisfy `keep`, in their original order. */
  function Filter<T(==,!new)>(s: seq<T>, keep: T -> bool): (r: seq<T>)
    ensures |r| <= |s|
    ensures forall x :: x in r <==> x in s && keep(x)
  {
    if s == [] then []
    else (if keep(s[0]) then [s[0]] else []) + Filter(s[1..], keep)
  }

  /** Filtering distributes over concatenation: the kept elements stay in their relative order. */
  lemma {:induction false} FilterConcat<T(!new)>(a: seq<T>, b: seq<T>, keep: T -> bool)
    ensures Filter(a + b, keep) == Filter(a, keep) + Filter(b, keep)
  {
    if a == [] {
      assert a + b == b;
    } else {
      assert (a + b)[1..] == a[1..] + b;
      FilterConcat(a[1..], b, keep);
    }
  }

  lemma {:induction false} FilterKeepsAll<T(!new)>(s: seq<T>, keep: T -> bool)
    requires forall i :: 0 <= i < |s| ==> keep(s[i])
    ensures Filter(s, keep) == s
  {
    if s != [] {
      FilterKeepsAll(s[1..], keep);
    }
  }

  lemma {:induction false} FilterDropsAll<T(!new)>(s: seq<T>, keep: T -> bool)
    requires forall i :: 0 <= i < |s| ==> !keep(s[i])
    ensures Filter(s, keep) == []
  {
    if s != [] {
      FilterDropsAll(s[1..], keep);
    }
  }

  /** Filtering twice with the same test gives the result of filtering once. */
  lemma FilterIdempotent<T(!new)>(s: seq<T>, keep: T -> bool)
    ensures Filter(Filter(s, keep), keep) == Filter(s, keep)
  {
    var r := Filter(s, keep);
    forall i | 0 <= i < |r| ensures keep(r[i]) {
      assert r[i] in r;
    }
    FilterKeepsAll(r, keep);
  }

  /** A filtered increasing sequence of ids is still increasing, so it lists each kept id once. */
  lemma {:induction false} FilterIncreasing(s: seq<Id>, keep: Id -> bool)
    requires Increasing(s)
    ensures Increasing(Filter(s, keep))
  {
    if s != [] {
      FilterIncreasing(s[1..], keep);
      var rest := Filter(s[1..], keep);
      forall x | x in rest ensures s[0] < x {
        var k :| 0 <= k < |s[1..]| && s[1..][k] == x;
        assert s[k + 1] == x;
      }
      if keep(s[0]) {
        var r := Filter(s, keep);
        assert r == [s[0]] + rest;
        forall i, j | 0 <= i < j < |r| ensures r[i] < r[j] {
          assert r[j] == rest[j - 1] && rest[j - 1] in rest;
          if i > 0 {
            assert r[i] == rest[i - 1];
          }
        }
      }
    }
  }

  predicate SortedDesc<T>(s: seq<T>, key: T -> int) {
    forall i, j :: 0 <= i < j < |s| ==> key(s[i]) >= key(s[j])
  }

  /** Inserts `x` before the first element whose key is not greater than its own. */
  function InsertDesc<T(==,!new)>(x: T, s: seq<T>, key: T -> int): (r: seq<T>)
    ensures multiset(r) == multiset(s) + multiset{x}
  {
    if s == [] then [x]
    else if key(x) >= key(s[0]) then [x] + s
    else
      assert s == [s[0]] + s[1..];
      [s[0]] + InsertDesc(x, s[1..], key)
  }

  lemma {:induction false} InsertDescMembers<T(!new)>(x: T, s: seq<T>, key: T -> int)
    ensures forall y :: y in InsertDesc(x, s, key) ==> y == x || y in s
  {
    if s != [] && key(x) < key(s[0]) {
      InsertDescMembers(x, s[1..], key);
    }
  }

  /** Putting an element in front of a sorted sequence whose keys it bounds keeps it sorted. */
  lemma ConsSorted<T(!new)>(x: T, s: seq<T>, key: T -> int)
    requires SortedDesc(s, key)
    requires forall y :: y in s ==> key(x) >= key(y)
    ensures SortedDesc([x] + s, key)
  {
    var r := [x] + s;
    forall i, j | 0 <= i < j < |r| ensures key(r[i]) >= key(r[j]) {
      assert r[j] == s[j - 1] && s[j - 1] in s;
      if i > 0 {
        assert r[i] == s[i - 1];
      }
    }
  }

  lemma {:induction false} InsertDescSorted<T(!new)>(x: T, s: seq<T>, key: T -> int)
    requires SortedDesc(s, key)
    ensures SortedDesc(InsertDesc(x, s, key), key)
  {
    if s == [] {
    } else if key(x) >= key(s[0]) {
      forall y | y in s ensures key(x) >= key(y) {
        var k :| 0 <= k < |s| && s[k] == y;
      }
      ConsSorted(x, s, key);
    } else {
      var tail := s[1..];
      assert SortedDesc(tail, key);
      InsertDescSorted(x, tail, key);
      InsertDescMembers(x, tail, key);
      var rest := InsertDesc(x, tail, key);
      forall y | y in rest ensures key(s[0]) >= key(y) {
        if y != x {
          var k :| 0 <= k < |tail| && tail[k] == y;
          assert s[k + 1] == y;
        }
      }
      ConsSorted(s[0], rest, key);
    }
  }

  /** Insertion sort on `key`, largest key first; elements with equal keys keep their order. */
  function SortDesc<T(==,!new)>(s: seq<T>, key: T -> int): (r: seq<T>)
    ensures multiset(r) == multiset(s)
    ensures SortedDesc(r, key)
  {
    if s == [] then []
    else
      assert s == [s[0]] + s[1..];
      var rest := SortDesc(s[1..], key);
      InsertDescSorted(s[0], rest, key);
      InsertDesc(s[0], rest, key)
  }

  /** Sorting an increasing sequence of ids keeps each id exactly once. */
  lemma SortDescMembers(s: seq<Id>, key: Id -> int)
    requires Increasing(s)
    ensures |SortDesc(s, key)| == |s|
    ensures forall x :: x in SortDesc(s, key) <==> x in s
    ensures forall x :: x in s ==> multiset(SortDesc(s, key))[x] == 1
  {
    var r := SortDesc(s, key);
    assert |multiset(r)| == |multiset(s)|;
    forall x | x in s ensures multiset(s)[x] == 1 {
      DistinctCount(s, x);
    }
    forall x ensures x in r <==> x in s {
      assert x in r <==> x in multiset(r);
      assert x in s <==> x in multiset(s);
    }
  }

  lemma {:induction false} DistinctCount(s: seq<Id>, x: Id)
    requires Increasing(s) && x in s
    ensures multiset(s)[x] == 1
  {
    assert s == [s[0]] + s[1..];
    if s[0] == x {
      assert x !in s[1..];
    } else {
      DistinctCount(s[1..], x);
    }
  }

  /**
   * `find(filter).sort({ createdAt: -1 })`: the ids of the documents that pass the filter, newest
   * first; documents created at the same time stay in store order.
   */
  function NewestFirst<T(!new)>(docs: map<Id, T>, keep: T -> bool, createdAt: T -> int): (r: seq<Id>)
    ensures forall id :: id in r <==> id in docs && keep(docs[id])
    ensures forall id :: id in r ==> multiset(r)[id] == 1
    ensures forall i, j :: 0 <= i < j < |r| ==>
      r[i] in docs && r[j] in docs && createdAt(docs[r[i]]) >= createdAt(docs[r[j]])
  {
    var matching := Filter(StoreOrder(docs.Keys), (id: Id) => id in docs && keep(docs[id]));
    var key := (id: Id) => if id in docs then createdAt(docs[id]) else 0;
    FilterIncreasing(StoreOrder(docs.Keys), (id: Id) => id in docs && keep(docs[id]));
    SortDescMembers(matching, key);
    var r := SortDesc(matching, key);
    assert forall i :: 0 <= i < |r| ==> r[i] in r;
    r
  }
}
