/**
 * Python's sorted with a key function, which the dashboard uses on the contribution
 * periods and on the per-sequence results: a stable sort by a real-valued key.
 * A descending sort (`reverse=True`, also stable) is the ascending sort by the
 * negated key.
 */
module Sorting {

  predicate SortedBy<T>(s: seq<T>, key: T -> real)
  {
    forall i, j :: 0 <= i < j < |s| ==> key(s[i]) <= key(s[j])
  }

  /** Every key of `s` is at least `lo`. */
  predicate AtLeast<T>(s: seq<T>, key: T -> real, lo: real)
  {
    forall i :: 0 <= i < |s| ==> lo <= key(s[i])
  }

  /** `x` placed after every leading element whose key is at most its own. */
  function Insert<T>(x: T, s: seq<T>, key: T -> real): (r: seq<T>)
    ensures |r| == |s| + 1
  {
    if s == [] then [x]
    else if key(x) < key(s[0]) then [x] + s
    else [s[0]] + Insert(x, s[1..], key)
  }

  /** Insertion sort, taking the elements in input order. */
  function SortBy<T>(s: seq<T>, key: T -> real): (r: seq<T>)
    ensures |r| == |s|
  {
    if s == [] then [] else Insert(s[|s| - 1], SortBy(s[..|s| - 1], key), key)
  }

  lemma {:induction false} InsertAtLeast<T>(x: T, s: seq<T>, key: T -> real, lo: real)
    requires AtLeast(s, key, lo) && lo <= key(x)
    ensures AtLeast(Insert(x, s, key), key, lo)
  {
    if s != [] && key(s[0]) <= key(x) {
      var tail := s[1..];
      assert AtLeast(tail, key, lo) by {
        forall i | 0 <= i < |tail|
          ensures lo <= key(tail[i])
        {
          assert tail[i] == s[i + 1];
        }
      }
      InsertAtLeast(x, tail, key, lo);
      var rest := Insert(x, tail, key);
      forall i | 0 <= i < |rest| + 1
        ensures lo <= key(([s[0]] + rest)[i])
      {
        if i > 0 {
          assert ([s[0]] + rest)[i] == rest[i - 1];
        }
      }
    }
  }

  lemma ConsSorted<T>(a: T, s: seq<T>, key: T -> real)
    requires SortedBy(s, key) && AtLeast(s, key, key(a))
    ensures SortedBy([a] + s, key)
  {
    forall i, j | 0 <= i < j < |s| + 1
      ensures key(([a] + s)[i]) <= key(([a] + s)[j])
    {
      assert ([a] + s)[j] == s[j - 1];
      if i > 0 {
        assert ([a] + s)[i] == s[i - 1];
      }
    }
  }

  lemma TailSorted<T>(s: seq<T>, key: T -> real)
    requires SortedBy(s, key) && s != []
    ensures SortedBy(s[1..], key) && AtLeast(s[1..], key, key(s[0]))
  {
    var tail := s[1..];
    forall i, j | 0 <= i < j < |tail|
      ensures key(tail[i]) <= key(tail[j])
    {
      assert tail[i] == s[i + 1] && tail[j] == s[j + 1];
    }
    forall i | 0 <= i < |tail|
      ensures key(s[0]) <= key(tail[i])
    {
      assert tail[i] == s[i + 1];
    }
  }

  /** Inserting into a sorted sequence keeps it sorted. */
  lemma {:induction false} InsertSorted<T>(x: T, s: seq<T>, key: T -> real)
    requires SortedBy(s, key)
    ensures SortedBy(Insert(x, s, key), key)
  {
    if s == [] {
    } else if key(x) < key(s[0]) {
      TailSorted(s, key);
      forall i | 0 <= i < |s|
        ensures key(x) <= key(s[i])
      {
        if i > 0 {
          assert s[i] == s[1..][i - 1];
        }
      }
      ConsSorted(x, s, key);
    } else {
      TailSorted(s, key);
      InsertSorted(x, s[1..], key);
      InsertAtLeast(x, s[1..], key, key(s[0]));
      ConsSorted(s[0], Insert(x, s[1..], key), key);
    }
  }

  /** Insertion adds exactly `x`. */
  lemma {:induction false} InsertPermutes<T>(x: T, s: seq<T>, key: T -> real)
    ensures multiset(Insert(x, s, key)) == multiset(s) + multiset{x}
  {
    if s != [] && key(s[0]) <= key(x) {
      InsertPermutes(x, s[1..], key);
      assert s == [s[0]] + s[1..];
    }
  }

  /** The result is sorted by the key. */
  lemma {:induction false} SortSorted<T>(s: seq<T>, key: T -> real)
    ensures SortedBy(SortBy(s, key), key)
  {
    if s != [] {
      SortSorted(s[..|s| - 1], key);
      InsertSorted(s[|s| - 1], SortBy(s[..|s| - 1], key), key);
    }
  }

  /** The result is a permutation of the input. */
  lemma {:induction false} SortPermutes<T>(s: seq<T>, key: T -> real)
    ensures multiset(SortBy(s, key)) == multiset(s)
  {
    if s != [] {
      SortPermutes(s[..|s| - 1], key);
      InsertPermutes(s[|s| - 1], SortBy(s[..|s| - 1], key), key);
      assert s == s[..|s| - 1] + [s[|s| - 1]];
    }
  }

  /** The elements of `s` whose key is `v`, in their order in `s`. */
  function WithKey<T>(s: seq<T>, key: T -> real, v: real): seq<T>
  {
    if s == [] then []
    else (if key(s[0]) == v then [s[0]] else []) + WithKey(s[1..], key, v)
  }

  lemma {:induction false} WithKeyAppend<T>(a: seq<T>, b: seq<T>, key: T -> real, v: real)
    ensures WithKey(a + b, key, v) == WithKey(a, key, v) + WithKey(b, key, v)
  {
    if a == [] {
      assert a + b == b;
    } else {
      var ab := a + b;
      assert ab[0] == a[0] && ab[1..] == a[1..] + b;
      WithKeyAppend(a[1..], b, key, v);
      var h := if key(a[0]) == v then [a[0]] else [];
      assert WithKey(ab, key, v) == h + WithKey(a[1..] + b, key, v);
      assert WithKey(a, key, v) == h + WithKey(a[1..], key, v);
    }
  }

  lemma {:induction false} WithKeyNone<T>(s: seq<T>, key: T -> real, v: real)
    requires forall i :: 0 <= i < |s| ==> key(s[i]) != v
    ensures WithKey(s, key, v) == []
  {
    if s != [] {
      var tail := s[1..];
      forall i | 0 <= i < |tail|
        ensures key(tail[i]) != v
      {
        assert tail[i] == s[i + 1];
      }
      WithKeyNone(tail, key, v);
    }
  }

  lemma WithKeySingle<T>(x: T, key: T -> real, v: real)
    ensures WithKey([x], key, v) == if key(x) == v then [x] else []
  {
    assert WithKey([x], key, v) == (if key(x) == v then [x] else []) + WithKey([x][1..], key, v);
  }

  /** `x` goes in front when its key is below every key of `s`. */
  lemma FrontWithKey<T>(x: T, s: seq<T>, key: T -> real, v: real)
    requires SortedBy(s, key) && s != [] && key(x) < key(s[0])
    ensures WithKey(Insert(x, s, key), key, v) == WithKey(s, key, v) + (if key(x) == v then [x] else [])
  {
    if key(x) == v {
      forall i | 0 <= i < |s|
        ensures key(s[i]) != v
      {
        assert key(s[0]) <= key(s[i]);
      }
      WithKeyNone(s, key, v);
    }
    assert ([x] + s)[1..] == s;
  }

  /** `x` goes past the head `s[0]`. */
  lemma SkipWithKey<T>(x: T, s: seq<T>, key: T -> real, v: real)
    requires s != [] && key(s[0]) <= key(x)
    requires WithKey(Insert(x, s[1..], key), key, v) == WithKey(s[1..], key, v) + (if key(x) == v then [x] else [])
    ensures WithKey(Insert(x, s, key), key, v) == WithKey(s, key, v) + (if key(x) == v then [x] else [])
  {
    var rest := Insert(x, s[1..], key);
    var ins := Insert(x, s, key);
    assert ins == [s[0]] + rest;
    assert ins[0] == s[0] && ins[1..] == rest;
    var h := if key(s[0]) == v then [s[0]] else [];
    assert WithKey(ins, key, v) == h + WithKey(rest, key, v);
    assert WithKey(s, key, v) == h + WithKey(s[1..], key, v);
  }

  /** Inserting `x` appends it to the elements sharing its key. */
  lemma {:induction false} InsertWithKey<T>(x: T, s: seq<T>, key: T -> real, v: real)
    requires SortedBy(s, key)
    ensures WithKey(Insert(x, s, key), key, v)
            == WithKey(s, key, v) + (if key(x) == v then [x] else [])
  {
    if s == [] {
      WithKeySingle(x, key, v);
    } else if key(x) < key(s[0]) {
      FrontWithKey(x, s, key, v);
    } else {
      TailSorted(s, key);
      InsertWithKey(x, s[1..], key, v);
      SkipWithKey(x, s, key, v);
    }
  }

  /** Stability: the elements sharing a key keep their input order. */
  lemma {:induction false} SortStable<T>(s: seq<T>, key: T -> real, v: real)
    ensures WithKey(SortBy(s, key), key, v) == WithKey(s, key, v)
  {
    if s != [] {
      var init, last := s[..|s| - 1], s[|s| - 1];
      SortStable(init, key, v);
      SortSorted(init, key);
      InsertWithKey(last, SortBy(init, key), key, v);
      assert s == init + [last];
      WithKeyAppend(init, [last], key, v);
      WithKeySingle(last, key, v);
    }
  }
}
