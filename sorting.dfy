/** Python's `sorted(xs, key=f)` (a stable sort) and `min(xs, key=f)` (the
    first element with the least key), for real-valued keys. */
module Sorting {

  /** Every key is at most every later key. */
  ghost predicate SortedBy<T>(s: seq<T>, key: T -> real) {
    forall i, j :: 0 <= i < j < |s| ==> key(s[i]) <= key(s[j])
  }

  /** The elements of `s` whose key is `d`, in their order in `s`. A sort is
      stable exactly when it keeps every such subsequence as it was. */
  function KeyFilter<T>(s: seq<T>, key: T -> real, d: real): (r: seq<T>)
    ensures |r| <= |s|
  {
    if s == [] then []
    else (if key(s[0]) == d then [s[0]] else []) + KeyFilter(s[1..], key, d)
  }

  /** Puts `x` before the first element of `s` whose key is not smaller. */
  function Insert<T>(x: T, s: seq<T>, key: T -> real): seq<T>
  {
    if s == [] || key(x) <= key(s[0]) then [x] + s
    else [s[0]] + Insert(x, s[1..], key)
  }

  /** Stable insertion sort by `key`. */
  function SortBy<T>(s: seq<T>, key: T -> real): seq<T>
  {
    if s == [] then [] else Insert(s[0], SortBy(s[1..], key), key)
  }

  /** Index of the first element with the least key. */
  function ArgMin<T>(s: seq<T>, key: T -> real): (k: nat)
    requires |s| > 0
    ensures k < |s|
    ensures forall j :: 0 <= j < |s| ==> key(s[k]) <= key(s[j])
    ensures forall j :: 0 <= j < k ==> key(s[k]) < key(s[j])
  {
    if |s| == 1 then 0
    else
      var m := ArgMin(s[1..], key);
      if key(s[0]) <= key(s[1 + m]) then 0 else 1 + m
  }

  lemma {:induction false} InsertPermutation<T>(x: T, s: seq<T>, key: T -> real)
    ensures multiset(Insert(x, s, key)) == multiset(s) + multiset{x}
    ensures |Insert(x, s, key)| == |s| + 1
  {
    if s == [] || key(x) <= key(s[0]) {
    } else {
      InsertPermutation(x, s[1..], key);
      assert s == [s[0]] + s[1..];
    }
  }

  /** Inserting into a sequence whose keys are all at least `b` an element
      whose key is at least `b` keeps every key at least `b`. */
  lemma {:induction false} InsertLowerBound<T>(x: T, s: seq<T>, key: T -> real, b: real)
    requires key(x) >= b && forall i :: 0 <= i < |s| ==> key(s[i]) >= b
    ensures forall i :: 0 <= i < |Insert(x, s, key)| ==> key(Insert(x, s, key)[i]) >= b
  {
    if s != [] && key(x) > key(s[0]) {
      InsertLowerBound(x, s[1..], key, b);
    }
  }

  lemma {:induction false} InsertSorted<T>(x: T, s: seq<T>, key: T -> real)
    requires SortedBy(s, key)
    ensures SortedBy(Insert(x, s, key), key)
  {
    if s == [] || key(x) <= key(s[0]) {
    } else {
      var rest := Insert(x, s[1..], key);
      InsertSorted(x, s[1..], key);
      InsertLowerBound(x, s[1..], key, key(s[0]));
      var r := [s[0]] + rest;
      assert Insert(x, s, key) == r;
      forall i, j | 0 <= i < j < |r| ensures key(r[i]) <= key(r[j]) {
        if i == 0 {
          assert r[j] == rest[j - 1];
        } else {
          assert r[i] == rest[i - 1] && r[j] == rest[j - 1];
        }
      }
    }
  }

  lemma {:induction false} InsertKeyFilter<T>(x: T, s: seq<T>, key: T -> real, d: real)
    ensures KeyFilter(Insert(x, s, key), key, d) == (if key(x) == d then [x] else []) + KeyFilter(s, key, d)
  {
    if s == [] || key(x) <= key(s[0]) {
      assert ([x] + s)[1..] == s;
    } else {
      var rest := Insert(x, s[1..], key);
      InsertKeyFilter(x, s[1..], key, d);
      assert ([s[0]] + rest)[0] == s[0] && ([s[0]] + rest)[1..] == rest;
      if key(x) == d {
        assert key(s[0]) != d;
      }
    }
  }

  /** `SortBy` sorts, permutes, and keeps elements of equal key in their
      original order. */
  lemma {:induction false} SortByIsStableSort<T>(s: seq<T>, key: T -> real)
    ensures SortedBy(SortBy(s, key), key)
    ensures multiset(SortBy(s, key)) == multiset(s)
    ensures |SortBy(s, key)| == |s|
    ensures forall d :: KeyFilter(SortBy(s, key), key, d) == KeyFilter(s, key, d)
  {
    if s != [] {
      SortByIsStableSort(s[1..], key);
      InsertSorted(s[0], SortBy(s[1..], key), key);
      InsertPermutation(s[0], SortBy(s[1..], key), key);
      assert s == [s[0]] + s[1..];
      forall d ensures KeyFilter(SortBy(s, key), key, d) == KeyFilter(s, key, d) {
        InsertKeyFilter(s[0], SortBy(s[1..], key), key, d);
      }
    }
  }

  /** `min` and `sorted` agree: the head of the sorted sequence is the first
      element with the least key. */
  lemma {:induction false} SortByHeadIsArgMin<T>(s: seq<T>, key: T -> real)
    requires |s| > 0
    ensures |SortBy(s, key)| == |s|
    ensures SortBy(s, key)[0] == s[ArgMin(s, key)]
  {
    SortByIsStableSort(s, key);
    if |s| > 1 {
      SortByHeadIsArgMin(s[1..], key);
    }
  }

  /** `min` only looks at keys: two sequences with the same keys, in order,
      have the same first minimum. */
  lemma {:induction false} ArgMinPointwise<T>(s: seq<T>, t: seq<T>, key: T -> real)
    requires |s| == |t| > 0
    requires forall i :: 0 <= i < |s| ==> key(s[i]) == key(t[i])
    ensures ArgMin(s, key) == ArgMin(t, key)
  {
    if |s| > 1 {
      ArgMinPointwise(s[1..], t[1..], key);
    }
  }

  /** `f` applied to every element. */
  function MapSeq<T>(f: T -> T, s: seq<T>): (r: seq<T>)
    ensures |r| == |s| && forall i :: 0 <= i < |s| ==> r[i] == f(s[i])
  {
    if s == [] then [] else [f(s[0])] + MapSeq(f, s[1..])
  }

  lemma {:induction false} InsertMap<T>(x: T, s: seq<T>, f: T -> T, key: T -> real)
    requires forall y :: key(f(y)) == key(y)
    ensures Insert(f(x), MapSeq(f, s), key) == MapSeq(f, Insert(x, s, key))
  {
    if s == [] || key(x) <= key(s[0]) {
      assert MapSeq(f, [x] + s) == [f(x)] + MapSeq(f, s) by { assert ([x] + s)[1..] == s; }
    } else {
      InsertMap(x, s[1..], f, key);
      assert MapSeq(f, s)[1..] == MapSeq(f, s[1..]);
      var ins := Insert(x, s[1..], key);
      assert MapSeq(f, [s[0]] + ins) == [f(s[0])] + MapSeq(f, ins) by { assert ([s[0]] + ins)[1..] == ins; }
    }
  }

  /** Sorting commutes with any map that leaves keys alone: such an update
      does not reorder the sorted sequence. */
  lemma {:induction false} SortByMap<T>(s: seq<T>, f: T -> T, key: T -> real)
    requires forall y :: key(f(y)) == key(y)
    ensures SortBy(MapSeq(f, s), key) == MapSeq(f, SortBy(s, key))
  {
    if s != [] {
      SortByMap(s[1..], f, key);
      assert MapSeq(f, s)[1..] == MapSeq(f, s[1..]);
      InsertMap(s[0], SortBy(s[1..], key), f, key);
    }
  }

  lemma {:induction false} KeyFilterMembers<T>(s: seq<T>, key: T -> real, d: real)
    ensures forall x :: x in KeyFilter(s, key, d) ==> x in s && key(x) == d
  {
    if s != [] {
      KeyFilterMembers(s[1..], key, d);
    }
  }

  lemma FilterAtHead<T>(s: seq<T>, key: T -> real)
    ensures s != [] ==> KeyFilter(s, key, key(s[0])) != [] && KeyFilter(s, key, key(s[0]))[0] == s[0]
  {
  }

  /** Two sorted sequences that agree on every equal-key subsequence are
      the same sequence. */
  lemma {:induction false} SortedWithSameFiltersEqual<T>(u: seq<T>, t: seq<T>, key: T -> real)
    requires SortedBy(u, key) && SortedBy(t, key)
    requires forall d :: KeyFilter(u, key, d) == KeyFilter(t, key, d)
    ensures u == t
    decreases |u| + |t|
  {
    if u == [] || t == [] {
      FilterAtHead(u, key);
      FilterAtHead(t, key);
    } else {
      var a, b := key(u[0]), key(t[0]);
      KeyFilterMembers(t, key, a);
      KeyFilterMembers(u, key, b);
      assert KeyFilter(u, key, a)[0] == u[0];
      assert KeyFilter(t, key, b)[0] == t[0];
      var x := KeyFilter(t, key, a)[0];
      assert x in t && key(x) == a;
      var y := KeyFilter(u, key, b)[0];
      assert y in u && key(y) == b;
      assert a == b;
      assert u[0] == t[0];
      forall d ensures KeyFilter(u[1..], key, d) == KeyFilter(t[1..], key, d) {
        assert KeyFilter(u, key, d) == (if key(u[0]) == d then [u[0]] else []) + KeyFilter(u[1..], key, d);
        assert KeyFilter(t, key, d) == (if key(t[0]) == d then [t[0]] else []) + KeyFilter(t[1..], key, d);
        assert KeyFilter(u, key, d) == KeyFilter(t, key, d);
        if key(u[0]) == d {
          assert KeyFilter(u[1..], key, d) == KeyFilter(u, key, d)[1..];
          assert KeyFilter(t[1..], key, d) == KeyFilter(t, key, d)[1..];
        } else {
          assert key(t[0]) != d;
          assert KeyFilter(u[1..], key, d) == KeyFilter(u, key, d);
          assert KeyFilter(t[1..], key, d) == KeyFilter(t, key, d);
        }
      }
      SortedWithSameFiltersEqual(u[1..], t[1..], key);
      assert u == [u[0]] + u[1..] && t == [t[0]] + t[1..];
    }
  }

  /** `SortBy` is the only stable sort: any sorted sequence that keeps every
      equal-key subsequence of `s` in its original order is `SortBy(s)`. */
  lemma StableSortIsUnique<T>(s: seq<T>, t: seq<T>, key: T -> real)
    requires SortedBy(t, key)
    requires forall d :: KeyFilter(t, key, d) == KeyFilter(s, key, d)
    ensures t == SortBy(s, key)
  {
    SortByIsStableSort(s, key);
    SortedWithSameFiltersEqual(t, SortBy(s, key), key);
  }
}
