/**
 * The array methods the data rules are built from: `filter`, `find`/`findIndex` and a
 * stable `sort` by a numeric key (the comparators in the application all subtract two
 * timestamps, so ascending order is by key and a descending one is by the negated key).
 */
module Seqs {
  import opened Js

  /** `s.filter(p)`. */
  function Filter<T>(s: seq<T>, p: T -> bool): (r: seq<T>)
    ensures |r| <= |s|
    ensures forall k :: 0 <= k < |r| ==> p(r[k])
    ensures forall k :: 0 <= k < |r| ==> r[k] in s
    ensures forall k :: 0 <= k < |s| && p(s[k]) ==> s[k] in r
  {
    if s == [] then []
    else if p(s[0]) then [s[0]] + Filter(s[1..], p)
    else Filter(s[1..], p)
  }

  /** Filtering distributes over concatenation, so the kept elements stay in their original order. */
  lemma {:induction false} FilterAppend<T>(a: seq<T>, b: seq<T>, p: T -> bool)
    ensures Filter(a + b, p) == Filter(a, p) + Filter(b, p)
  {
    if a == [] {
      assert a + b == b;
    } else {
      assert (a + b)[0] == a[0];
      assert (a + b)[1..] == a[1..] + b;
      FilterAppend(a[1..], b, p);
      if p(a[0]) {
        assert [a[0]] + (Filter(a[1..], p) + Filter(b, p)) == ([a[0]] + Filter(a[1..], p)) + Filter(b, p);
      }
    }
  }

  /** A filter that every element passes keeps the whole sequence. */
  lemma {:induction false} FilterAll<T>(s: seq<T>, p: T -> bool)
    requires forall k :: 0 <= k < |s| ==> p(s[k])
    ensures Filter(s, p) == s
  {
    if s != [] {
      FilterAll(s[1..], p);
    }
  }

  /** A filter that no element passes keeps nothing. */
  lemma {:induction false} FilterNone<T>(s: seq<T>, p: T -> bool)
    requires forall k :: 0 <= k < |s| ==> !p(s[k])
    ensures Filter(s, p) == []
  {
    if s != [] {
      FilterNone(s[1..], p);
    }
  }

  /** An element is kept exactly when it is in the sequence and passes the test. */
  lemma FilterMembers<T>(s: seq<T>, p: T -> bool)
    ensures forall x :: x in Filter(s, p) <==> x in s && p(x)
  {
    forall x | x in s && p(x) ensures x in Filter(s, p) {
      var k :| 0 <= k < |s| && s[k] == x;
    }
  }

  /** Filters with predicates that agree everywhere keep the same elements. */
  lemma {:induction false} FilterSame<T>(s: seq<T>, p: T -> bool, q: T -> bool)
    requires forall x :: p(x) == q(x)
    ensures Filter(s, p) == Filter(s, q)
  {
    if s != [] {
      FilterSame(s[1..], p, q);
    }
  }

  /** Two filters in a row keep what one filter with the conjunction keeps. */
  lemma {:induction false} FilterFilter<T>(s: seq<T>, p: T -> bool, q: T -> bool, pq: T -> bool)
    requires forall x :: pq(x) == (p(x) && q(x))
    ensures Filter(Filter(s, p), q) == Filter(s, pq)
  {
    if s != [] {
      FilterFilter(s[1..], p, q, pq);
    }
  }

  /** `r` is `s` with some elements left out, the rest in their order. */
  predicate Subsequence<T(==)>(r: seq<T>, s: seq<T>)
    decreases |s|
  {
    r == [] || (s != [] && ((r[0] == s[0] && Subsequence(r[1..], s[1..])) || Subsequence(r, s[1..])))
  }

  /**
   * The filter keeps the order of `s` and each passing element as often as `s` holds it, and
   * drops every other element.
   */
  lemma {:induction false} FilterKeepsOrder<T>(s: seq<T>, p: T -> bool)
    ensures Subsequence(Filter(s, p), s)
    ensures forall x :: multiset(Filter(s, p))[x] == if p(x) then multiset(s)[x] else 0
  {
    if s != [] {
      FilterKeepsOrder(s[1..], p);
      assert s == [s[0]] + s[1..];
      if p(s[0]) {
        assert Filter(s, p)[1..] == Filter(s[1..], p);
      }
    }
  }

  /** The number of elements of `s` that satisfy `p`. */
  function Count<T>(s: seq<T>, p: T -> bool): (n: nat)
    ensures n <= |s|
  {
    if s == [] then 0 else (if p(s[0]) then 1 else 0) + Count(s[1..], p)
  }

  lemma {:induction false} FilterLength<T>(s: seq<T>, p: T -> bool)
    ensures |Filter(s, p)| == Count(s, p)
  {
    if s != [] {
      FilterLength(s[1..], p);
    }
  }

  /** A predicate and its negation split a sequence: the two filters together are as long as it. */
  lemma {:induction false} FilterPartition<T>(s: seq<T>, p: T -> bool, q: T -> bool)
    requires forall x :: q(x) == !p(x)
    ensures |Filter(s, p)| + |Filter(s, q)| == |s|
    ensures forall x :: x in s ==> (x in Filter(s, p) <==> x !in Filter(s, q))
  {
    if s != [] {
      FilterPartition(s[1..], p, q);
    }
    forall x | x in s ensures x in Filter(s, p) <==> x !in Filter(s, q) {
      var k :| 0 <= k < |s| && s[k] == x;
    }
  }

  /** A predicate and its negation split the elements of a sequence, duplicates counted. */
  lemma {:induction false} FilterSplitMultiset<T>(s: seq<T>, p: T -> bool, q: T -> bool)
    requires forall x :: q(x) == !p(x)
    ensures multiset(Filter(s, p)) + multiset(Filter(s, q)) == multiset(s)
  {
    if s != [] {
      var t := s[1..];
      FilterSplitMultiset(t, p, q);
      assert s == [s[0]] + t;
      if p(s[0]) {
        assert !q(s[0]);
      } else {
        assert q(s[0]);
      }
    }
  }

  /** `s.findIndex(p)`, with -1 modelled as None. */
  function FindIndex<T>(s: seq<T>, p: T -> bool): (r: Option<nat>)
    ensures r.Some? ==> r.value < |s| && p(s[r.value]) && forall k :: 0 <= k < r.value ==> !p(s[k])
    ensures r.None? ==> forall k :: 0 <= k < |s| ==> !p(s[k])
  {
    if s == [] then None
    else if p(s[0]) then Some(0)
    else match FindIndex(s[1..], p)
      case None => None
      case Some(i) => Some(i + 1)
  }

  /** `s.find(p)`, with undefined modelled as None. */
  function Find<T>(s: seq<T>, p: T -> bool): (r: Option<T>)
    ensures r.Some? <==> exists k :: 0 <= k < |s| && p(s[k])
    ensures r.Some? ==> exists k :: 0 <= k < |s| && s[k] == r.value && p(s[k]) && forall j :: 0 <= j < k ==> !p(s[j])
  {
    match FindIndex(s, p)
    case None => None
    case Some(i) => Some(s[i])
  }

  predicate SortedBy<T>(s: seq<T>, key: T -> int) {
    forall i, j :: 0 <= i < j < |s| ==> key(s[i]) <= key(s[j])
  }

  /** An element whose key is at most the first key of a sorted sequence can go in front of it. */
  lemma ConsSorted<T>(x: T, s: seq<T>, key: T -> int)
    requires SortedBy(s, key)
    requires s == [] || key(x) <= key(s[0])
    ensures SortedBy([x] + s, key)
  {
    var r := [x] + s;
    forall i, j | 0 <= i < j < |r|
      ensures key(r[i]) <= key(r[j])
    {
      if i == 0 {
        assert key(s[0]) <= key(s[j - 1]);
      }
    }
  }

  /** Inserts `x` in front of the first element whose key is not below its own. */
  function Insert<T>(x: T, s: seq<T>, key: T -> int): (r: seq<T>)
    requires SortedBy(s, key)
    ensures SortedBy(r, key)
    ensures multiset(r) == multiset(s) + multiset{x}
    ensures |r| == |s| + 1
    ensures r[0] == x || (s != [] && r[0] == s[0])
  {
    if s == [] || key(x) <= key(s[0]) then
      ConsSorted(x, s, key);
      [x] + s
    else
      var t := Insert(x, s[1..], key);
      assert s == [s[0]] + s[1..];
      assert multiset([s[0]] + t) == multiset{s[0]} + multiset(t);
      ConsSorted(s[0], t, key);
      [s[0]] + t
  }

  /**
   * `[...s].sort((a, b) => key(a) - key(b))`: a stable insertion sort, so elements with equal keys
   * keep their relative order (each element is inserted in front of its equals that follow it).
   */
  function SortBy<T>(s: seq<T>, key: T -> int): (r: seq<T>)
    ensures SortedBy(r, key)
    ensures multiset(r) == multiset(s)
    ensures |r| == |s|
  {
    if s == [] then []
    else
      assert s == [s[0]] + s[1..];
      Insert(s[0], SortBy(s[1..], key), key)
  }

  /** Sequences with the same elements, duplicates counted, have the same members. */
  lemma SameMembers<T>(a: seq<T>, b: seq<T>)
    requires multiset(a) == multiset(b)
    ensures forall x :: x in a <==> x in b
  {
    forall x ensures x in a <==> x in b {
      assert x in a <==> x in multiset(a);
      assert x in b <==> x in multiset(b);
    }
  }

  /** Sorting keeps exactly the elements of the input. */
  lemma SortByMembers<T>(s: seq<T>, key: T -> int)
    ensures forall x :: x in SortBy(s, key) <==> x in s
  {
    var r := SortBy(s, key);
    forall x ensures x in r <==> x in s {
      assert x in r <==> x in multiset(r);
      assert x in s <==> x in multiset(s);
    }
  }

  /** Sorting keeps a property every element has. */
  lemma SortByKeeps<T>(s: seq<T>, key: T -> int, p: T -> bool)
    requires forall k :: 0 <= k < |s| ==> p(s[k])
    ensures forall k :: 0 <= k < |SortBy(s, key)| ==> p(SortBy(s, key)[k])
  {
    var r := SortBy(s, key);
    forall k | 0 <= k < |r|
      ensures p(r[k])
    {
      assert r[k] in multiset(r);
      assert r[k] in s;
    }
  }

  function Last<T>(s: seq<T>): T
    requires s != []
  {
    s[|s| - 1]
  }

  /** Every element of `s` appears in sorted `r` when the two hold the same elements. */
  lemma SameElements<T>(s: seq<T>, r: seq<T>, x: T)
    requires multiset(r) == multiset(s)
    requires x in s
    ensures exists k :: 0 <= k < |r| && r[k] == x
  {
    assert x in multiset(s);
    assert x in multiset(r);
    assert x in r;
  }

  /** The first element of a sorted sequence has the least key in the input. */
  lemma SortByFirstIsLeast<T>(s: seq<T>, key: T -> int)
    requires s != []
    ensures SortBy(s, key)[0] in s
    ensures forall x :: x in s ==> key(SortBy(s, key)[0]) <= key(x)
  {
    var r := SortBy(s, key);
    SortByMembers(s, key);
    forall x | x in s ensures key(r[0]) <= key(x) {
      SameElements(s, r, x);
      var k :| 0 <= k < |r| && r[k] == x;
      if k > 0 {
        assert key(r[0]) <= key(r[k]);
      }
    }
  }

  /** The last element of a sorted sequence has the greatest key in the input. */
  lemma SortByLastIsGreatest<T>(s: seq<T>, key: T -> int)
    requires s != []
    ensures Last(SortBy(s, key)) in s
    ensures forall x :: x in s ==> key(x) <= key(Last(SortBy(s, key)))
  {
    var r := SortBy(s, key);
    var n := |r| - 1;
    assert Last(r) == r[n];
    SortByMembers(s, key);
    forall x | x in s ensures key(x) <= key(r[n]) {
      SameElements(s, r, x);
      var k :| 0 <= k < |r| && r[k] == x;
      if k < n {
        assert key(r[k]) <= key(r[n]);
      }
    }
  }

  /**
   * The first `n` of a sorted copy hold the least keys: every element left out has a key no
   * smaller than every element kept.
   */
  lemma TakeSortedKeepsLeast<T>(s: seq<T>, key: T -> int, n: nat)
    ensures forall x, y :: x in s && x !in Take(SortBy(s, key), n) && y in Take(SortBy(s, key), n) ==> key(y) <= key(x)
  {
    var r := SortBy(s, key);
    var t := Take(r, n);
    forall x, y | x in s && x !in t && y in t ensures key(y) <= key(x) {
      SameElements(s, r, x);
      var k :| 0 <= k < |r| && r[k] == x;
      var i :| 0 <= i < |t| && t[i] == y;
      assert r[i] == y;
    }
  }

  /**
   * What `sort(...).slice(0, n)` keeps: at most `n` of the input's elements in key order, none
   * left out with a smaller key than one kept, and of each key the first ones in input order.
   */
  lemma TakeSortedBy<T>(s: seq<T>, key: T -> int, n: nat)
    ensures |Take(SortBy(s, key), n)| == if n <= |s| then n else |s|
    ensures forall x :: x in Take(SortBy(s, key), n) ==> x in s
    ensures SortedBy(Take(SortBy(s, key), n), key)
    ensures forall x, y :: x in s && x !in Take(SortBy(s, key), n) && y in Take(SortBy(s, key), n) ==> key(y) <= key(x)
    ensures multiset(Take(SortBy(s, key), n)) <= multiset(s)
    ensures forall k :: KeyClass(Take(SortBy(s, key), n), key, k) <= KeyClass(s, key, k)
  {
    var r := SortBy(s, key);
    var t := Take(r, n);
    SortByMembers(s, key);
    assert forall x :: x in t ==> x in r;
    TakeSortedKeepsLeast(s, key, n);
    SortedPrefixClasses(s, key, |t|);
  }

  /** The elements of `s` whose key is `k`, in the order of `s`. */
  function KeyClass<T>(s: seq<T>, key: T -> int, k: int): (r: seq<T>)
    ensures |r| <= |s|
  {
    if s == [] then []
    else if key(s[0]) == k then [s[0]] + KeyClass(s[1..], key, k)
    else KeyClass(s[1..], key, k)
  }

  /** Every element of a class has the class's key. */
  lemma {:induction false} KeyClassKeys<T>(s: seq<T>, key: T -> int, k: int)
    ensures forall i :: 0 <= i < |KeyClass(s, key, k)| ==> key(KeyClass(s, key, k)[i]) == k
  {
    if s != [] {
      KeyClassKeys(s[1..], key, k);
    }
  }

  lemma {:induction false} KeyClassAppend<T>(a: seq<T>, b: seq<T>, key: T -> int, k: int)
    ensures KeyClass(a + b, key, k) == KeyClass(a, key, k) + KeyClass(b, key, k)
  {
    if a == [] {
      assert a + b == b;
    } else {
      assert (a + b)[0] == a[0];
      assert (a + b)[1..] == a[1..] + b;
      KeyClassAppend(a[1..], b, key, k);
      if key(a[0]) == k {
        assert [a[0]] + (KeyClass(a[1..], key, k) + KeyClass(b, key, k)) == ([a[0]] + KeyClass(a[1..], key, k)) + KeyClass(b, key, k);
      }
    }
  }

  /** `r` lists the elements of every key in the order `s` lists them: what a stable sort keeps. */
  ghost predicate SameKeyClasses<T>(r: seq<T>, s: seq<T>, key: T -> int) {
    forall k :: KeyClass(r, key, k) == KeyClass(s, key, k)
  }

  /** Inserting `x` puts it in front of every element with its key. */
  lemma {:induction false} InsertKeyClass<T>(x: T, s: seq<T>, key: T -> int, k: int)
    requires SortedBy(s, key)
    ensures KeyClass(Insert(x, s, key), key, k) == (if key(x) == k then [x] else []) + KeyClass(s, key, k)
  {
    if s == [] || key(x) <= key(s[0]) {
      assert ([x] + s)[1..] == s;
    } else {
      var t := Insert(x, s[1..], key);
      assert Insert(x, s, key) == [s[0]] + t;
      InsertKeyClass(x, s[1..], key, k);
      var c0 := if key(s[0]) == k then [s[0]] else [];
      assert ([s[0]] + t)[1..] == t;
      assert KeyClass([s[0]] + t, key, k) == c0 + KeyClass(t, key, k);
      assert KeyClass(s, key, k) == c0 + KeyClass(s[1..], key, k);
      assert key(s[0]) != key(x);
    }
  }

  /** The sort is stable: elements with equal keys keep their order in the input. */
  lemma {:induction false} SortByStable<T>(s: seq<T>, key: T -> int)
    ensures SameKeyClasses(SortBy(s, key), s, key)
  {
    if s != [] {
      SortByStable(s[1..], key);
      forall k ensures KeyClass(SortBy(s, key), key, k) == KeyClass(s, key, k) {
        InsertKeyClass(s[0], SortBy(s[1..], key), key, k);
      }
    }
  }

  /** The head of a sorted sequence heads the class of its key. */
  lemma HeadOfKeyClass<T>(r: seq<T>, key: T -> int)
    requires r != []
    ensures KeyClass(r, key, key(r[0])) == [r[0]] + KeyClass(r[1..], key, key(r[0]))
  {
  }

  /** Every key of a sequence has a non-empty class. */
  lemma {:induction false} KeyClassHas<T>(r: seq<T>, key: T -> int, i: int)
    requires 0 <= i < |r|
    ensures KeyClass(r, key, key(r[i])) != []
  {
    if i > 0 {
      KeyClassHas(r[1..], key, i - 1);
    }
  }

  /** An element of a class is an element of the sequence. */
  lemma {:induction false} KeyClassMember<T>(r: seq<T>, key: T -> int, k: int)
    requires KeyClass(r, key, k) != []
    ensures exists i :: 0 <= i < |r| && r[i] == KeyClass(r, key, k)[0]
  {
    if key(r[0]) != k {
      KeyClassMember(r[1..], key, k);
      var i :| 0 <= i < |r[1..]| && r[1..][i] == KeyClass(r, key, k)[0];
      assert r[i + 1] == r[1..][i];
    }
  }

  /** Two sorted sequences with the same key classes are equal: a stable sort has one result. */
  lemma {:induction false} SortedClassesUnique<T>(r1: seq<T>, r2: seq<T>, key: T -> int)
    requires SortedBy(r1, key) && SortedBy(r2, key)
    requires SameKeyClasses(r1, r2, key)
    ensures r1 == r2
    decreases |r1| + |r2|
  {
    if r1 == [] && r2 != [] {
      KeyClassHas(r2, key, 0);
    } else if r1 != [] && r2 == [] {
      KeyClassHas(r1, key, 0);
    } else if r1 != [] {
      var k1, k2 := key(r1[0]), key(r2[0]);
      KeyClassHas(r1, key, 0);
      KeyClassHas(r2, key, 0);
      KeyClassMember(r2, key, k1);
      KeyClassMember(r1, key, k2);
      var i2 :| 0 <= i2 < |r2| && r2[i2] == KeyClass(r2, key, k1)[0];
      var i1 :| 0 <= i1 < |r1| && r1[i1] == KeyClass(r1, key, k2)[0];
      KeyClassKeys(r2, key, k1);
      KeyClassKeys(r1, key, k2);
      assert key(r2[i2]) == k1 && key(r1[i1]) == k2;
      assert k2 <= k1 && k1 <= k2 by {
        if i2 > 0 { assert key(r2[0]) <= key(r2[i2]); }
        if i1 > 0 { assert key(r1[0]) <= key(r1[i1]); }
      }
      HeadOfKeyClass(r1, key);
      HeadOfKeyClass(r2, key);
      assert KeyClass(r1, key, k1) == KeyClass(r2, key, k1);
      assert r1[0] == r2[0];
      forall k ensures KeyClass(r1[1..], key, k) == KeyClass(r2[1..], key, k) {
        assert KeyClass(r1, key, k) == KeyClass(r2, key, k);
        if k == k1 {
          assert ([r1[0]] + KeyClass(r1[1..], key, k))[1..] == KeyClass(r1[1..], key, k);
          assert ([r2[0]] + KeyClass(r2[1..], key, k))[1..] == KeyClass(r2[1..], key, k);
        } else {
          assert KeyClass(r1, key, k) == KeyClass(r1[1..], key, k);
          assert KeyClass(r2, key, k) == KeyClass(r2[1..], key, k);
        }
      }
      assert SortedBy(r1[1..], key) && SortedBy(r2[1..], key);
      SortedClassesUnique(r1[1..], r2[1..], key);
      assert r1 == [r1[0]] + r1[1..] && r2 == [r2[0]] + r2[1..];
    }
  }

  /** A sequence with no element of key `k` has an empty class for `k`, and the other way round. */
  lemma {:induction false} KeyClassEmpty<T>(s: seq<T>, key: T -> int, k: int)
    ensures KeyClass(s, key, k) == [] <==> forall j :: 0 <= j < |s| ==> key(s[j]) != k
  {
    if s != [] {
      KeyClassEmpty(s[1..], key, k);
      assert forall j :: 1 <= j < |s| ==> s[j] == s[1..][j - 1];
    }
  }

  /** A class starts with the first element of the sequence that has its key. */
  lemma {:induction false} KeyClassHeadIsFirst<T>(s: seq<T>, key: T -> int, k: int)
    requires KeyClass(s, key, k) != []
    ensures exists i :: 0 <= i < |s| && s[i] == KeyClass(s, key, k)[0] && key(s[i]) == k && forall j :: 0 <= j < i ==> key(s[j]) != k
  {
    if key(s[0]) != k {
      KeyClassHeadIsFirst(s[1..], key, k);
      var i :| 0 <= i < |s[1..]| && s[1..][i] == KeyClass(s[1..], key, k)[0] && key(s[1..][i]) == k && forall j :: 0 <= j < i ==> key(s[1..][j]) != k;
      assert s[i + 1] == s[1..][i];
      assert forall j :: 1 <= j < i + 1 ==> s[j] == s[1..][j - 1];
    }
  }

  /** A class ends with the last element of the sequence that has its key. */
  lemma {:induction false} KeyClassLastIsLast<T>(s: seq<T>, key: T -> int, k: int)
    requires KeyClass(s, key, k) != []
    ensures exists i :: 0 <= i < |s| && s[i] == Last(KeyClass(s, key, k)) && key(s[i]) == k && forall j :: i < j < |s| ==> key(s[j]) != k
  {
    var c := KeyClass(s, key, k);
    if key(s[0]) == k && KeyClass(s[1..], key, k) == [] {
      KeyClassEmpty(s[1..], key, k);
      assert c == [s[0]];
      assert forall j :: 0 < j < |s| ==> s[j] == s[1..][j - 1];
    } else {
      assert KeyClass(s[1..], key, k) != [];
      assert Last(c) == Last(KeyClass(s[1..], key, k));
      KeyClassLastIsLast(s[1..], key, k);
      var i :| 0 <= i < |s[1..]| && s[1..][i] == Last(c) && key(s[1..][i]) == k && forall j :: i < j < |s[1..]| ==> key(s[1..][j]) != k;
      assert s[i + 1] == s[1..][i];
      assert forall j :: i + 1 < j < |s| ==> s[j] == s[1..][j - 1];
    }
  }

  /** `s[i]` has the least key of `s`, and every element listed before it has a greater one. */
  predicate FirstLeastAt<T>(s: seq<T>, key: T -> int, i: int) {
    0 <= i < |s| && (forall j :: 0 <= j < |s| ==> key(s[i]) <= key(s[j])) &&
    forall j :: 0 <= j < i ==> key(s[i]) < key(s[j])
  }

  /** `s[i]` has the greatest key of `s`, and every element listed after it has a smaller one. */
  predicate LastGreatestAt<T>(s: seq<T>, key: T -> int, i: int) {
    0 <= i < |s| && (forall j :: 0 <= j < |s| ==> key(s[j]) <= key(s[i])) &&
    forall j :: i < j < |s| ==> key(s[j]) < key(s[i])
  }

  /** The first element of a sorted copy is the FIRST element of the input with the least key. */
  lemma SortByFirstIsFirstLeast<T>(s: seq<T>, key: T -> int)
    requires s != []
    ensures exists i :: FirstLeastAt(s, key, i) && SortBy(s, key)[0] == s[i]
  {
    var r := SortBy(s, key);
    var k0 := key(r[0]);
    HeadOfKeyClass(r, key);
    SortByStable(s, key);
    var c := KeyClass(s, key, k0);
    assert c == KeyClass(r, key, k0);
    assert c != [] && c[0] == r[0];
    KeyClassHeadIsFirst(s, key, k0);
    var i :| 0 <= i < |s| && s[i] == c[0] && key(s[i]) == k0 && forall j :: 0 <= j < i ==> key(s[j]) != k0;
    LeastBefore(s, key, i, r[0]);
  }

  lemma LeastBefore<T>(s: seq<T>, key: T -> int, i: int, x: T)
    requires 0 <= i < |s| && x == SortBy(s, key)[0] && s[i] == x
    requires forall j :: 0 <= j < i ==> key(s[j]) != key(x)
    ensures FirstLeastAt(s, key, i)
  {
    SortByFirstIsLeast(s, key);
    forall j | 0 <= j < |s| ensures key(s[i]) <= key(s[j]) {
      assert s[j] in s;
    }
  }

  /** The last element of a sorted copy is the LAST element of the input with the greatest key. */
  lemma SortByLastIsLastGreatest<T>(s: seq<T>, key: T -> int)
    requires s != []
    ensures exists i :: LastGreatestAt(s, key, i) && Last(SortBy(s, key)) == s[i]
  {
    var r := SortBy(s, key);
    var n := |r| - 1;
    var km := key(r[n]);
    LastOfKeyClass(r, key);
    SortByStable(s, key);
    var c := KeyClass(s, key, km);
    assert c == KeyClass(r, key, km);
    KeyClassLastIsLast(s, key, km);
    var i :| 0 <= i < |s| && s[i] == Last(c) && key(s[i]) == km && forall j :: i < j < |s| ==> key(s[j]) != km;
    GreatestAfter(s, key, i, r[n]);
  }

  /** The last element of a sequence ends the class of its key. */
  lemma LastOfKeyClass<T>(r: seq<T>, key: T -> int)
    requires r != []
    ensures KeyClass(r, key, key(Last(r))) != [] && Last(KeyClass(r, key, key(Last(r)))) == Last(r)
  {
    var n := |r| - 1;
    assert r == r[..n] + [r[n]];
    KeyClassAppend(r[..n], [r[n]], key, key(r[n]));
    assert KeyClass([r[n]], key, key(r[n])) == [r[n]];
  }

  lemma GreatestAfter<T>(s: seq<T>, key: T -> int, i: int, x: T)
    requires s != [] && x == Last(SortBy(s, key)) && 0 <= i < |s| && s[i] == x
    requires forall j :: i < j < |s| ==> key(s[j]) != key(x)
    ensures LastGreatestAt(s, key, i)
  {
    SortByLastIsGreatest(s, key);
    forall j | 0 <= j < |s| ensures key(s[j]) <= key(s[i]) {
      assert s[j] in s;
    }
  }

  /**
   * The first `e` elements of a sorted copy are drawn from the input, and each key among them
   * lists the input's first elements of that key in input order.
   */
  lemma SortedPrefixClasses<T>(s: seq<T>, key: T -> int, e: nat)
    requires e <= |s|
    ensures multiset(SortBy(s, key)[..e]) <= multiset(s)
    ensures forall k :: KeyClass(SortBy(s, key)[..e], key, k) <= KeyClass(s, key, k)
  {
    var r := SortBy(s, key);
    assert r == r[..e] + r[e..];
    assert multiset(r) == multiset(r[..e]) + multiset(r[e..]);
    SortByStable(s, key);
    forall k ensures KeyClass(r[..e], key, k) <= KeyClass(s, key, k) {
      KeyClassAppend(r[..e], r[e..], key, k);
      assert KeyClass(r, key, k) == KeyClass(s, key, k);
    }
  }

  /** Exchanging neighbours with different keys keeps every key class. */
  lemma SwapKeepsClasses<T>(s: seq<T>, j: int, key: T -> int)
    requires 0 < j < |s| && key(s[j - 1]) != key(s[j])
    ensures SameKeyClasses(Swap(s, j - 1, j), s, key)
  {
    var t := Swap(s, j - 1, j);
    assert s == s[..j - 1] + [s[j - 1], s[j]] + s[j + 1..];
    assert t == s[..j - 1] + [s[j], s[j - 1]] + s[j + 1..];
    forall k ensures KeyClass(t, key, k) == KeyClass(s, key, k) {
      KeyClassAppend(s[..j - 1] + [s[j - 1], s[j]], s[j + 1..], key, k);
      KeyClassAppend(s[..j - 1], [s[j - 1], s[j]], key, k);
      KeyClassAppend(s[..j - 1] + [s[j], s[j - 1]], s[j + 1..], key, k);
      KeyClassAppend(s[..j - 1], [s[j], s[j - 1]], key, k);
      assert [s[j - 1], s[j]][1..] == [s[j]] && [s[j], s[j - 1]][1..] == [s[j - 1]];
    }
  }

  /** The least element of a non-empty finite set of naturals. */
  function MinOf(s: set<nat>): (m: nat)
    requires s != {}
    ensures m in s && forall x :: x in s ==> m <= x
  {
    MinExists(s);
    var m :| m in s && forall x :: x in s ==> m <= x;
    m
  }

  lemma MinExists(s: set<nat>)
    requires s != {}
    ensures exists m :: m in s && forall x :: x in s ==> m <= x
  {
    var y :| y in s;
    MinBelow(s, y);
  }

  /** Every element of `s` has the least element of `s` at or below it. */
  lemma MinBelow(s: set<nat>, y: nat)
    requires y in s
    ensures exists m :: m in s && forall x :: x in s ==> m <= x
    decreases y
  {
    if exists x :: x in s && x < y {
      var x :| x in s && x < y;
      MinBelow(s, x);
    } else {
      assert forall x :: x in s ==> y <= x;
    }
  }

  lemma AscendingStep(s: set<nat>, m: nat, rest: seq<nat>)
    requires m in s && forall x :: x in s ==> m <= x
    requires forall x :: x in s - {m} <==> x in rest
    requires forall i, j :: 0 <= i < j < |rest| ==> rest[i] < rest[j]
    ensures forall x :: x in s <==> x in [m] + rest
    ensures forall i, j :: 0 <= i < j < |[m] + rest| ==> ([m] + rest)[i] < ([m] + rest)[j]
  {
    assert forall i :: 0 <= i < |rest| ==> rest[i] in s - {m};
  }

  /**
   * The elements of `s` in ascending order: the order in which JavaScript enumerates the
   * integer-like keys of an object (`Object.entries`, `Object.values`).
   */
  function Ascending(s: set<nat>): (r: seq<nat>)
    ensures |r| == |s|
    ensures forall x :: x in s <==> x in r
    ensures forall i, j :: 0 <= i < j < |r| ==> r[i] < r[j]
    decreases |s|
  {
    if s == {} then []
    else
      var m := MinOf(s);
      var smaller := s - {m};
      assert |smaller| == |s| - 1;
      var rest := Ascending(smaller);
      AscendingStep(s, m, rest);
      [m] + rest
  }

  /** `s` with the entries at `i` and `j` exchanged. */
  function Swap<T>(s: seq<T>, i: int, j: int): (r: seq<T>)
    requires 0 <= i < |s| && 0 <= j < |s|
    ensures |r| == |s|
    ensures r[i] == s[j] && r[j] == s[i]
    ensures forall k :: 0 <= k < |s| && k != i && k != j ==> r[k] == s[k]
  {
    s[i := s[j]][j := s[i]]
  }

  lemma SwapMultiset<T>(s: seq<T>, i: int, j: int)
    requires 0 <= i < |s| && 0 <= j < |s|
    ensures multiset(Swap(s, i, j)) == multiset(s)
  {
    var t := s[i := s[j]];
    assert multiset(t) == multiset(s) - multiset{s[i]} + multiset{s[j]};
    assert multiset(t[j := s[i]]) == multiset(t) - multiset{t[j]} + multiset{s[i]};
  }

  /** Sortedness of the first `n` elements of an array. */
  predicate SortedPrefix<T>(a: seq<T>, n: int, key: T -> int)
    requires 0 <= n <= |a|
  {
    forall p, q :: 0 <= p < q < n ==> key(a[p]) <= key(a[q])
  }

  /**
   * `a.sort((x, y) => key(x) - key(y))` on the array itself: an insertion sort by adjacent swaps.
   * Equal keys are never swapped, so the order among them is kept, and the array ends as the
   * stable sort `SortBy` of what it held.
   */
  method SortInPlace<T>(a: array<T>, key: T -> int)
    modifies a
    ensures SortedBy(a[..], key)
    ensures multiset(a[..]) == multiset(old(a[..]))
    ensures SameKeyClasses(a[..], old(a[..]), key)
    ensures a[..] == SortBy(old(a[..]), key)
  {
    var i := 0;
    while i < a.Length
      invariant 0 <= i <= a.Length
      invariant SortedPrefix(a[..], i, key)
      invariant multiset(a[..]) == multiset(old(a[..]))
      invariant SameKeyClasses(a[..], old(a[..]), key)
    {
      SinkLast(a, i, key);
      i := i + 1;
    }
    SortByStable(old(a[..]), key);
    SortedClassesUnique(a[..], SortBy(old(a[..]), key), key);
  }

  /** One insertion step: moves `a[i]` down past the larger keys before it. */
  method SinkLast<T>(a: array<T>, i: int, key: T -> int)
    requires 0 <= i < a.Length && SortedPrefix(a[..], i, key)
    modifies a
    ensures SortedPrefix(a[..], i + 1, key)
    ensures multiset(a[..]) == multiset(old(a[..]))
    ensures forall k :: KeyClass(a[..], key, k) == KeyClass(old(a[..]), key, k)
  {
    var j := i;
    while j > 0 && key(a[j - 1]) > key(a[j])
      invariant 0 <= j <= i
      invariant multiset(a[..]) == multiset(old(a[..]))
      invariant forall k :: KeyClass(a[..], key, k) == KeyClass(old(a[..]), key, k)
      invariant Sinking(a[..], i, j, key)
    {
      ghost var before := a[..];
      SwapMultiset(before, j - 1, j);
      SwapKeepsClasses(before, j, key);
      SinkStep(before, i, j, key);
      a[j - 1], a[j] := a[j], a[j - 1];
      assert a[..] == Swap(before, j - 1, j);
      j := j - 1;
    }
    SinkDone(a[..], i, j, key);
  }

  /**
   * The state while `s[j]` moves down within `s[..i + 1]`: every pair not ending in `j` is in order,
   * and the neighbours of `j` are in order with each other.
   */
  predicate Sinking<T>(s: seq<T>, i: int, j: int, key: T -> int)
    requires 0 <= j <= i < |s|
  {
    (forall p, q :: 0 <= p < q <= i && q != j ==> key(s[p]) <= key(s[q])) &&
    (0 < j < i ==> key(s[j - 1]) <= key(s[j + 1]))
  }

  lemma SinkStep<T>(s: seq<T>, i: int, j: int, key: T -> int)
    requires 0 < j <= i < |s| && Sinking(s, i, j, key) && key(s[j - 1]) > key(s[j])
    ensures Sinking(Swap(s, j - 1, j), i, j - 1, key)
  {
    var t := Swap(s, j - 1, j);
    forall p, q | 0 <= p < q <= i && q != j - 1 ensures key(t[p]) <= key(t[q]) {
      if q == j {
        if p < j - 1 {
          assert key(s[p]) <= key(s[j - 1]);
        }
      } else if p == j - 1 {
        assert key(s[j]) < key(s[j - 1]);
        assert key(s[j - 1]) <= key(s[q]);
      } else if p == j {
        assert key(s[j - 1]) <= key(s[q]);
      }
    }
    if 0 < j - 1 {
      assert key(s[j - 2]) <= key(s[j - 1]);
    }
  }

  lemma SinkDone<T>(s: seq<T>, i: int, j: int, key: T -> int)
    requires 0 <= j <= i < |s| && Sinking(s, i, j, key) && (j == 0 || key(s[j - 1]) <= key(s[j]))
    ensures SortedPrefix(s, i + 1, key)
  {
    forall p, q | 0 <= p < q < i + 1 ensures key(s[p]) <= key(s[q]) {
      if q == j && p < j - 1 {
        assert key(s[p]) <= key(s[j - 1]);
      }
      if p == j && j < q && 0 < j && j < i {
        assert key(s[j - 1]) <= key(s[j + 1]);
      }
    }
  }
}
