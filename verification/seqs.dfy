/**
 * Sequence helpers shared by the services: counting, the stable descending
 * sort behind every leaderboard, and the ascending sort used for option
 * indices and question order.
 */
module Seqs {

  import opened Wrappers

  /** Number of elements of `s` that satisfy `p`. */
  function Count<T>(s: seq<T>, p: T -> bool): (n: nat)
    ensures n <= |s|
  {
    if |s| == 0 then 0 else (if p(s[0]) then 1 else 0) + Count(s[1..], p)
  }

  /** Index of the first element satisfying `p` (Array.prototype.findIndex, Mongo findOne). */
  function FirstIndex<T>(s: seq<T>, p: T -> bool): (r: Option<nat>)
    ensures r.Some? ==> r.value < |s| && p(s[r.value])
    ensures r.Some? ==> forall j :: 0 <= j < r.value ==> !p(s[j])
    ensures r.None? <==> forall j :: 0 <= j < |s| ==> !p(s[j])
  {
    if |s| == 0 then None
    else if p(s[0]) then Some(0)
    else match FirstIndex(s[1..], p)
      case None => None
      case Some(k) => Some(k + 1)
  }

  /** The elements satisfying `p`, in order (Array.prototype.filter, Mongo find). */
  function Filter<T>(s: seq<T>, p: T -> bool): (r: seq<T>)
    ensures |r| == Count(s, p)
    ensures forall i :: 0 <= i < |r| ==> p(r[i])
    ensures forall i :: 0 <= i < |r| ==> r[i] in s
    ensures forall i :: 0 <= i < |s| && p(s[i]) ==> s[i] in r
  {
    if |s| == 0 then []
    else (if p(s[0]) then [s[0]] else []) + Filter(s[1..], p)
  }

  /** Filtering keeps every occurrence of a selected element and none of the others. */
  lemma {:induction false} FilterMultiset<T>(s: seq<T>, p: T -> bool)
    ensures forall x :: multiset(Filter(s, p))[x] == if p(x) then multiset(s)[x] else 0
    decreases |s|
  {
    if |s| > 0 {
      FilterMultiset(s[1..], p);
      assert s == [s[0]] + s[1..];
      var head := if p(s[0]) then [s[0]] else [];
      assert Filter(s, p) == head + Filter(s[1..], p);
      forall x
        ensures multiset(Filter(s, p))[x] == if p(x) then multiset(s)[x] else 0
      {
        assert multiset(s)[x] == multiset([s[0]])[x] + multiset(s[1..])[x];
        assert multiset(Filter(s, p))[x] == multiset(head)[x] + multiset(Filter(s[1..], p))[x];
      }
    }
  }

  /** The first `n` elements, or all of them when there are fewer (Array.prototype.slice(0, n)). */
  function Take<T>(s: seq<T>, n: nat): (r: seq<T>)
    ensures |r| == if |s| < n then |s| else n
    ensures r == s[..|r|]
  {
    if |s| <= n then s else s[..n]
  }

  /** `s` is in non-increasing order of `key`. */
  ghost predicate SortedDesc<T>(s: seq<T>, key: T -> int) {
    forall i, j :: 0 <= i < j < |s| ==> key(s[i]) >= key(s[j])
  }

  /** `s` is in non-decreasing order (ascending integers). */
  ghost predicate SortedAsc(s: seq<int>) {
    forall i, j :: 0 <= i < j < |s| ==> s[i] <= s[j]
  }

  /** The elements of `s` whose key is `v`, in their order in `s`. */
  function Class<T>(s: seq<T>, key: T -> int, v: int): seq<T> {
    if |s| == 0 then []
    else (if key(s[0]) == v then [s[0]] else []) + Class(s[1..], key, v)
  }

  /**
   * Inserts `x` into `s` after every leading element whose key is at least
   * key(x): an element never overtakes an earlier element with the same key.
   */
  function InsertDesc<T>(s: seq<T>, x: T, key: T -> int): seq<T> {
    if |s| == 0 then [x]
    else if key(s[0]) >= key(x) then [s[0]] + InsertDesc(s[1..], x, key)
    else [x] + s
  }

  /** Stable sort by descending key (the comparator `(a, b) => key(b) - key(a)`). */
  function SortDesc<T>(s: seq<T>, key: T -> int): (r: seq<T>)
    ensures |r| == |s|
    decreases |s|
  {
    if |s| == 0 then []
    else
      var r := InsertDesc(SortDesc(s[..|s| - 1], key), s[|s| - 1], key);
      InsertLength(SortDesc(s[..|s| - 1], key), s[|s| - 1], key);
      r
  }

  /** Stable sort by ascending integer value (the comparator `(a, b) => a - b`). */
  function SortAsc(s: seq<int>): (r: seq<int>)
    ensures |r| == |s|
  {
    SortDesc(s, x => -x)
  }

  lemma InsertLength<T>(s: seq<T>, x: T, key: T -> int)
    ensures |InsertDesc(s, x, key)| == |s| + 1
  {
  }

  lemma {:induction false} ClassAppend<T>(a: seq<T>, b: seq<T>, key: T -> int, v: int)
    ensures Class(a + b, key, v) == Class(a, key, v) + Class(b, key, v)
    decreases |a|
  {
    if |a| == 0 {
      assert a + b == b;
    } else {
      ClassAppend(a[1..], b, key, v);
      assert a + b == [a[0]] + (a[1..] + b);
      assert a == [a[0]] + a[1..];
      ClassCons(a[0], a[1..] + b, key, v);
      ClassCons(a[0], a[1..], key, v);
    }
  }

  lemma {:induction false} ClassOfSmaller<T>(s: seq<T>, key: T -> int, v: int)
    requires forall i :: 0 <= i < |s| ==> key(s[i]) < v
    ensures Class(s, key, v) == []
    decreases |s|
  {
    if |s| > 0 {
      ClassOfSmaller(s[1..], key, v);
    }
  }

  lemma {:induction false} InsertMultiset<T>(s: seq<T>, x: T, key: T -> int)
    ensures multiset(InsertDesc(s, x, key)) == multiset(s) + multiset{x}
    decreases |s|
  {
    if |s| > 0 && key(s[0]) >= key(x) {
      InsertMultiset(s[1..], x, key);
      assert s == [s[0]] + s[1..];
    }
  }

  lemma {:induction false} InsertSorted<T>(s: seq<T>, x: T, key: T -> int)
    requires SortedDesc(s, key)
    ensures SortedDesc(InsertDesc(s, x, key), key)
    ensures |s| > 0 && key(s[0]) >= key(x) ==> InsertDesc(s, x, key)[0] == s[0]
    decreases |s|
  {
    InsertLength(s, x, key);
    if |s| > 0 && key(s[0]) >= key(x) {
      InsertSorted(s[1..], x, key);
      var t := InsertDesc(s[1..], x, key);
      InsertLength(s[1..], x, key);
      InsertMultiset(s[1..], x, key);
      forall j | 0 <= j < |t|
        ensures key(s[0]) >= key(t[j])
      {
        assert t[j] in multiset(s[1..]) + multiset{x};
        if t[j] in multiset(s[1..]) {
          var k :| 0 <= k < |s[1..]| && s[1..][k] == t[j];
          assert s[1..][k] == s[k + 1];
        }
      }
    }
  }

  lemma {:induction false} InsertClass<T>(s: seq<T>, x: T, key: T -> int, v: int)
    requires SortedDesc(s, key)
    ensures Class(InsertDesc(s, x, key), key, v)
         == Class(s, key, v) + (if key(x) == v then [x] else [])
    decreases |s|
  {
    if |s| == 0 {
      assert [x][1..] == [];
    } else if key(s[0]) >= key(x) {
      assert SortedDesc(s[1..], key);
      InsertClass(s[1..], x, key, v);
      InsertClassBehind(s, x, key, v);
    } else {
      InsertClassFront(s, x, key, v);
    }
  }

  /** The step of InsertClass when x goes behind the head. */
  lemma InsertClassBehind<T>(s: seq<T>, x: T, key: T -> int, v: int)
    requires |s| > 0 && key(s[0]) >= key(x)
    requires Class(InsertDesc(s[1..], x, key), key, v) == Class(s[1..], key, v) + (if key(x) == v then [x] else [])
    ensures Class(InsertDesc(s, x, key), key, v) == Class(s, key, v) + (if key(x) == v then [x] else [])
  {
    var t := InsertDesc(s[1..], x, key);
    var head := if key(s[0]) == v then [s[0]] else [];
    assert InsertDesc(s, x, key) == [s[0]] + t;
    ClassCons(s[0], t, key, v);
    ClassCons(s[0], s[1..], key, v);
    assert s == [s[0]] + s[1..];
    calc {
      Class(InsertDesc(s, x, key), key, v);
      head + Class(t, key, v);
      head + (Class(s[1..], key, v) + (if key(x) == v then [x] else []));
      (head + Class(s[1..], key, v)) + (if key(x) == v then [x] else []);
    }
  }

  lemma ClassCons<T>(y: T, t: seq<T>, key: T -> int, v: int)
    ensures Class([y] + t, key, v) == (if key(y) == v then [y] else []) + Class(t, key, v)
  {
    assert ([y] + t)[1..] == t;
  }

  /** The step of InsertClass when x goes in front: nothing in s has x's key. */
  lemma InsertClassFront<T>(s: seq<T>, x: T, key: T -> int, v: int)
    requires SortedDesc(s, key) && |s| > 0 && key(s[0]) < key(x)
    ensures Class(InsertDesc(s, x, key), key, v) == Class(s, key, v) + (if key(x) == v then [x] else [])
  {
    assert InsertDesc(s, x, key) == [x] + s;
    ClassAppend([x], s, key, v);
    assert [x][1..] == [];
    if key(x) == v {
      forall i | 0 <= i < |s| ensures key(s[i]) < v {
        assert key(s[i]) <= key(s[0]);
      }
      ClassOfSmaller(s, key, v);
    }
  }

  /**
   * The sort is a stable descending sort: the output is ordered, is a
   * permutation of the input, and keeps the input order among equal keys.
   */
  lemma SortDescSpec<T>(s: seq<T>, key: T -> int)
    ensures SortedDesc(SortDesc(s, key), key)
    ensures multiset(SortDesc(s, key)) == multiset(s)
    ensures forall v :: Class(SortDesc(s, key), key, v) == Class(s, key, v)
  {
    SortDescPermutes(s, key);
    forall v
      ensures Class(SortDesc(s, key), key, v) == Class(s, key, v)
    {
      SortDescStable(s, key, v);
    }
  }

  lemma {:induction false} SortDescPermutes<T>(s: seq<T>, key: T -> int)
    ensures SortedDesc(SortDesc(s, key), key)
    ensures multiset(SortDesc(s, key)) == multiset(s)
    decreases |s|
  {
    if |s| > 0 {
      var init, last := s[..|s| - 1], s[|s| - 1];
      assert s == init + [last];
      SortDescPermutes(init, key);
      InsertSorted(SortDesc(init, key), last, key);
      InsertMultiset(SortDesc(init, key), last, key);
    }
  }

  lemma {:induction false} SortDescStable<T>(s: seq<T>, key: T -> int, v: int)
    ensures Class(SortDesc(s, key), key, v) == Class(s, key, v)
    decreases |s|
  {
    if |s| > 0 {
      var init, last := s[..|s| - 1], s[|s| - 1];
      assert s == init + [last];
      SortDescStable(init, key, v);
      SortDescPermutes(init, key);
      InsertClass(SortDesc(init, key), last, key, v);
      ClassAppend(init, [last], key, v);
      ClassCons(last, [], key, v);
      assert [last] + [] == [last];
    }
  }

  /** SortAsc orders ascending and permutes its input. */
  lemma SortAscSpec(s: seq<int>)
    ensures SortedAsc(SortAsc(s))
    ensures multiset(SortAsc(s)) == multiset(s)
  {
    SortDescSpec(s, x => -x);
    var r := SortAsc(s);
    forall i, j | 0 <= i < j < |r|
      ensures r[i] <= r[j]
    {
      assert (x => -x)(r[i]) >= (x => -x)(r[j]);
    }
  }

  /** Two ascending sequences with the same elements are the same sequence. */
  lemma {:induction false} SortedUnique(a: seq<int>, b: seq<int>)
    requires SortedAsc(a) && SortedAsc(b)
    requires multiset(a) == multiset(b)
    ensures a == b
    decreases |a|
  {
    assert |a| == |multiset(a)| == |multiset(b)| == |b|;
    if |a| > 0 {
      SortedUniqueStep(a, b);
      SortedUnique(a[1..], b[1..]);
      ConsEqual(a, b);
    }
  }

  /** Sorted sequences with the same elements share their head, and their tails again agree. */
  lemma SortedUniqueStep(a: seq<int>, b: seq<int>)
    requires SortedAsc(a) && SortedAsc(b) && multiset(a) == multiset(b) && |a| > 0
    ensures |b| > 0 && a[0] == b[0]
    ensures SortedAsc(a[1..]) && SortedAsc(b[1..]) && multiset(a[1..]) == multiset(b[1..])
  {
    assert a[0] in multiset(b);
    SortedHeadMin(a, b[0]);
    SortedHeadMin(b, a[0]);
    TailMultiset(a);
    TailMultiset(b);
  }

  lemma ConsEqual(a: seq<int>, b: seq<int>)
    requires |a| > 0 && |b| > 0 && a[0] == b[0] && a[1..] == b[1..]
    ensures a == b
  {
    assert a == [a[0]] + a[1..];
    assert b == [b[0]] + b[1..];
  }

  /** The head of an ascending sequence is at most each of its elements. */
  lemma SortedHeadMin(a: seq<int>, x: int)
    requires SortedAsc(a) && x in multiset(a)
    ensures |a| > 0 && a[0] <= x
  {
    assert x in a;
    var i :| 0 <= i < |a| && a[i] == x;
    assert i == 0 || a[0] <= a[i];
  }

  /** Dropping the head removes one occurrence of it and keeps the order. */
  lemma TailMultiset(a: seq<int>)
    requires |a| > 0
    ensures multiset(a[1..]) == multiset(a) - multiset{a[0]}
    ensures SortedAsc(a) ==> SortedAsc(a[1..])
  {
    assert a == [a[0]] + a[1..];
  }
}
