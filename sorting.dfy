/** `Array.prototype.sort` with a comparator, as the pages use it. The
    comparators order by a key (a score, an amount, a date, a title) with ties
    compared equal, so the sort is modelled as a stable insertion sort by a key
    that is a sequence of integers compared lexicographically (a shorter prefix
    first, as JavaScript compares strings). The one exception is the progress
    page's "all" order, which is consistent only while every value it compares
    is a boolean; module Completion models that comparator as written and shows
    where it matches a key. */
module Sorting {

  import opened Collections

  /** Lexicographic order on integer sequences. */
  predicate LexLeq(a: seq<int>, b: seq<int>)
    decreases |a|
  {
    a == [] || (b != [] && (a[0] < b[0] || (a[0] == b[0] && LexLeq(a[1..], b[1..]))))
  }

  lemma {:induction false} LexReflexive(a: seq<int>)
    ensures LexLeq(a, a)
    decreases |a|
  {
    if a != [] {
      LexReflexive(a[1..]);
    }
  }

  lemma {:induction false} LexTotal(a: seq<int>, b: seq<int>)
    ensures LexLeq(a, b) || LexLeq(b, a)
    decreases |a|
  {
    if a != [] && b != [] && a[0] == b[0] {
      LexTotal(a[1..], b[1..]);
    }
  }

  lemma {:induction false} LexTransitive(a: seq<int>, b: seq<int>, c: seq<int>)
    requires LexLeq(a, b) && LexLeq(b, c)
    ensures LexLeq(a, c)
    decreases |a|
  {
    if a != [] && b != [] && c != [] && a[0] == b[0] && b[0] == c[0] {
      LexTransitive(a[1..], b[1..], c[1..]);
    }
  }

  /** Keys of equal length that compare both ways are equal. */
  lemma {:induction false} LexAntisymmetric(a: seq<int>, b: seq<int>)
    requires |a| == |b| && LexLeq(a, b) && LexLeq(b, a)
    ensures a == b
    decreases |a|
  {
    if a != [] {
      LexAntisymmetric(a[1..], b[1..]);
      assert a == [a[0]] + a[1..];
      assert b == [b[0]] + b[1..];
    }
  }

  predicate SortedBy<T>(s: seq<T>, key: T -> seq<int>) {
    forall i, j :: 0 <= i < j < |s| ==> LexLeq(key(s[i]), key(s[j]))
  }

  /** Places `x` before the first element whose key is not smaller. */
  function Insert<T>(x: T, s: seq<T>, key: T -> seq<int>): (r: seq<T>)
    ensures |r| == |s| + 1
    ensures multiset(r) == multiset(s) + multiset{x}
  {
    if s == [] then [x]
    else if LexLeq(key(x), key(s[0])) then [x] + s
    else
      assert s == [s[0]] + s[1..];
      [s[0]] + Insert(x, s[1..], key)
  }

  /** `[...s].sort(comparator)`. */
  function SortBy<T>(s: seq<T>, key: T -> seq<int>): (r: seq<T>)
    ensures |r| == |s|
    ensures multiset(r) == multiset(s)
  {
    if s == [] then []
    else
      assert s == [s[0]] + s[1..];
      Insert(s[0], SortBy(s[1..], key), key)
  }

  /** A sorted tail behind a head no greater than any of its elements is sorted. */
  lemma ConsSorted<T>(h: T, t: seq<T>, key: T -> seq<int>)
    requires SortedBy(t, key)
    requires forall j :: 0 <= j < |t| ==> LexLeq(key(h), key(t[j]))
    ensures SortedBy([h] + t, key)
  {
    var r := [h] + t;
    forall i, j | 0 <= i < j < |r|
      ensures LexLeq(key(r[i]), key(r[j]))
    {
      assert r[j] == t[j - 1];
      if i > 0 { assert r[i] == t[i - 1]; }
    }
  }

  /** Every element of the insertion is `x` or an element of `s`. */
  lemma {:induction false} InsertElements<T>(x: T, s: seq<T>, key: T -> seq<int>)
    ensures forall j :: 0 <= j < |Insert(x, s, key)| ==>
      Insert(x, s, key)[j] == x || exists k :: 0 <= k < |s| && s[k] == Insert(x, s, key)[j]
    decreases |s|
  {
    if s != [] && !LexLeq(key(x), key(s[0])) {
      InsertElements(x, s[1..], key);
      var t := Insert(x, s[1..], key);
      forall j | 0 <= j < |t| + 1
        ensures ([s[0]] + t)[j] == x || exists k :: 0 <= k < |s| && s[k] == ([s[0]] + t)[j]
      {
        if j == 0 {
          assert s[0] == ([s[0]] + t)[0];
        } else if t[j - 1] != x {
          var k :| 0 <= k < |s[1..]| && s[1..][k] == t[j - 1];
          assert s[k + 1] == ([s[0]] + t)[j];
        }
      }
    } else if s != [] {
      forall j | 0 <= j < |s| + 1
        ensures ([x] + s)[j] == x || exists k :: 0 <= k < |s| && s[k] == ([x] + s)[j]
      {
        if j > 0 { assert s[j - 1] == ([x] + s)[j]; }
      }
    }
  }

  lemma {:induction false} InsertSorted<T>(x: T, s: seq<T>, key: T -> seq<int>)
    requires SortedBy(s, key)
    ensures SortedBy(Insert(x, s, key), key)
    decreases |s|
  {
    if s != [] {
      if LexLeq(key(x), key(s[0])) {
        forall j | 0 <= j < |s|
          ensures LexLeq(key(x), key(s[j]))
        {
          if j > 0 { LexTransitive(key(x), key(s[0]), key(s[j])); }
        }
        ConsSorted(x, s, key);
      } else {
        LexTotal(key(x), key(s[0]));
        assert SortedBy(s[1..], key);
        InsertSorted(x, s[1..], key);
        var t := Insert(x, s[1..], key);
        InsertElements(x, s[1..], key);
        forall j | 0 <= j < |t|
          ensures LexLeq(key(s[0]), key(t[j]))
        {
          if t[j] != x {
            var k :| 0 <= k < |s[1..]| && s[1..][k] == t[j];
            assert s[k + 1] == t[j];
          }
        }
        ConsSorted(s[0], t, key);
      }
    }
  }

  /** The sorted sequence is ordered by the key. */
  lemma {:induction false} SortBySorted<T>(s: seq<T>, key: T -> seq<int>)
    ensures SortedBy(SortBy(s, key), key)
    decreases |s|
  {
    if s != [] {
      SortBySorted(s[1..], key);
      InsertSorted(s[0], SortBy(s[1..], key), key);
    }
  }

  /** Inserting `x` adds it, at the front, to the elements of its own key and
      leaves the elements of every other key as they were. */
  lemma {:induction false} InsertFilter<T>(x: T, s: seq<T>, key: T -> seq<int>, k: seq<int>)
    ensures Filter(Insert(x, s, key), y => key(y) == k) ==
            (if key(x) == k then [x] else []) + Filter(s, y => key(y) == k)
    decreases |s|
  {
    var p := y => key(y) == k;
    if s == [] {
      assert Insert(x, s, key) == [x];
    } else if LexLeq(key(x), key(s[0])) {
      FilterAppend([x], s, p);
      assert Filter([x], p) == (if key(x) == k then [x] else []) by {
        assert [x][1..] == [];
      }
    } else {
      InsertFilter(x, s[1..], key, k);
      LexReflexive(key(x));
      assert key(s[0]) != key(x);
      var t := Insert(x, s[1..], key);
      assert Insert(x, s, key) == [s[0]] + t;
      assert ([s[0]] + t)[1..] == t;
    }
  }

  /** The sort is stable: the elements that share a key keep their order. */
  lemma {:induction false} SortByStable<T>(s: seq<T>, key: T -> seq<int>, k: seq<int>)
    ensures Filter(SortBy(s, key), y => key(y) == k) == Filter(s, y => key(y) == k)
    decreases |s|
  {
    if s != [] {
      SortByStable(s[1..], key, k);
      InsertFilter(s[0], SortBy(s[1..], key), key, k);
    }
  }

  /** A key that is the same for every element (a comparator that always
      returns 0) leaves the order alone. */
  lemma {:induction false} SortByConstant<T>(s: seq<T>, key: T -> seq<int>, k: seq<int>)
    requires forall i :: 0 <= i < |s| ==> key(s[i]) == k
    ensures SortBy(s, key) == s
    decreases |s|
  {
    if s != [] {
      SortByConstant(s[1..], key, k);
      LexReflexive(k);
      if s[1..] != [] {
        assert key(s[1..][0]) == k;
      }
      assert [s[0]] + s[1..] == s;
    }
  }

  /** `x` goes behind a block of strictly smaller keys and in front of a block
      whose first key it does not exceed. */
  lemma {:induction false} InsertBetween<T>(x: T, a: seq<T>, b: seq<T>, key: T -> seq<int>)
    requires forall i :: 0 <= i < |a| ==> !LexLeq(key(x), key(a[i]))
    requires b == [] || LexLeq(key(x), key(b[0]))
    ensures Insert(x, a + b, key) == a + [x] + b
    decreases |a|
  {
    if a == [] {
      assert a + b == b;
    } else {
      assert (a + b)[0] == a[0];
      assert (a + b)[1..] == a[1..] + b;
      InsertBetween(x, a[1..], b, key);
      assert a + [x] + b == [a[0]] + (a[1..] + [x] + b);
    }
  }

  /** With two keys only, the sort puts every element of the smaller key, in
      their original order, in front of every element of the larger one;
      `low` and `high` test for the two keys. */
  lemma {:induction false} SortByTwoKeys<T>(s: seq<T>, key: T -> seq<int>, lo: seq<int>, hi: seq<int>, low: T -> bool, high: T -> bool)
    requires !LexLeq(hi, lo)
    requires forall x :: key(x) == lo || key(x) == hi
    requires forall x :: low(x) == (key(x) == lo)
    requires forall x :: high(x) == (key(x) == hi)
    ensures SortBy(s, key) == Filter(s, low) + Filter(s, high)
    decreases |s|
  {
    if s != [] {
      var t := s[1..];
      SortByTwoKeys(t, key, lo, hi, low, high);
      LexReflexive(lo);
      assert lo != hi;
      assert SortBy(s, key) == Insert(s[0], Filter(t, low) + Filter(t, high), key);
      assert Filter(s, low) == (if low(s[0]) then [s[0]] else []) + Filter(t, low);
      assert Filter(s, high) == (if high(s[0]) then [s[0]] else []) + Filter(t, high);
      InsertIntoTwoBlocks(s[0], Filter(t, low), Filter(t, high), key, lo, hi);
    }
  }

  /** One insertion into a sequence sorted into a block of each key. */
  lemma InsertIntoTwoBlocks<T>(x: T, low: seq<T>, high: seq<T>, key: T -> seq<int>, lo: seq<int>, hi: seq<int>)
    requires !LexLeq(hi, lo)
    requires forall i :: 0 <= i < |low| ==> key(low[i]) == lo
    requires forall i :: 0 <= i < |high| ==> key(high[i]) == hi
    requires key(x) == lo || key(x) == hi
    ensures Insert(x, low + high, key) ==
      ((if key(x) == lo then [x] else []) + low) + ((if key(x) == hi then [x] else []) + high)
  {
    LexReflexive(lo);
    LexTotal(lo, hi);
    if key(x) == lo {
      assert key(x) != hi;
      InsertIntoLowBlock(x, low, high, key, lo, hi);
      Regroup(low, x, high);
    } else {
      InsertIntoHighBlock(x, low, high, key, lo, hi);
      Regroup(low, x, high);
    }
  }

  lemma InsertIntoLowBlock<T>(x: T, low: seq<T>, high: seq<T>, key: T -> seq<int>, lo: seq<int>, hi: seq<int>)
    requires LexLeq(lo, hi)
    requires forall i :: 0 <= i < |low| ==> key(low[i]) == lo
    requires forall i :: 0 <= i < |high| ==> key(high[i]) == hi
    requires key(x) == lo
    ensures Insert(x, low + high, key) == ([x] + low) + high
  {
    LexReflexive(lo);
    assert low + high == [] || LexLeq(lo, key((low + high)[0])) by {
      if low != [] {
        assert (low + high)[0] == low[0];
      } else if high != [] {
        assert (low + high)[0] == high[0];
      }
    }
    var both := low + high;
    InsertBetween(x, [], both, key);
    assert [] + both == both;
    Regroup(low, x, high);
  }

  /** The regroupings of a two-block insertion. */
  lemma Regroup<T>(low: seq<T>, x: T, high: seq<T>)
    ensures low + [x] + high == ([] + low) + ([x] + high)
    ensures [] + [x] + (low + high) == ([x] + low) + high == ([x] + low) + ([] + high)
  {
  }

  lemma InsertIntoHighBlock<T>(x: T, low: seq<T>, high: seq<T>, key: T -> seq<int>, lo: seq<int>, hi: seq<int>)
    requires !LexLeq(hi, lo)
    requires forall i :: 0 <= i < |low| ==> key(low[i]) == lo
    requires forall i :: 0 <= i < |high| ==> key(high[i]) == hi
    requires key(x) == hi
    ensures Insert(x, low + high, key) == low + [x] + high
  {
    LexReflexive(hi);
    assert high == [] || LexLeq(key(x), key(high[0]));
    assert forall i :: 0 <= i < |low| ==> !LexLeq(key(x), key(low[i]));
    InsertBetween(x, low, high, key);
  }

  /** Reordering keeps the total of any column. */
  lemma {:induction false} InsertSum<T>(x: T, s: seq<T>, key: T -> seq<int>, f: T -> int)
    ensures SumBy(Insert(x, s, key), f) == f(x) + SumBy(s, f)
    decreases |s|
  {
    if s != [] && !LexLeq(key(x), key(s[0])) {
      InsertSum(x, s[1..], key, f);
      var t := Insert(x, s[1..], key);
      assert ([s[0]] + t)[1..] == t;
    } else if s != [] {
      assert ([x] + s)[1..] == s;
    }
  }

  lemma {:induction false} SortBySum<T>(s: seq<T>, key: T -> seq<int>, f: T -> int)
    ensures SumBy(SortBy(s, key), f) == SumBy(s, f)
    decreases |s|
  {
    if s != [] {
      SortBySum(s[1..], key, f);
      InsertSum(s[0], SortBy(s[1..], key), key, f);
    }
  }

  /** No two elements share a property `f`. */
  predicate DistinctBy<T, U(==)>(s: seq<T>, f: T -> U) {
    forall a, b :: 0 <= a < b < |s| ==> f(s[a]) != f(s[b])
  }

  lemma {:induction false} InsertDistinct<T, U>(x: T, s: seq<T>, key: T -> seq<int>, f: T -> U)
    requires DistinctBy(s, f)
    requires forall k :: 0 <= k < |s| ==> f(s[k]) != f(x)
    ensures DistinctBy(Insert(x, s, key), f)
    decreases |s|
  {
    if s != [] && !LexLeq(key(x), key(s[0])) {
      assert DistinctBy(s[1..], f);
      InsertDistinct(x, s[1..], key, f);
      InsertElements(x, s[1..], key);
      var t := Insert(x, s[1..], key);
      forall j | 0 <= j < |t|
        ensures f(s[0]) != f(t[j])
      {
        if t[j] != x {
          var k :| 0 <= k < |s[1..]| && s[1..][k] == t[j];
          assert s[k + 1] == t[j];
        }
      }
      assert forall a, b :: 0 < a < b < |t| + 1 ==> ([s[0]] + t)[a] == t[a - 1] && ([s[0]] + t)[b] == t[b - 1];
    } else if s != [] {
      assert forall a, b :: 0 < a < b < |s| + 1 ==> ([x] + s)[a] == s[a - 1] && ([x] + s)[b] == s[b - 1];
    }
  }

  /** Sorting keeps a property that no two elements share unshared. */
  lemma {:induction false} SortByDistinct<T, U>(s: seq<T>, key: T -> seq<int>, f: T -> U)
    requires DistinctBy(s, f)
    ensures DistinctBy(SortBy(s, key), f)
    decreases |s|
  {
    if s != [] {
      assert DistinctBy(s[1..], f);
      SortByDistinct(s[1..], key, f);
      var t := SortBy(s[1..], key);
      forall k | 0 <= k < |t|
        ensures f(t[k]) != f(s[0])
      {
        assert t[k] in multiset(t);
        assert t[k] in s[1..];
        var i :| 0 <= i < |s[1..]| && s[1..][i] == t[k];
        assert s[i + 1] == t[k];
      }
      InsertDistinct(s[0], t, key, f);
    }
  }

  /** The sort key of a text: its character codes, in order. */
  function CharCodes(s: string): (r: seq<int>)
    ensures |r| == |s|
    ensures forall i :: 0 <= i < |s| ==> r[i] == s[i] as int
  {
    if s == [] then [] else [s[0] as int] + CharCodes(s[1..])
  }
}
