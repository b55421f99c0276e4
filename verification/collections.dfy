/** Sequence operations the application performs through JavaScript's array
    methods: `filter`, a `reduce` sum, keeping the first occurrence of each
    value, and the stable `sort` with a numeric comparator. */
module Collections {

  /** `s.filter(p)`. */
  function Filter<T>(s: seq<T>, p: T -> bool): (r: seq<T>)
    ensures |r| <= |s|
    ensures forall i :: 0 <= i < |r| ==> p(r[i])
  {
    if s == [] then [] else (if p(s[0]) then [s[0]] else []) + Filter(s[1..], p)
  }

  /** `Filter` keeps exactly the elements that satisfy `p`. */
  lemma {:induction false} FilterMembers<T>(s: seq<T>, p: T -> bool)
    ensures forall x :: x in Filter(s, p) <==> x in s && p(x)
  {
    if s != [] {
      FilterMembers(s[1..], p);
      assert s == [s[0]] + s[1..];
    }
  }

  lemma {:induction false} FilterAppend<T>(s: seq<T>, t: seq<T>, p: T -> bool)
    ensures Filter(s + t, p) == Filter(s, p) + Filter(t, p)
  {
    if s == [] {
      assert s + t == t;
    } else {
      assert (s + t)[0] == s[0] && (s + t)[1..] == s[1..] + t;
      FilterAppend(s[1..], t, p);
    }
  }

  /** `s.reduce((sum, x) => sum + w(x), 0)` on exact integers. */
  function SumBy<T>(s: seq<T>, w: T -> int): int {
    if s == [] then 0 else w(s[0]) + SumBy(s[1..], w)
  }

  lemma {:induction false} SumAppend<T>(s: seq<T>, t: seq<T>, w: T -> int)
    ensures SumBy(s + t, w) == SumBy(s, w) + SumBy(t, w)
  {
    if s == [] {
      assert s + t == t;
    } else {
      assert (s + t)[0] == s[0] && (s + t)[1..] == s[1..] + t;
      SumAppend(s[1..], t, w);
    }
  }

  function MapSeq<T, U>(s: seq<T>, f: T -> U): (r: seq<U>)
    ensures |r| == |s| && forall i :: 0 <= i < |s| ==> r[i] == f(s[i])
  {
    if s == [] then [] else [f(s[0])] + MapSeq(s[1..], f)
  }

  ghost predicate NoDuplicates<T>(s: seq<T>) {
    forall i, j :: 0 <= i < j < |s| ==> s[i] != s[j]
  }

  /** No two elements share the same `f`-value. */
  ghost predicate DistinctBy<T, K>(s: seq<T>, f: T -> K) {
    forall i, j :: 0 <= i < j < |s| ==> f(s[i]) != f(s[j])
  }

  /** Index of the first occurrence of `x` in `s`. */
  function IndexOf<T(==)>(s: seq<T>, x: T): (i: nat)
    requires x in s
    ensures i < |s| && s[i] == x && x !in s[..i]
  {
    if s[0] == x then 0 else 1 + IndexOf(s[1..], x)
  }

  /** The values of `s` in the order of their first occurrence, each once:
      the result of pushing each value onto a list unless the list already
      `includes` it. */
  function Dedup<T(==)>(s: seq<T>): (r: seq<T>)
    ensures NoDuplicates(r)
    ensures forall i :: 0 <= i < |r| ==> r[i] in s
  {
    if s == [] then []
    else
      var d := Dedup(s[..|s| - 1]);
      var x := s[|s| - 1];
      assert forall i :: 0 <= i < |s| - 1 ==> s[i] == s[..|s| - 1][i];
      if x in d then d else d + [x]
  }

  /** `Dedup` drops no value and adds none. */
  lemma {:induction false} DedupMembers<T>(s: seq<T>)
    ensures forall x :: x in Dedup(s) <==> x in s
  {
    if s != [] {
      var init := s[..|s| - 1];
      DedupMembers(init);
      assert s == init + [s[|s| - 1]];
    }
  }

  /** `Dedup` keeps first-appearance order. */
  lemma {:induction false} DedupOrder<T>(s: seq<T>)
    ensures forall i, j :: 0 <= i < j < |Dedup(s)| ==> IndexOf(s, Dedup(s)[i]) < IndexOf(s, Dedup(s)[j])
  {
    if s != [] {
      var init, x := s[..|s| - 1], s[|s| - 1];
      DedupOrder(init);
      DedupMembers(init);
      var d := Dedup(init);
      assert s == init + [x];
      forall y | y in init ensures IndexOf(s, y) == IndexOf(init, y) {
        IndexOfAppend(init, [x], y);
      }
      if x !in d {
        assert x !in init;
        assert IndexOf(s, x) == |init| by {
          assert s[..|init|] == init;
        }
      }
    }
  }

  lemma {:induction false} IndexOfAppend<T>(s: seq<T>, t: seq<T>, x: T)
    requires x in s
    ensures IndexOf(s + t, x) == IndexOf(s, x)
  {
    if s[0] != x {
      assert (s + t)[1..] == s[1..] + t;
      IndexOfAppend(s[1..], t, x);
    }
  }

  // ---------------------------------------------------------------------------
  // Stable sort by an integer key
  // ---------------------------------------------------------------------------

  ghost predicate SortedBy<T>(s: seq<T>, key: T -> int) {
    forall i, j :: 0 <= i < j < |s| ==> key(s[i]) <= key(s[j])
  }

  /** The elements whose key is `v`. */
  function KeyIs<T>(key: T -> int, v: int): T -> bool {
    x => key(x) == v
  }

  /** Inserts `x` after every element whose key is not greater than its own. */
  function InsertBy<T>(x: T, s: seq<T>, key: T -> int): (r: seq<T>)
    ensures multiset(r) == multiset(s) + multiset{x}
  {
    if s == [] then [x]
    else if key(x) < key(s[0]) then [x] + s
    else
      assert s == [s[0]] + s[1..];
      [s[0]] + InsertBy(x, s[1..], key)
  }

  lemma {:induction false} InsertBySorted<T>(x: T, s: seq<T>, key: T -> int)
    requires SortedBy(s, key)
    ensures SortedBy(InsertBy(x, s, key), key)
  {
    if s != [] && key(x) >= key(s[0]) {
      InsertBySorted(x, s[1..], key);
      var rest := InsertBy(x, s[1..], key);
      forall i | 0 <= i < |rest| ensures key(s[0]) <= key(rest[i]) {
        assert rest[i] in multiset(s[1..]) + multiset{x};
        if rest[i] != x {
          assert rest[i] in s[1..];
        }
      }
    }
  }

  /** A stable sort ascending by `key`, as `Array.prototype.sort` does with
      the comparator `(a, b) => key(a) - key(b)`: insertion sort, each element
      in input order placed after the equal ones before it. */
  function SortBy<T>(s: seq<T>, key: T -> int): (r: seq<T>)
    ensures SortedBy(r, key)
    ensures multiset(r) == multiset(s)
  {
    if s == [] then []
    else
      assert s == s[..|s| - 1] + [s[|s| - 1]];
      var sorted := SortBy(s[..|s| - 1], key);
      InsertBySorted(s[|s| - 1], sorted, key);
      InsertBy(s[|s| - 1], sorted, key)
  }

  lemma {:induction false} FilterSortedAbove<T>(s: seq<T>, key: T -> int, v: int)
    requires SortedBy(s, key) && (s == [] || v < key(s[0]))
    ensures Filter(s, KeyIs(key, v)) == []
  {
    if s != [] {
      FilterSortedAbove(s[1..], key, v);
    }
  }

  lemma {:induction false} InsertByFilter<T>(x: T, s: seq<T>, key: T -> int, v: int)
    requires SortedBy(s, key)
    ensures Filter(InsertBy(x, s, key), KeyIs(key, v))
         == Filter(s, KeyIs(key, v)) + Filter([x], KeyIs(key, v))
  {
    var p := KeyIs(key, v);
    if s == [] {
      assert InsertBy(x, s, key) == [x];
      assert s + [x] == [x];
    } else if key(x) < key(s[0]) {
      InsertByFilterFront(x, s, key, v);
    } else {
      InsertByFilter(x, s[1..], key, v);
      assert InsertBy(x, s, key) == [s[0]] + InsertBy(x, s[1..], key);
      FilterBehindHead(s, InsertBy(x, s[1..], key), Filter([x], p), p);
    }
  }

  /** Putting the head back in front of both sides keeps a filtered equation. */
  lemma FilterBehindHead<T>(s: seq<T>, rest: seq<T>, tail: seq<T>, p: T -> bool)
    requires s != [] && Filter(rest, p) == Filter(s[1..], p) + tail
    ensures Filter([s[0]] + rest, p) == Filter(s, p) + tail
  {
    var h := Filter([s[0]], p);
    calc {
      Filter([s[0]] + rest, p);
    == { FilterAppend([s[0]], rest, p); }
      h + Filter(rest, p);
      h + (Filter(s[1..], p) + tail);
      (h + Filter(s[1..], p)) + tail;
    == { FilterAppend([s[0]], s[1..], p); assert [s[0]] + s[1..] == s; }
      Filter(s, p) + tail;
    }
  }

  /** An element placed in front of larger keys goes ahead of no element with its own key. */
  lemma {:induction false} InsertByFilterFront<T>(x: T, s: seq<T>, key: T -> int, v: int)
    requires SortedBy(s, key) && s != [] && key(x) < key(s[0])
    ensures Filter(InsertBy(x, s, key), KeyIs(key, v))
         == Filter(s, KeyIs(key, v)) + Filter([x], KeyIs(key, v))
  {
    var p := KeyIs(key, v);
    assert InsertBy(x, s, key) == [x] + s;
    FilterAppend([x], s, p);
    assert Filter([x], p) == if key(x) == v then [x] else [];
    if key(x) == v {
      FilterSortedAbove(s, key, v);
    } else {
      assert Filter([x], p) == [];
    }
  }

  /** Stability: the elements of any one key keep their relative order. */
  lemma {:induction false} SortByStable<T>(s: seq<T>, key: T -> int, v: int)
    ensures Filter(SortBy(s, key), KeyIs(key, v)) == Filter(s, KeyIs(key, v))
  {
    if s != [] {
      var init, x, p := s[..|s| - 1], s[|s| - 1], KeyIs(key, v);
      calc {
        Filter(SortBy(s, key), p);
        Filter(InsertBy(x, SortBy(init, key), key), p);
      == { InsertByFilter(x, SortBy(init, key), key, v); }
        Filter(SortBy(init, key), p) + Filter([x], p);
      == { SortByStable(init, key, v); }
        Filter(init, p) + Filter([x], p);
      == { FilterAppend(init, [x], p); assert s == init + [x]; }
        Filter(s, p);
      }
    }
  }

  lemma {:induction false} InsertBySum<T>(x: T, s: seq<T>, key: T -> int, w: T -> int)
    requires SortedBy(s, key)
    ensures SumBy(InsertBy(x, s, key), w) == w(x) + SumBy(s, w)
  {
    if s != [] && key(x) >= key(s[0]) {
      InsertBySum(x, s[1..], key, w);
      assert ([s[0]] + InsertBy(x, s[1..], key))[1..] == InsertBy(x, s[1..], key);
    }
  }

  /** Sorting does not change a sum over the elements. */
  lemma {:induction false} SortBySum<T>(s: seq<T>, key: T -> int, w: T -> int)
    ensures SumBy(SortBy(s, key), w) == SumBy(s, w)
  {
    if s != [] {
      var init, x := s[..|s| - 1], s[|s| - 1];
      SortBySum(init, key, w);
      InsertBySum(x, SortBy(init, key), key, w);
      assert s == init + [x];
      SumAppend(init, [x], w);
    }
  }

  lemma {:induction false} InsertByDistinct<T, K>(x: T, s: seq<T>, key: T -> int, f: T -> K)
    requires DistinctBy(s, f)
    requires forall i :: 0 <= i < |s| ==> f(s[i]) != f(x)
    ensures DistinctBy(InsertBy(x, s, key), f)
  {
    if s != [] && key(x) >= key(s[0]) {
      InsertByDistinct(x, s[1..], key, f);
      var rest := InsertBy(x, s[1..], key);
      forall i | 0 <= i < |rest| ensures f(s[0]) != f(rest[i]) {
        assert rest[i] in multiset(s[1..]) + multiset{x};
        if rest[i] != x {
          assert rest[i] in s[1..];
        }
      }
      assert InsertBy(x, s, key) == [s[0]] + rest;
    }
  }

  /** Sorting keeps elements distinct in any projection. */
  lemma {:induction false} SortByDistinct<T, K>(s: seq<T>, key: T -> int, f: T -> K)
    requires DistinctBy(s, f)
    ensures DistinctBy(SortBy(s, key), f)
  {
    if s != [] {
      var init, x := s[..|s| - 1], s[|s| - 1];
      SortByDistinct(init, key, f);
      var sorted := SortBy(init, key);
      forall i | 0 <= i < |sorted| ensures f(sorted[i]) != f(x) {
        assert sorted[i] in multiset(init);
      }
      InsertByDistinct(x, sorted, key, f);
    }
  }
}
