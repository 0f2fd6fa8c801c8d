/** The stable comparison sort of `Array.prototype.sort` (ECMAScript 2019
    and later), for a comparator that is a total preorder. A stable sort's
    output is fixed by two facts: it is ordered, and within every class of
    mutually equivalent elements it keeps the input order. */
module StableSort {
  import opened Seqs

  /** `le(a, b)` plays the role of `compare(a, b) <= 0`. */
  ghost predicate TotalPreorder<T(!new)>(le: (T, T) -> bool)
  {
    && (forall a, b :: le(a, b) || le(b, a))
    && (forall a, b, c :: le(a, b) && le(b, c) ==> le(a, c))
  }

  predicate Sorted<T>(s: seq<T>, le: (T, T) -> bool)
  {
    forall i, j :: 0 <= i < j < |s| ==> le(s[i], s[j])
  }

  /** Membership in the equivalence class of `k`. */
  function EquivTo<T>(le: (T, T) -> bool, k: T): T -> bool
  {
    x => le(x, k) && le(k, x)
  }

  /** `r` with `x` placed after every element not above it. */
  function Insert<T>(r: seq<T>, x: T, le: (T, T) -> bool): seq<T>
  {
    if |r| == 0 then [x]
    else if le(r[|r| - 1], x) then r + [x]
    else Insert(r[..|r| - 1], x, le) + [r[|r| - 1]]
  }

  /** Insertion sort, taking the elements in input order. */
  function Sort<T(==,!new)>(s: seq<T>, le: (T, T) -> bool): (r: seq<T>)
    requires TotalPreorder(le)
    ensures Sorted(r, le)
    ensures multiset(r) == multiset(s)
  {
    if |s| == 0 then []
    else
      var r := Sort(s[..|s| - 1], le);
      InsertSorted(r, s[|s| - 1], le);
      InsertPermutes(r, s[|s| - 1], le);
      assert s == s[..|s| - 1] + [s[|s| - 1]];
      Insert(r, s[|s| - 1], le)
  }

  lemma {:induction false} InsertPermutes<T>(r: seq<T>, x: T, le: (T, T) -> bool)
    ensures multiset(Insert(r, x, le)) == multiset(r) + multiset{x}
    decreases |r|
  {
    if |r| > 0 && !le(r[|r| - 1], x) {
      InsertPermutes(r[..|r| - 1], x, le);
      assert r == r[..|r| - 1] + [r[|r| - 1]];
    }
  }

  lemma {:induction false} InsertSorted<T(!new)>(r: seq<T>, x: T, le: (T, T) -> bool)
    requires TotalPreorder(le) && Sorted(r, le)
    ensures Sorted(Insert(r, x, le), le)
    decreases |r|
  {
    if |r| > 0 && !le(r[|r| - 1], x) {
      var r' := r[..|r| - 1];
      var last := r[|r| - 1];
      InsertSorted(r', x, le);
      InsertPermutes(r', x, le);
      var q := Insert(r', x, le);
      forall i | 0 <= i < |q|
        ensures le(q[i], last)
      {
        assert q[i] in multiset(q);
        if q[i] != x {
          assert q[i] in multiset(r');
        }
      }
    }
  }

  /** Inserting an element adds it at the end of its equivalence class. */
  lemma {:induction false} InsertFilter<T>(r: seq<T>, x: T, le: (T, T) -> bool, k: T)
    requires forall y :: y in r && !le(y, x) ==> !(EquivTo(le, k)(x) && EquivTo(le, k)(y))
    ensures Filter(Insert(r, x, le), EquivTo(le, k)) == Filter(r, EquivTo(le, k)) + Filter([x], EquivTo(le, k))
    decreases |r|
  {
    var p := EquivTo(le, k);
    if |r| == 0 {
      assert Insert(r, x, le) == [x];
    } else if le(r[|r| - 1], x) {
      assert Insert(r, x, le) == r + [x];
      FilterAppend(r, [x], p);
    } else {
      var r' := r[..|r| - 1];
      var last := r[|r| - 1];
      var q := Insert(r', x, le);
      assert Insert(r, x, le) == q + [last];
      InsertFilter(r', x, le, k);
      FilterAppend(q, [last], p);
      FilterAppend(r', [last], p);
      assert r' + [last] == r;
    }
  }

  /** Two elements out of order are never in the same equivalence class. */
  lemma NoTwoOnOppositeSides<T(!new)>(le: (T, T) -> bool, k: T, x: T, y: T)
    requires TotalPreorder(le) && !le(y, x)
    ensures !(EquivTo(le, k)(x) && EquivTo(le, k)(y))
  {
  }

  /** Stability: within each equivalence class the sorted order is the input order. */
  lemma SortIsStable<T(!new)>(s: seq<T>, le: (T, T) -> bool, k: T)
    requires TotalPreorder(le)
    ensures Filter(Sort(s, le), EquivTo(le, k)) == Filter(s, EquivTo(le, k))
  {
    forall x, y ensures OrderedWithinClass(le, k, x, y) {
      if !le(y, x) {
        NoTwoOnOppositeSides(le, k, x, y);
      }
    }
    SortIsInsertAll(s, le);
    InsertAllStable(s, le, k);
  }

  /** The insertions `Sort` performs, without its contract. */
  function InsertAll<T>(s: seq<T>, le: (T, T) -> bool): seq<T>
  {
    if |s| == 0 then [] else Insert(InsertAll(s[..|s| - 1], le), s[|s| - 1], le)
  }

  lemma {:induction false} SortIsInsertAll<T(!new)>(s: seq<T>, le: (T, T) -> bool)
    requires TotalPreorder(le)
    ensures Sort(s, le) == InsertAll(s, le)
    decreases |s|
  {
    if |s| > 0 {
      SortIsInsertAll(s[..|s| - 1], le);
    }
  }

  /** `x` and `y` are never both in the class of `k` with `y` strictly above `x`. */
  predicate OrderedWithinClass<T>(le: (T, T) -> bool, k: T, x: T, y: T)
  {
    !le(y, x) ==> !(EquivTo(le, k)(x) && EquivTo(le, k)(y))
  }

  /** The insertions keep each equivalence class in input order, given that
      no two elements of the class are ever out of order. */
  lemma {:induction false} InsertAllStable<T>(s: seq<T>, le: (T, T) -> bool, k: T)
    requires forall x, y :: OrderedWithinClass(le, k, x, y)
    ensures Filter(InsertAll(s, le), EquivTo(le, k)) == Filter(s, EquivTo(le, k))
    decreases |s|
  {
    if |s| > 0 {
      var s' := s[..|s| - 1];
      var x := s[|s| - 1];
      assert s' + [x] == s;
      InsertAllStable(s', le, k);
      var r := InsertAll(s', le);
      forall y | y in r && !le(y, x)
        ensures !(EquivTo(le, k)(x) && EquivTo(le, k)(y))
      {
        assert OrderedWithinClass(le, k, x, y);
      }
      InsertFilter(r, x, le, k);
      FilterAppend(s', [x], EquivTo(le, k));
    }
  }

  lemma {:induction false} InsertSum<T>(r: seq<T>, x: T, le: (T, T) -> bool, f: T -> int)
    ensures Sum(Insert(r, x, le), f) == Sum(r, f) + f(x)
    decreases |r|
  {
    if |r| == 0 {
      SumSnoc(r, x, f);
      assert r + [x] == [x];
    } else if le(r[|r| - 1], x) {
      SumSnoc(r, x, f);
    } else {
      var r' := r[..|r| - 1];
      var last := r[|r| - 1];
      InsertSum(r', x, le, f);
      SumSnoc(Insert(r', x, le), last, f);
      SumSnoc(r', last, f);
      assert r' + [last] == r;
    }
  }

  lemma SumSnoc<T>(s: seq<T>, x: T, f: T -> int)
    ensures Sum(s + [x], f) == Sum(s, f) + f(x)
  {
    assert (s + [x])[..|s|] == s;
  }

  /** Sorting does not change a sum over the elements. */
  lemma {:induction false} SortSum<T(!new)>(s: seq<T>, le: (T, T) -> bool, f: T -> int)
    requires TotalPreorder(le)
    ensures Sum(Sort(s, le), f) == Sum(s, f)
    decreases |s|
  {
    if |s| > 0 {
      SortSum(s[..|s| - 1], le, f);
      InsertSum(Sort(s[..|s| - 1], le), s[|s| - 1], le, f);
    }
  }

  /** Sorting keeps the elements pairwise distinguishable by `key`. */
  lemma {:induction false} SortKeepsDistinctKeys<T(!new), K>(s: seq<T>, le: (T, T) -> bool, key: T -> K)
    requires TotalPreorder(le)
    requires forall i, j :: 0 <= i < j < |s| ==> key(s[i]) != key(s[j])
    ensures forall i, j :: 0 <= i < j < |Sort(s, le)| ==> key(Sort(s, le)[i]) != key(Sort(s, le)[j])
    decreases |s|
  {
    if |s| > 0 {
      var s' := s[..|s| - 1];
      var x := s[|s| - 1];
      SortKeepsDistinctKeys(s', le, key);
      var r := Sort(s', le);
      forall y | y in r
        ensures key(y) != key(x)
      {
        assert y in multiset(s');
      }
      InsertKeepsDistinctKeys(r, x, le, key);
    }
  }

  lemma {:induction false} InsertKeepsDistinctKeys<T, K>(r: seq<T>, x: T, le: (T, T) -> bool, key: T -> K)
    requires forall i, j :: 0 <= i < j < |r| ==> key(r[i]) != key(r[j])
    requires forall y :: y in r ==> key(y) != key(x)
    ensures forall i, j :: 0 <= i < j < |Insert(r, x, le)| ==> key(Insert(r, x, le)[i]) != key(Insert(r, x, le)[j])
    decreases |r|
  {
    if |r| > 0 && !le(r[|r| - 1], x) {
      var r' := r[..|r| - 1];
      var last := r[|r| - 1];
      InsertKeepsDistinctKeys(r', x, le, key);
      InsertPermutes(r', x, le);
      var q := Insert(r', x, le);
      forall i | 0 <= i < |q|
        ensures key(q[i]) != key(last)
      {
        assert q[i] in multiset(q);
        if q[i] != x {
          assert q[i] in multiset(r');
          var j :| 0 <= j < |r'| && r'[j] == q[i];
          assert r[j] == q[i];
        }
      }
    }
  }
}
