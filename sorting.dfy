/**
 * Python's stable `list.sort(key=...)` and `sorted(set(...))`, as pure
 * functions: a stable insertion sort under a total preorder, and a
 * duplicate-free ascending list under a strict total order.
 */
module Sorting {

  // ----- stable sort under a total preorder -----

  ghost predicate TotalPreorder<T(!new)>(le: (T, T) -> bool) {
    && (forall a, b :: le(a, b) || le(b, a))
    && (forall a, b, c :: le(a, b) && le(b, c) ==> le(a, c))
  }

  predicate SortedBy<T>(s: seq<T>, le: (T, T) -> bool) {
    forall i, j :: 0 <= i < j < |s| ==> le(s[i], s[j])
  }

  /** Elements that compare equal to e: neither sorts before the other. */
  function EquivalentTo<T>(s: seq<T>, e: T, le: (T, T) -> bool): (r: seq<T>)
    ensures |r| <= |s|
  {
    if |s| == 0 then []
    else (if le(s[0], e) && le(e, s[0]) then [s[0]] else []) + EquivalentTo(s[1..], e, le)
  }

  lemma {:induction false} EquivalentToAppend<T>(a: seq<T>, b: seq<T>, e: T, le: (T, T) -> bool)
    ensures EquivalentTo(a + b, e, le) == EquivalentTo(a, e, le) + EquivalentTo(b, e, le)
  {
    if |a| > 0 {
      assert (a + b)[1..] == a[1..] + b;
      EquivalentToAppend(a[1..], b, e, le);
    } else {
      assert a + b == b;
    }
  }

  /** x placed after every element that does not sort strictly after it. */
  function Insert<T>(x: T, t: seq<T>, le: (T, T) -> bool): (r: seq<T>)
    ensures multiset(r) == multiset(t) + multiset{x}
    ensures |r| == |t| + 1
  {
    if |t| == 0 then [x]
    else if !le(t[0], x) then [x] + t
    else
      assert t == [t[0]] + t[1..];
      [t[0]] + Insert(x, t[1..], le)
  }

  /** list.sort(key=...): a stable insertion sort. */
  function StableSort<T>(s: seq<T>, le: (T, T) -> bool): (r: seq<T>)
    ensures multiset(r) == multiset(s)
    ensures |r| == |s|
  {
    if |s| == 0 then []
    else
      assert s == s[..|s| - 1] + [s[|s| - 1]];
      Insert(s[|s| - 1], StableSort(s[..|s| - 1], le), le)
  }

  lemma {:induction false} InsertSorted<T(!new)>(x: T, t: seq<T>, le: (T, T) -> bool)
    requires TotalPreorder(le) && SortedBy(t, le)
    ensures SortedBy(Insert(x, t, le), le)
  {
    if |t| > 0 && le(t[0], x) {
      InsertSorted(x, t[1..], le);
      var r := Insert(x, t[1..], le);
      assert forall y :: y in multiset(r) ==> y == x || y in t[1..];
      forall j | 0 <= j < |r|
        ensures le(t[0], r[j])
      {
        assert r[j] in multiset(r);
      }
    }
  }

  /** Equal-ranking elements keep their relative order when x is inserted. */
  lemma {:induction false} InsertStable<T(!new)>(x: T, t: seq<T>, e: T, le: (T, T) -> bool)
    requires TotalPreorder(le) && SortedBy(t, le)
    ensures EquivalentTo(Insert(x, t, le), e, le)
         == EquivalentTo(t, e, le) + EquivalentTo([x], e, le)
  {
    if |t| == 0 {
    } else if !le(t[0], x) {
      EquivalentToAppend([x], t, e, le);
      if le(x, e) && le(e, x) {
        NoneEquivalent(t, e, le);
      }
    } else {
      InsertStable(x, t[1..], e, le);
      EquivalentToAppend([t[0]], Insert(x, t[1..], le), e, le);
      EquivalentToAppend([t[0]], t[1..], e, le);
      assert [t[0]] + t[1..] == t;
    }
  }

  /** When t is sorted and its head sorts strictly after e, nothing in t is equivalent to e. */
  lemma {:induction false} NoneEquivalent<T(!new)>(t: seq<T>, e: T, le: (T, T) -> bool)
    requires TotalPreorder(le) && SortedBy(t, le)
    requires |t| > 0 && !le(t[0], e)
    ensures EquivalentTo(t, e, le) == []
  {
    if |t| > 1 {
      assert le(t[0], t[1]);
      NoneEquivalent(t[1..], e, le);
    }
  }

  /** The result is sorted, a permutation, and stable: each class of equal keys keeps its input order. */
  lemma {:induction false} StableSortCorrect<T(!new)>(s: seq<T>, le: (T, T) -> bool, e: T)
    requires TotalPreorder(le)
    ensures SortedBy(StableSort(s, le), le)
    ensures multiset(StableSort(s, le)) == multiset(s)
    ensures EquivalentTo(StableSort(s, le), e, le) == EquivalentTo(s, e, le)
  {
    if |s| > 0 {
      var init := s[..|s| - 1];
      StableSortCorrect(init, le, e);
      InsertSorted(s[|s| - 1], StableSort(init, le), le);
      InsertStable(s[|s| - 1], StableSort(init, le), e, le);
      EquivalentToAppend(init, [s[|s| - 1]], e, le);
      assert init + [s[|s| - 1]] == s;
    }
  }

  // ----- sorted(set(...)) under a strict total order -----

  ghost predicate StrictTotalOrder<T(!new)>(lt: (T, T) -> bool) {
    && (forall a :: !lt(a, a))
    && (forall a, b :: a == b || lt(a, b) || lt(b, a))
    && (forall a, b, c :: lt(a, b) && lt(b, c) ==> lt(a, c))
  }

  predicate StrictlySorted<T>(s: seq<T>, lt: (T, T) -> bool) {
    forall i, j :: 0 <= i < j < |s| ==> lt(s[i], s[j])
  }

  /** x added to an ascending list unless already there. */
  function InsertUnique<T(==,!new)>(x: T, t: seq<T>, lt: (T, T) -> bool): (r: seq<T>)
    ensures forall y :: y in r <==> y in t || y == x
  {
    if |t| == 0 then [x]
    else if x == t[0] then t
    else if lt(x, t[0]) then [x] + t
    else
      var rest := InsertUnique(x, t[1..], lt);
      assert t == [t[0]] + t[1..];
      [t[0]] + rest
  }

  /** sorted(set(s)): the distinct elements of s in ascending order. */
  function SortedUnique<T(==,!new)>(s: seq<T>, lt: (T, T) -> bool): (r: seq<T>)
    ensures forall y :: y in r <==> y in s
  {
    if |s| == 0 then []
    else
      assert s == s[..|s| - 1] + [s[|s| - 1]];
      InsertUnique(s[|s| - 1], SortedUnique(s[..|s| - 1], lt), lt)
  }

  lemma {:induction false} InsertUniqueSorted<T(!new)>(x: T, t: seq<T>, lt: (T, T) -> bool)
    requires StrictTotalOrder(lt) && StrictlySorted(t, lt)
    ensures StrictlySorted(InsertUnique(x, t, lt), lt)
  {
    if |t| > 0 && x != t[0] && !lt(x, t[0]) {
      InsertUniqueSorted(x, t[1..], lt);
      var r := InsertUnique(x, t[1..], lt);
      assert lt(t[0], x);
      forall j | 0 <= j < |r|
        ensures lt(t[0], r[j])
      {
        assert r[j] in r;
        if r[j] != x {
          var k :| 0 <= k < |t[1..]| && t[1..][k] == r[j];
          assert t[k + 1] == r[j];
        }
      }
    }
  }

  /** sorted(set(s)) is strictly ascending, hence free of duplicates, and holds exactly the elements of s. */
  lemma {:induction false} SortedUniqueCorrect<T(!new)>(s: seq<T>, lt: (T, T) -> bool)
    requires StrictTotalOrder(lt)
    ensures StrictlySorted(SortedUnique(s, lt), lt)
    ensures forall i, j :: 0 <= i < j < |SortedUnique(s, lt)| ==> SortedUnique(s, lt)[i] != SortedUnique(s, lt)[j]
    ensures forall y :: y in SortedUnique(s, lt) <==> y in s
  {
    if |s| > 0 {
      SortedUniqueCorrect(s[..|s| - 1], lt);
      InsertUniqueSorted(s[|s| - 1], SortedUnique(s[..|s| - 1], lt), lt);
    }
  }

  // ----- the orders Python uses -----

  function IntLess(a: int, b: int): bool {
    a < b
  }

  lemma IntLessIsStrictTotal()
    ensures StrictTotalOrder(IntLess)
  {
  }

  /** Python's `<` on strings: lexicographic by code point, a proper prefix first. */
  predicate StringLess(a: string, b: string) {
    if |a| == 0 then |b| > 0
    else if |b| == 0 then false
    else if a[0] != b[0] then a[0] < b[0]
    else StringLess(a[1..], b[1..])
  }

  lemma {:induction false} StringLessIrreflexive(a: string)
    ensures !StringLess(a, a)
  {
    if |a| > 0 {
      StringLessIrreflexive(a[1..]);
    }
  }

  lemma {:induction false} StringLessTrichotomy(a: string, b: string)
    ensures a == b || StringLess(a, b) || StringLess(b, a)
  {
    if |a| > 0 && |b| > 0 && a[0] == b[0] {
      StringLessTrichotomy(a[1..], b[1..]);
      if a[1..] == b[1..] {
        assert a == [a[0]] + a[1..] && b == [b[0]] + b[1..];
      }
    }
  }

  lemma {:induction false} StringLessTransitive(a: string, b: string, c: string)
    requires StringLess(a, b) && StringLess(b, c)
    ensures StringLess(a, c)
  {
    if |a| > 0 && |b| > 0 && |c| > 0 && a[0] == b[0] && b[0] == c[0] {
      StringLessTransitive(a[1..], b[1..], c[1..]);
    }
  }

  function StringOrder(a: string, b: string): bool {
    StringLess(a, b)
  }

  lemma StringLessIsStrictTotal()
    ensures StrictTotalOrder(StringOrder)
  {
    forall a ensures !StringOrder(a, a) {
      StringLessIrreflexive(a);
    }
    forall a, b ensures a == b || StringOrder(a, b) || StringOrder(b, a) {
      StringLessTrichotomy(a, b);
    }
    forall a, b, c | StringOrder(a, b) && StringOrder(b, c) ensures StringOrder(a, c) {
      StringLessTransitive(a, b, c);
    }
  }
}
