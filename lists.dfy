/**
 * List building as the catalog and comparison code does it: a loop that
 * appends f(x) for every x that passes a test, and Python's `s[:n]`.
 */
module Lists {

  /** [f(x) for x in s if keep(x)], built front to back. */
  function FilterMap<A, B>(s: seq<A>, keep: A -> bool, f: A -> B): (r: seq<B>)
    ensures |r| <= |s|
  {
    if |s| == 0 then []
    else FilterMap(s[..|s| - 1], keep, f) + (if keep(s[|s| - 1]) then [f(s[|s| - 1])] else [])
  }

  /** Appending one more element extends the result by at most that element's image. */
  lemma FilterMapSnoc<A, B>(s: seq<A>, x: A, keep: A -> bool, f: A -> B)
    ensures FilterMap(s + [x], keep, f) == FilterMap(s, keep, f) + (if keep(x) then [f(x)] else [])
  {
    assert (s + [x])[..|s|] == s;
  }

  /** The input order is kept: the images from a come before those from b. */
  lemma {:induction false} FilterMapAppend<A, B>(a: seq<A>, b: seq<A>, keep: A -> bool, f: A -> B)
    ensures FilterMap(a + b, keep, f) == FilterMap(a, keep, f) + FilterMap(b, keep, f)
    decreases |b|
  {
    if |b| == 0 {
      assert a + b == a;
    } else {
      var b' := b[..|b| - 1];
      var x := b[|b| - 1];
      assert a + b == (a + b') + [x];
      assert b == b' + [x];
      FilterMapAppend(a, b', keep, f);
      FilterMapSnoc(a + b', x, keep, f);
      FilterMapSnoc(b', x, keep, f);
    }
  }

  /** Exactly the images of the kept elements are in the result. */
  lemma {:induction false} FilterMapMembers<A, B>(s: seq<A>, keep: A -> bool, f: A -> B, y: B)
    ensures y in FilterMap(s, keep, f) <==> exists i :: 0 <= i < |s| && keep(s[i]) && f(s[i]) == y
  {
    if |s| > 0 {
      var s' := s[..|s| - 1];
      FilterMapMembers(s', keep, f, y);
      if y in FilterMap(s, keep, f) && y !in FilterMap(s', keep, f) {
        assert keep(s[|s| - 1]) && f(s[|s| - 1]) == y;
      }
      if exists i :: 0 <= i < |s| && keep(s[i]) && f(s[i]) == y {
        var i :| 0 <= i < |s| && keep(s[i]) && f(s[i]) == y;
        if i < |s| - 1 {
          assert s'[i] == s[i];
        }
      }
    }
  }

  /** Every element of the result is the image of a kept element. */
  lemma FilterMapSound<A, B>(s: seq<A>, keep: A -> bool, f: A -> B)
    ensures forall y :: y in FilterMap(s, keep, f) ==> exists i :: 0 <= i < |s| && keep(s[i]) && f(s[i]) == y
  {
    forall y | y in FilterMap(s, keep, f)
      ensures exists i :: 0 <= i < |s| && keep(s[i]) && f(s[i]) == y
    {
      FilterMapMembers(s, keep, f, y);
    }
  }

  /** A three-element list keeps the images of its kept elements, in order. */
  lemma FilterMapThree<A, B>(a: A, b: A, c: A, keep: A -> bool, f: A -> B)
    ensures FilterMap([a, b, c], keep, f) ==
      (if keep(a) then [f(a)] else []) + (if keep(b) then [f(b)] else []) + (if keep(c) then [f(c)] else [])
  {
    FilterMapSnoc([], a, keep, f);
    assert [] + [a] == [a];
    FilterMapSnoc([a], b, keep, f);
    assert [a] + [b] == [a, b];
    FilterMapSnoc([a, b], c, keep, f);
    assert [a, b] + [c] == [a, b, c];
  }

  /** Of three elements whose first and last are kept, the middle one alone may be dropped. */
  lemma FilterMapEnds<A, B>(a: A, b: A, c: A, keep: A -> bool, f: A -> B)
    requires keep(a) && keep(c)
    ensures FilterMap([a, b, c], keep, f) == if keep(b) then [f(a), f(b), f(c)] else [f(a), f(c)]
  {
    FilterMapThree(a, b, c, keep, f);
  }

  /** s.index(x) for an element that is present: its first position. */
  function IndexOf<T(==)>(s: seq<T>, x: T): (k: nat)
    requires x in s
    ensures k < |s| && s[k] == x
    ensures forall i :: 0 <= i < k ==> s[i] != x
  {
    if s[0] == x then 0 else 1 + IndexOf(s[1..], x)
  }

  /** Python's s[:n]: the first n elements, or for negative n all but the last -n. */
  function Take<T>(s: seq<T>, n: int): (r: seq<T>)
    ensures n >= 0 ==> |r| == if n <= |s| then n else |s|
    ensures n < 0 ==> |r| == if |s| + n >= 0 then |s| + n else 0
    ensures r == s[..|r|]
  {
    if n >= 0 then (if n <= |s| then s[..n] else s)
    else if |s| + n >= 0 then s[..|s| + n]
    else []
  }
}
