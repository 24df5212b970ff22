/**
 * The two JavaScript array operations the core leans on.
 *
 * `Array.prototype.filter(keep)`: the elements that pass, in their order.
 *
 * `Array.prototype.sort` with a numeric comparator `(a, b) => key(a) - key(b)`:
 * a stable sort into ascending key order. A descending sort, as in
 * `(a, b) => b[1] - a[1]`, is the ascending sort by the negated key.
 */
module Lists {

  function Filter<T>(s: seq<T>, keep: T -> bool): (r: seq<T>)
    ensures |r| <= |s|
    ensures forall x | x in r :: x in s && keep(x)
    ensures (forall x | x in s :: keep(x)) ==> r == s
  {
    if s == [] then []
    else
      var last := s[|s| - 1];
      assert s == s[..|s| - 1] + [last];
      Filter(s[..|s| - 1], keep) + (if keep(last) then [last] else [])
  }

  /** Each element that passes keeps its multiplicity; every other one is gone. */
  lemma {:induction false} FilterCount<T>(s: seq<T>, keep: T -> bool, x: T)
    ensures multiset(Filter(s, keep))[x] == if keep(x) then multiset(s)[x] else 0
  {
    if s != [] {
      var init, last := s[..|s| - 1], s[|s| - 1];
      assert s == init + [last];
      FilterCount(init, keep, x);
    }
  }

  /** Filtering works element by element, so it keeps the survivors in their order. */
  lemma {:induction false} FilterAppend<T>(a: seq<T>, b: seq<T>, keep: T -> bool)
    ensures Filter(a + b, keep) == Filter(a, keep) + Filter(b, keep)
  {
    if b != [] {
      var last := b[|b| - 1];
      assert (a + b)[..|a + b| - 1] == a + b[..|b| - 1];
      FilterAppend(a, b[..|b| - 1], keep);
    } else {
      assert a + b == a;
    }
  }

  lemma {:induction false} FilterKeepsDistinct<T, K>(s: seq<T>, keep: T -> bool, name: T -> K)
    requires DistinctBy(s, name)
    ensures DistinctBy(Filter(s, keep), name)
  {
    if s != [] {
      var init, last := s[..|s| - 1], s[|s| - 1];
      FilterKeepsDistinct(init, keep, name);
      var f := Filter(init, keep);
      forall y | y in f ensures name(y) != name(last) {
        var b :| 0 <= b < |init| && init[b] == y;
        assert s[b] == y;
      }
    }
  }

  ghost predicate SortedBy<T>(s: seq<T>, key: T -> real) {
    forall a, b :: 0 <= a < b < |s| ==> key(s[a]) <= key(s[b])
  }

  /** No two elements share the same `name`. */
  ghost predicate DistinctBy<T, K>(s: seq<T>, name: T -> K) {
    forall a, b :: 0 <= a < b < |s| ==> name(s[a]) != name(s[b])
  }

  /**
   * Places `x` in front of the first element whose key is not smaller, so an
   * element that came earlier in the input stays in front of equal keys.
   */
  function Insert<T>(x: T, t: seq<T>, key: T -> real): (r: seq<T>)
    ensures multiset(r) == multiset(t) + multiset{x}
  {
    if t == [] || key(x) <= key(t[0]) then
      [x] + t
    else
      assert t == [t[0]] + t[1..];
      [t[0]] + Insert(x, t[1..], key)
  }

  lemma {:induction false} InsertSorted<T>(x: T, t: seq<T>, key: T -> real)
    requires SortedBy(t, key)
    ensures SortedBy(Insert(x, t, key), key)
  {
    if t == [] || key(x) <= key(t[0]) {
    } else {
      InsertSorted(x, t[1..], key);
      var rest := Insert(x, t[1..], key);
      forall y | y in rest ensures key(t[0]) <= key(y) {
        assert y in multiset(rest);
        if y != x {
          assert y in t[1..];
        }
      }
      ConsSorted(t[0], rest, key);
    }
  }

  /** A head no larger than anything after it extends a sorted list. */
  lemma ConsSorted<T>(h: T, rest: seq<T>, key: T -> real)
    requires SortedBy(rest, key) && forall y | y in rest :: key(h) <= key(y)
    ensures SortedBy([h] + rest, key)
  {
    var r := [h] + rest;
    forall a, b | 0 <= a < b < |r| ensures key(r[a]) <= key(r[b]) {
      if a == 0 {
        assert r[b] in rest;
      } else {
        assert r[a] == rest[a - 1] && r[b] == rest[b - 1];
      }
    }
  }

  function SortBy<T>(s: seq<T>, key: T -> real): (r: seq<T>)
    ensures SortedBy(r, key)
    ensures multiset(r) == multiset(s)
    ensures |r| == |s|
  {
    if s == [] then []
    else
      assert s == [s[0]] + s[1..];
      InsertSorted(s[0], SortBy(s[1..], key), key);
      Insert(s[0], SortBy(s[1..], key), key)
  }

  lemma {:induction false} InsertKeepsDistinct<T, K>(x: T, t: seq<T>, key: T -> real, name: T -> K)
    requires DistinctBy(t, name)
    requires forall y | y in t :: name(y) != name(x)
    ensures DistinctBy(Insert(x, t, key), name)
  {
    if t == [] || key(x) <= key(t[0]) {
    } else {
      InsertKeepsDistinct(x, t[1..], key, name);
      var rest := Insert(x, t[1..], key);
      forall y | y in rest ensures name(y) != name(t[0]) {
        assert y in multiset(rest);
        if y != x {
          assert y in t[1..];
          var b :| 0 <= b < |t[1..]| && t[1..][b] == y;
          assert t[b + 1] == y;
        }
      }
    }
  }

  /** Sorting never puts two entries of the same name into the list. */
  lemma {:induction false} SortKeepsDistinct<T, K>(s: seq<T>, key: T -> real, name: T -> K)
    requires DistinctBy(s, name)
    ensures DistinctBy(SortBy(s, key), name)
  {
    if s != [] {
      SortKeepsDistinct(s[1..], key, name);
      var sorted := SortBy(s[1..], key);
      forall y | y in sorted ensures name(y) != name(s[0]) {
        assert y in multiset(sorted);
        assert y in s[1..];
        var b :| 0 <= b < |s[1..]| && s[1..][b] == y;
        assert s[b + 1] == y;
      }
      InsertKeepsDistinct(s[0], sorted, key, name);
    }
  }
}
