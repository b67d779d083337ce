/**
 * The array idioms of the catalogue pages: `[...new Set(xs)]`,
 * `xs.filter(keep)` and the default `xs.sort()`, which orders values by
 * their text, one code unit at a time.
 */
module Collections {

  /** No element occurs twice. */
  predicate NoDuplicates<T(==)>(xs: seq<T>)
  {
    forall i, j :: 0 <= i < j < |xs| ==> xs[i] != xs[j]
  }

  /** `xs.indexOf(x)` for an element that is present. */
  function FirstIndex<T(==)>(xs: seq<T>, x: T): (i: nat)
    requires x in xs
    ensures i < |xs| && xs[i] == x && x !in xs[..i]
  {
    if xs[0] == x then 0
    else
      var i := 1 + FirstIndex(xs[1..], x);
      assert xs[..i] == [xs[0]] + xs[1..][..i - 1];
      i
  }

  // ---------------------------------------------------------------------
  // [...new Set(xs)]

  /** `[...new Set(xs)]`: each element once, where it first occurs. */
  function Distinct<T(==,!new)>(xs: seq<T>): (r: seq<T>)
    ensures forall x :: x in r <==> x in xs
    ensures NoDuplicates(r)
  {
    if xs == [] then []
    else
      var init := xs[..|xs| - 1];
      var last := xs[|xs| - 1];
      assert xs == init + [last];
      var d := Distinct(init);
      if last in d then d else d + [last]
  }

  /** The first occurrence of an element in a list that ends with a new one is where it was. */
  lemma {:induction false} FirstIndexExtended<T>(init: seq<T>, last: T, x: T)
    requires x in init
    ensures FirstIndex(init + [last], x) == FirstIndex(init, x)
  {
    if init[0] != x {
      assert (init + [last])[1..] == init[1..] + [last];
      FirstIndexExtended(init[1..], last, x);
    }
  }

  /** A new element appended last first occurs at the end. */
  lemma {:induction false} FirstIndexNew<T>(init: seq<T>, last: T)
    requires last !in init
    ensures FirstIndex(init + [last], last) == |init|
  {
    if init != [] {
      assert (init + [last])[1..] == init[1..] + [last];
      FirstIndexNew(init[1..], last);
    }
  }

  /** The distinct elements come in the order of their first occurrences. */
  lemma {:induction false} DistinctInFirstOccurrenceOrder<T(!new)>(xs: seq<T>)
    ensures forall i, j :: 0 <= i < j < |Distinct(xs)| ==> FirstIndex(xs, Distinct(xs)[i]) < FirstIndex(xs, Distinct(xs)[j])
  {
    if xs != [] {
      var init := xs[..|xs| - 1];
      var last := xs[|xs| - 1];
      assert xs == init + [last];
      DistinctInFirstOccurrenceOrder(init);
      var d := Distinct(init);
      var r := Distinct(xs);
      forall i, j | 0 <= i < j < |r|
        ensures FirstIndex(xs, r[i]) < FirstIndex(xs, r[j])
      {
        assert r == d || (last !in d && r == d + [last]);
        assert r[i] == d[i] && r[i] in init;
        FirstIndexExtended(init, last, r[i]);
        if j < |d| {
          assert r[j] == d[j] && r[j] in init;
          FirstIndexExtended(init, last, r[j]);
          assert FirstIndex(init, d[i]) < FirstIndex(init, d[j]);
        } else {
          assert r[j] == last && last !in init;
          FirstIndexNew(init, last);
          assert FirstIndex(init, d[i]) < |init|;
        }
      }
    }
  }

  // ---------------------------------------------------------------------
  // xs.filter(keep)

  /** `xs.filter(keep)`. */
  function Filter<T(==,!new)>(xs: seq<T>, keep: T -> bool): (r: seq<T>)
    ensures forall x :: x in r <==> x in xs && keep(x)
    ensures |r| <= |xs|
  {
    if xs == [] then []
    else
      assert forall x :: x in xs <==> x == xs[0] || x in xs[1..];
      (if keep(xs[0]) then [xs[0]] else []) + Filter(xs[1..], keep)
  }

  /** `a` is `b` with some elements deleted, the rest in their order. */
  predicate IsSubsequence<T(==)>(a: seq<T>, b: seq<T>)
    decreases |b|
  {
    a == [] || (b != [] && if a[0] == b[0] then IsSubsequence(a[1..], b[1..]) else IsSubsequence(a, b[1..]))
  }

  /** Filtering keeps the order of what it keeps. */
  lemma {:induction false} FilterIsSubsequence<T(!new)>(xs: seq<T>, keep: T -> bool)
    ensures IsSubsequence(Filter(xs, keep), xs)
  {
    if xs != [] {
      var rest := Filter(xs[1..], keep);
      FilterIsSubsequence(xs[1..], keep);
      if keep(xs[0]) {
        assert Filter(xs, keep) == [xs[0]] + rest;
        assert ([xs[0]] + rest)[1..] == rest;
      } else {
        assert Filter(xs, keep) == rest;
        if rest != [] {
          assert rest[0] in rest;
          assert rest[0] != xs[0];
        }
      }
    }
  }

  /** A filter every element passes keeps the whole list. */
  lemma {:induction false} FilterKeepsAll<T(!new)>(xs: seq<T>, keep: T -> bool)
    requires forall x :: x in xs ==> keep(x)
    ensures Filter(xs, keep) == xs
  {
    if xs != [] {
      assert forall x :: x in xs[1..] ==> x in xs;
      FilterKeepsAll(xs[1..], keep);
      assert [xs[0]] + xs[1..] == xs;
    }
  }

  /** Filtering a list with one more element at the end: the element is kept or dropped on its own. */
  lemma {:induction false} FilterSnoc<T(!new)>(xs: seq<T>, x: T, keep: T -> bool)
    ensures Filter(xs + [x], keep) == Filter(xs, keep) + (if keep(x) then [x] else [])
  {
    if xs == [] {
      assert [] + [x] == [x] && [x][1..] == [];
    } else {
      assert (xs + [x])[0] == xs[0] && (xs + [x])[1..] == xs[1..] + [x];
      FilterSnoc(xs[1..], x, keep);
      var h, t, e := (if keep(xs[0]) then [xs[0]] else []), Filter(xs[1..], keep), (if keep(x) then [x] else []);
      assert h + t + e == h + (t + e);
    }
  }

  // ---------------------------------------------------------------------
  // xs.sort()

  /** The order of the default `sort()`: texts compared code unit by code unit, a prefix first. */
  predicate TextLe(a: string, b: string)
  {
    a == [] || (b != [] && (a[0] < b[0] || (a[0] == b[0] && TextLe(a[1..], b[1..]))))
  }

  lemma {:induction false} TextLeTotal(a: string, b: string)
    ensures TextLe(a, b) || TextLe(b, a)
  {
    if a != [] && b != [] && a[0] == b[0] {
      TextLeTotal(a[1..], b[1..]);
    }
  }

  lemma {:induction false} TextLeTransitive(a: string, b: string, c: string)
    requires TextLe(a, b) && TextLe(b, c)
    ensures TextLe(a, c)
  {
    if a != [] && a[0] == b[0] && b[0] == c[0] {
      TextLeTransitive(a[1..], b[1..], c[1..]);
    }
  }

  lemma {:induction false} TextLeAntisymmetric(a: string, b: string)
    requires TextLe(a, b) && TextLe(b, a)
    ensures a == b
  {
    if a != [] {
      TextLeAntisymmetric(a[1..], b[1..]);
      assert a == [a[0]] + a[1..] && b == [b[0]] + b[1..];
    }
  }

  predicate SortedBy<T>(xs: seq<T>, key: T -> string)
  {
    forall i, j :: 0 <= i < j < |xs| ==> TextLe(key(xs[i]), key(xs[j]))
  }

  /** Insert `x` before the first element it does not follow. */
  function InsertBy<T(==)>(x: T, xs: seq<T>, key: T -> string): (r: seq<T>)
    ensures multiset(r) == multiset(xs) + multiset{x}
  {
    if xs == [] || TextLe(key(x), key(xs[0])) then [x] + xs
    else
      assert xs == [xs[0]] + xs[1..];
      [xs[0]] + InsertBy(x, xs[1..], key)
  }

  /** `xs.sort()`, with `key` the text each element is compared by. */
  function SortBy<T(==)>(xs: seq<T>, key: T -> string): (r: seq<T>)
    ensures multiset(r) == multiset(xs)
  {
    if xs == [] then []
    else
      assert xs == [xs[0]] + xs[1..];
      InsertBy(xs[0], SortBy(xs[1..], key), key)
  }

  lemma SortedCons<T>(y: T, t: seq<T>, key: T -> string)
    requires SortedBy(t, key)
    requires forall z :: z in t ==> TextLe(key(y), key(z))
    ensures SortedBy([y] + t, key)
  {
    var r := [y] + t;
    forall i, j | 0 <= i < j < |r|
      ensures TextLe(key(r[i]), key(r[j]))
    {
      assert r[j] == t[j - 1];
      if i > 0 {
        assert r[i] == t[i - 1];
      } else {
        assert t[j - 1] in t;
      }
    }
  }

  lemma {:induction false} InsertSorted<T>(x: T, xs: seq<T>, key: T -> string)
    requires SortedBy(xs, key)
    ensures SortedBy(InsertBy(x, xs, key), key)
  {
    if xs != [] {
      assert forall z :: z in xs[1..] ==> TextLe(key(xs[0]), key(z)) by {
        forall z | z in xs[1..] ensures TextLe(key(xs[0]), key(z)) {
          var k :| 0 <= k < |xs[1..]| && xs[1..][k] == z;
          assert xs[k + 1] == z;
        }
      }
      if TextLe(key(x), key(xs[0])) {
        forall z | z in xs ensures TextLe(key(x), key(z)) {
          if z != xs[0] {
            TextLeTransitive(key(x), key(xs[0]), key(z));
          }
        }
        SortedCons(x, xs, key);
      } else {
        TextLeTotal(key(x), key(xs[0]));
        assert SortedBy(xs[1..], key);
        InsertSorted(x, xs[1..], key);
        var t := InsertBy(x, xs[1..], key);
        forall z | z in t ensures TextLe(key(xs[0]), key(z)) {
          assert z in multiset(t);
        }
        SortedCons(xs[0], t, key);
      }
    }
  }

  /** The sorted list is in order. */
  lemma {:induction false} SortSorted<T>(xs: seq<T>, key: T -> string)
    ensures SortedBy(SortBy(xs, key), key)
  {
    if xs != [] {
      SortSorted(xs[1..], key);
      InsertSorted(xs[0], SortBy(xs[1..], key), key);
    }
  }

  lemma {:induction false} InsertDistinct<T>(x: T, xs: seq<T>, key: T -> string)
    requires NoDuplicates(xs) && x !in xs
    ensures NoDuplicates(InsertBy(x, xs, key))
  {
    if xs != [] && !TextLe(key(x), key(xs[0])) {
      InsertDistinct(x, xs[1..], key);
      var t := InsertBy(x, xs[1..], key);
      assert xs[0] !in xs[1..];
      assert xs[0] !in t by {
        assert xs[0] in multiset(t) <==> xs[0] in multiset(xs[1..]) + multiset{x};
      }
      assert NoDuplicates([xs[0]] + t) by {
        var r := [xs[0]] + t;
        forall i, j | 0 <= i < j < |r| ensures r[i] != r[j] {
          assert r[j] == t[j - 1];
          if i > 0 {
            assert r[i] == t[i - 1];
          } else {
            assert t[j - 1] in t;
          }
        }
      }
    } else {
      var r := [x] + xs;
      forall i, j | 0 <= i < j < |r| ensures r[i] != r[j] {
        assert r[j] == xs[j - 1];
        if i > 0 {
          assert r[i] == xs[i - 1];
        }
      }
    }
  }

  /** Sorting a list without duplicates leaves none. */
  lemma {:induction false} SortDistinct<T>(xs: seq<T>, key: T -> string)
    requires NoDuplicates(xs)
    ensures NoDuplicates(SortBy(xs, key))
  {
    if xs != [] {
      assert NoDuplicates(xs[1..]);
      SortDistinct(xs[1..], key);
      assert xs[0] !in xs[1..];
      assert xs[0] !in SortBy(xs[1..], key) by {
        assert xs[0] in multiset(SortBy(xs[1..], key)) <==> xs[0] in multiset(xs[1..]);
      }
      InsertDistinct(xs[0], SortBy(xs[1..], key), key);
    }
  }
}
