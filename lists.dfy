/** The list operations the components build from `Array.prototype.filter`,
    `includes` and spread: keep the elements satisfying a test, remove every
    occurrence of a value, and toggle the membership of a value. */
module Lists {

  /** No value occurs twice. */
  predicate NoDuplicates<T(==,!new)>(xs: seq<T>) {
    forall i, j | 0 <= i < j < |xs| :: xs[i] != xs[j]
  }

  /** `a` is `b` with some elements deleted, the others kept in their order. */
  ghost predicate IsSubsequence<T>(a: seq<T>, b: seq<T>)
    decreases |b|
  {
    if b == [] then a == []
    else (a != [] && a[0] == b[0] && IsSubsequence(a[1..], b[1..])) || IsSubsequence(a, b[1..])
  }

  /** `xs.filter(p)`: the elements satisfying `p`, in their order. */
  function Filter<T(!new)>(xs: seq<T>, p: T -> bool): (r: seq<T>)
    ensures |r| <= |xs|
    ensures forall y :: y in r <==> y in xs && p(y)
  {
    if xs == [] then []
    else
      assert xs == [xs[0]] + xs[1..];
      (if p(xs[0]) then [xs[0]] else []) + Filter(xs[1..], p)
  }

  /** Every element that passes is kept as often as it occurs. */
  lemma {:induction false} FilterCount<T(!new)>(xs: seq<T>, p: T -> bool)
    ensures forall y | p(y) :: multiset(Filter(xs, p))[y] == multiset(xs)[y]
  {
    if xs != [] {
      FilterCount(xs[1..], p);
      assert xs == [xs[0]] + xs[1..];
    }
  }

  lemma {:induction false} FilterIsSubsequence<T(!new)>(xs: seq<T>, p: T -> bool)
    ensures IsSubsequence(Filter(xs, p), xs)
  {
    if xs != [] {
      FilterIsSubsequence(xs[1..], p);
      var r := Filter(xs, p);
      if p(xs[0]) {
        assert r[0] == xs[0] && r[1..] == Filter(xs[1..], p);
      } else {
        assert r == Filter(xs[1..], p);
      }
    }
  }

  lemma {:induction false} FilterConcat<T(!new)>(a: seq<T>, b: seq<T>, p: T -> bool)
    ensures Filter(a + b, p) == Filter(a, p) + Filter(b, p)
  {
    if a != [] {
      assert (a + b)[1..] == a[1..] + b;
      FilterConcat(a[1..], b, p);
    } else {
      assert a + b == b;
    }
  }

  /** Filtering keeps everything when every element passes. */
  lemma {:induction false} FilterKeepsAll<T(!new)>(xs: seq<T>, p: T -> bool)
    requires forall y | y in xs :: p(y)
    ensures Filter(xs, p) == xs
  {
    if xs != [] {
      assert forall y | y in xs[1..] :: y in xs;
      FilterKeepsAll(xs[1..], p);
    }
  }

  /** Filtering a list without duplicates leaves one without duplicates. */
  lemma {:induction false} FilterNoDuplicates<T(!new)>(xs: seq<T>, p: T -> bool)
    requires NoDuplicates(xs)
    ensures NoDuplicates(Filter(xs, p))
  {
    if xs != [] {
      var t := Filter(xs[1..], p);
      assert NoDuplicates(xs[1..]) by {
        forall i, j | 0 <= i < j < |xs[1..]| ensures xs[1..][i] != xs[1..][j] {
          assert xs[1..][i] == xs[i + 1] && xs[1..][j] == xs[j + 1];
        }
      }
      FilterNoDuplicates(xs[1..], p);
      if p(xs[0]) {
        assert xs[0] !in xs[1..] by {
          forall k | 0 <= k < |xs[1..]| ensures xs[1..][k] != xs[0] {
            assert xs[1..][k] == xs[k + 1];
          }
        }
        assert xs[0] !in t;
        var r := [xs[0]] + t;
        forall i, j | 0 <= i < j < |r| ensures r[i] != r[j] {
          if i == 0 {
            assert r[j] == t[j - 1];
          } else {
            assert r[i] == t[i - 1] && r[j] == t[j - 1];
          }
        }
      }
    }
  }

  /** `xs.filter((y) => y !== x)`. */
  function RemoveAll<T(==,!new)>(xs: seq<T>, x: T): (r: seq<T>)
    ensures x !in r
    ensures forall y | y != x :: (y in r <==> y in xs)
    ensures forall y | y != x :: multiset(r)[y] == multiset(xs)[y]
  {
    var keep := y => y != x;
    FilterCount(xs, keep);
    Filter(xs, keep)
  }

  /** Removing every occurrence keeps the others in order. */
  lemma RemoveAllKeepsOrder<T(!new)>(xs: seq<T>, x: T)
    ensures IsSubsequence(RemoveAll(xs, x), xs)
  {
    FilterIsSubsequence(xs, y => y != x);
  }

  /** Removing a value that is not there changes nothing. */
  lemma RemoveAllAbsent<T(!new)>(xs: seq<T>, x: T)
    requires x !in xs
    ensures RemoveAll(xs, x) == xs
  {
    FilterKeepsAll(xs, y => y != x);
  }

  /** The toggle both components use: remove every occurrence of a present value,
      append an absent one at the end. */
  function Toggle<T(==,!new)>(xs: seq<T>, x: T): (r: seq<T>)
    ensures x in r <==> x !in xs
    ensures forall y | y != x :: (y in r <==> y in xs)
    ensures x !in xs ==> r == xs + [x]
    ensures x in xs ==> IsSubsequence(r, xs) && forall y | y != x :: multiset(r)[y] == multiset(xs)[y]
  {
    if x in xs then
      RemoveAllKeepsOrder(xs, x);
      RemoveAll(xs, x)
    else
      xs + [x]
  }

  /** Toggling an absent value twice gives the original list back. */
  lemma ToggleTwiceAbsent<T(!new)>(xs: seq<T>, x: T)
    requires x !in xs
    ensures Toggle(Toggle(xs, x), x) == xs
  {
    FilterConcat(xs, [x], y => y != x);
    RemoveAllAbsent(xs, x);
  }

  /** Toggling never introduces a duplicate. */
  lemma ToggleNoDuplicates<T(!new)>(xs: seq<T>, x: T)
    requires NoDuplicates(xs)
    ensures NoDuplicates(Toggle(xs, x))
  {
    if x in xs {
      FilterNoDuplicates(xs, y => y != x);
    }
  }

  /** The list after a sequence of clicks, each toggling one value. */
  function ToggleAll<T(==,!new)>(xs: seq<T>, clicks: seq<T>): seq<T>
    decreases |clicks|
  {
    if clicks == [] then xs else ToggleAll(Toggle(xs, clicks[0]), clicks[1..])
  }

  /** Clicks starting from a list without duplicates never produce one, and every
      element of the result was either there before or clicked. */
  lemma {:induction false} ToggleAllInvariant<T(!new)>(xs: seq<T>, clicks: seq<T>)
    requires NoDuplicates(xs)
    ensures NoDuplicates(ToggleAll(xs, clicks))
    ensures forall y | y in ToggleAll(xs, clicks) :: y in xs || y in clicks
    decreases |clicks|
  {
    if clicks != [] {
      ToggleNoDuplicates(xs, clicks[0]);
      ToggleAllInvariant(Toggle(xs, clicks[0]), clicks[1..]);
      forall y | y in ToggleAll(xs, clicks) ensures y in xs || y in clicks {
        assert y in Toggle(xs, clicks[0]) || y in clicks[1..];
      }
    }
  }

  /** From the empty list, clicks yield a list of clicked values without duplicates. */
  lemma ToggleAllFromEmpty<T(!new)>(clicks: seq<T>)
    ensures NoDuplicates(ToggleAll([], clicks))
    ensures forall y | y in ToggleAll([], clicks) :: y in clicks
  {
    ToggleAllInvariant([], clicks);
  }

  /** Filtering drops at least one element when some element fails the test. */
  lemma {:induction false} FilterShrinks<T(!new)>(xs: seq<T>, p: T -> bool, x: T)
    requires x in xs && !p(x)
    ensures |Filter(xs, p)| < |xs|
  {
    if xs[0] != x {
      FilterShrinks(xs[1..], p, x);
    }
  }

  /** A list without duplicates drawn from `pool` is no longer than `pool`. */
  lemma {:induction false} NoDuplicatesBound<T(!new)>(r: seq<T>, pool: seq<T>)
    requires NoDuplicates(r)
    requires forall y | y in r :: y in pool
    ensures |r| <= |pool|
  {
    if r != [] {
      var x := r[0];
      var rest := RemoveAll(pool, x);
      FilterShrinks(pool, y => y != x, x);
      forall y | y in r[1..] ensures y in rest {
        var k :| 1 <= k < |r| && r[k] == y;
        assert r[0] != r[k];
      }
      assert NoDuplicates(r[1..]) by {
        forall i, j | 0 <= i < j < |r[1..]| ensures r[1..][i] != r[1..][j] {
          assert r[1..][i] == r[i + 1] && r[1..][j] == r[j + 1];
        }
      }
      NoDuplicatesBound(r[1..], rest);
    }
  }
}
