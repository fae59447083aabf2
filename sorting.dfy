/**
 * LINQ's OrderBy(...).ThenBy(...): a stable sort under a total preorder, written as insertion
 * sort, with ordinal string order and the lexicographic order of rows on a list of key columns.
 */
module Sorting {

  /** leq is total and transitive: a total preorder, the kind of order LINQ's key comparers give. */
  ghost predicate TotalPreorder<T(!new)>(leq: (T, T) -> bool)
  {
    && (forall a, b :: leq(a, b) || leq(b, a))
    && (forall a, b, c :: leq(a, b) && leq(b, c) ==> leq(a, c))
  }

  ghost predicate Sorted<T>(xs: seq<T>, leq: (T, T) -> bool)
  {
    forall i, j :: 0 <= i < j < |xs| ==> leq(xs[i], xs[j])
  }

  /** x placed before the first element it is not above: ahead of every element it ties with. */
  function Insert<T>(x: T, ys: seq<T>, leq: (T, T) -> bool): (r: seq<T>)
    ensures multiset(r) == multiset(ys) + multiset{x}
  {
    if |ys| == 0 then [x]
    else if leq(x, ys[0]) then [x] + ys
    else
      assert ys == [ys[0]] + ys[1..];
      [ys[0]] + Insert(x, ys[1..], leq)
  }

  /** The stable sort of xs: the first element inserted into the sorted rest. */
  function SortBy<T>(xs: seq<T>, leq: (T, T) -> bool): (r: seq<T>)
    ensures multiset(r) == multiset(xs)
  {
    if |xs| == 0 then []
    else
      assert xs == [xs[0]] + xs[1..];
      Insert(xs[0], SortBy(xs[1..], leq), leq)
  }

  /** Every element of Insert(x, ys) is above y when x and every element of ys are. */
  lemma InsertAbove<T>(x: T, ys: seq<T>, y: T, leq: (T, T) -> bool)
    requires leq(y, x) && forall k :: 0 <= k < |ys| ==> leq(y, ys[k])
    ensures forall k :: 0 <= k < |Insert(x, ys, leq)| ==> leq(y, Insert(x, ys, leq)[k])
  {
    var r := Insert(x, ys, leq);
    forall k | 0 <= k < |r|
      ensures leq(y, r[k])
    {
      assert r[k] in multiset(r);
      if r[k] != x {
        assert r[k] in multiset(ys);
        var j :| 0 <= j < |ys| && ys[j] == r[k];
      }
    }
  }

  lemma {:induction false} InsertSorted<T(!new)>(x: T, ys: seq<T>, leq: (T, T) -> bool)
    requires TotalPreorder(leq) && Sorted(ys, leq)
    ensures Sorted(Insert(x, ys, leq), leq)
  {
    if |ys| > 0 && !leq(x, ys[0]) {
      var tail := ys[1..];
      var rest := Insert(x, tail, leq);
      assert Sorted(tail, leq) by {
        forall i, j | 0 <= i < j < |tail|
          ensures leq(tail[i], tail[j])
        {
          assert tail[i] == ys[i + 1] && tail[j] == ys[j + 1];
        }
      }
      InsertSorted(x, tail, leq);
      assert forall k :: 0 <= k < |tail| ==> leq(ys[0], tail[k]) by {
        forall k | 0 <= k < |tail|
          ensures leq(ys[0], tail[k])
        {
          assert tail[k] == ys[k + 1];
        }
      }
      InsertAbove(x, tail, ys[0], leq);
      var r := [ys[0]] + rest;
      assert Insert(x, ys, leq) == r;
      forall i, j | 0 <= i < j < |r|
        ensures leq(r[i], r[j])
      {
        if i == 0 {
          assert r[j] == rest[j - 1];
        } else {
          assert r[i] == rest[i - 1] && r[j] == rest[j - 1];
        }
      }
    }
  }

  /** The sort returns its input reordered, in order. */
  lemma {:induction false} SortBySorted<T(!new)>(xs: seq<T>, leq: (T, T) -> bool)
    requires TotalPreorder(leq)
    ensures Sorted(SortBy(xs, leq), leq) && multiset(SortBy(xs, leq)) == multiset(xs)
  {
    if |xs| > 0 {
      SortBySorted(xs[1..], leq);
      InsertSorted(xs[0], SortBy(xs[1..], leq), leq);
    }
  }

  /** The elements of xs that tie with z, in their order in xs. */
  function Ties<T>(xs: seq<T>, z: T, leq: (T, T) -> bool): seq<T>
  {
    if |xs| == 0 then []
    else (if leq(xs[0], z) && leq(z, xs[0]) then [xs[0]] else []) + Ties(xs[1..], z, leq)
  }

  /** Inserting x keeps the tie classes in order, with x ahead of the elements it ties with. */
  lemma {:induction false} InsertTies<T(!new)>(x: T, ys: seq<T>, z: T, leq: (T, T) -> bool)
    requires TotalPreorder(leq)
    ensures Ties(Insert(x, ys, leq), z, leq) == Ties([x] + ys, z, leq)
  {
    if |ys| > 0 && !leq(x, ys[0]) {
      var y := ys[0];
      InsertTies(x, ys[1..], z, leq);
      assert ([y] + Insert(x, ys[1..], leq))[1..] == Insert(x, ys[1..], leq);
      assert ([x] + ys[1..])[1..] == ys[1..];
      assert ([x] + ys)[1..] == ys && ys[1..] == ys[1..];
      var tx := if leq(x, z) && leq(z, x) then [x] else [];
      var ty := if leq(y, z) && leq(z, y) then [y] else [];
      // y lies strictly below x, so x and y never tie with the same z.
      assert tx == [] || ty == [];
      calc {
        Ties(Insert(x, ys, leq), z, leq);
        ty + Ties(Insert(x, ys[1..], leq), z, leq);
        ty + (tx + Ties(ys[1..], z, leq));
        tx + (ty + Ties(ys[1..], z, leq));
        Ties([x] + ys, z, leq);
      }
    }
  }

  /** Stability: each class of tied elements comes out in its input order. */
  lemma {:induction false} SortByStable<T(!new)>(xs: seq<T>, z: T, leq: (T, T) -> bool)
    requires TotalPreorder(leq)
    ensures Ties(SortBy(xs, leq), z, leq) == Ties(xs, z, leq)
  {
    if |xs| > 0 {
      SortByStable(xs[1..], z, leq);
      InsertTies(xs[0], SortBy(xs[1..], leq), z, leq);
      assert ([xs[0]] + SortBy(xs[1..], leq))[1..] == SortBy(xs[1..], leq);
    }
  }

  /** Sorting input that is already in order leaves it unchanged; so sorting twice is sorting once. */
  lemma {:induction false} SortBySortedInput<T>(xs: seq<T>, leq: (T, T) -> bool)
    requires Sorted(xs, leq)
    ensures SortBy(xs, leq) == xs
  {
    if |xs| > 0 {
      assert Sorted(xs[1..], leq) by {
        forall i, j | 0 <= i < j < |xs[1..]|
          ensures leq(xs[1..][i], xs[1..][j])
        {
          assert xs[1..][i] == xs[i + 1] && xs[1..][j] == xs[j + 1];
        }
      }
      SortBySortedInput(xs[1..], leq);
      if |xs| > 1 {
        assert leq(xs[0], xs[1..][0]);
      }
      assert [xs[0]] + xs[1..] == xs;
    }
  }

  lemma SortByIdempotent<T(!new)>(xs: seq<T>, leq: (T, T) -> bool)
    requires TotalPreorder(leq)
    ensures SortBy(SortBy(xs, leq), leq) == SortBy(xs, leq)
  {
    SortBySorted(xs, leq);
    SortBySortedInput(SortBy(xs, leq), leq);
  }

  /** No element occurs twice. */
  predicate Distinct<T(==)>(xs: seq<T>)
  {
    forall i, j :: 0 <= i < j < |xs| ==> xs[i] != xs[j]
  }

  lemma {:induction false} DistinctOnce<T>(xs: seq<T>, x: T)
    requires Distinct(xs)
    ensures multiset(xs)[x] <= 1
  {
    if |xs| > 0 {
      assert Distinct(xs[1..]) by {
        forall i, j | 0 <= i < j < |xs[1..]|
          ensures xs[1..][i] != xs[1..][j]
        {
          assert xs[1..][i] == xs[i + 1] && xs[1..][j] == xs[j + 1];
        }
      }
      DistinctOnce(xs[1..], x);
      assert xs == [xs[0]] + xs[1..];
      if x == xs[0] {
        assert x !in xs[1..];
      }
    }
  }

  /** An element found at two positions is counted at least twice. */
  lemma TwiceCounted<T>(ys: seq<T>, i: int, j: int)
    requires 0 <= i < j < |ys| && ys[i] == ys[j]
    ensures multiset(ys)[ys[i]] >= 2
  {
    assert ys == ys[..j] + ys[j..];
    assert ys[i] == ys[..j][i];
    assert ys[j] == ys[j..][0];
  }

  lemma OnceDistinct<T>(ys: seq<T>)
    requires forall x :: multiset(ys)[x] <= 1
    ensures Distinct(ys)
  {
    forall i, j | 0 <= i < j < |ys|
      ensures ys[i] != ys[j]
    {
      if ys[i] == ys[j] {
        TwiceCounted(ys, i, j);
        assert false;
      }
    }
  }

  /** Sorting rearranges without repeating: distinct input gives distinct output. */
  lemma SortByDistinct<T>(xs: seq<T>, leq: (T, T) -> bool)
    requires Distinct(xs)
    ensures Distinct(SortBy(xs, leq))
  {
    forall x
      ensures multiset(SortBy(xs, leq))[x] <= 1
    {
      DistinctOnce(xs, x);
    }
    OnceDistinct(SortBy(xs, leq));
  }

  /** Ordinal string order: compare character codes left to right; a prefix comes first. */
  predicate StringLeq(a: string, b: string)
  {
    if |a| == 0 then true
    else if |b| == 0 then false
    else if a[0] != b[0] then a[0] < b[0]
    else StringLeq(a[1..], b[1..])
  }

  lemma {:induction false} StringLeqTotal(a: string, b: string)
    ensures StringLeq(a, b) || StringLeq(b, a)
  {
    if |a| > 0 && |b| > 0 && a[0] == b[0] {
      StringLeqTotal(a[1..], b[1..]);
    }
  }

  lemma {:induction false} StringLeqTransitive(a: string, b: string, c: string)
    requires StringLeq(a, b) && StringLeq(b, c)
    ensures StringLeq(a, c)
  {
    if |a| > 0 && |b| > 0 && |c| > 0 && a[0] == b[0] && b[0] == c[0] {
      StringLeqTransitive(a[1..], b[1..], c[1..]);
    }
  }

  /** Only equal strings tie in ordinal order. */
  lemma {:induction false} StringLeqAntisymmetric(a: string, b: string)
    requires StringLeq(a, b) && StringLeq(b, a)
    ensures a == b
  {
    if |a| > 0 && |b| > 0 {
      StringLeqAntisymmetric(a[1..], b[1..]);
      assert a == [a[0]] + a[1..] && b == [b[0]] + b[1..];
    }
  }

  lemma StringOrder()
    ensures TotalPreorder(StringLeq)
  {
    forall a, b
      ensures StringLeq(a, b) || StringLeq(b, a)
    {
      StringLeqTotal(a, b);
    }
    forall a, b, c | StringLeq(a, b) && StringLeq(b, c)
      ensures StringLeq(a, c)
    {
      StringLeqTransitive(a, b, c);
    }
  }
}
