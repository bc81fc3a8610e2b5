/** Generic sequence operations shared by the views: `Array.prototype.filter`, `flatMap`,
    and the insertion-ordered de-duplication that `Array.from(new Set(xs))` performs. */
module Seqs {

  /** `s.filter(p)`: the elements satisfying `p`, in their original order. */
  function Filter<T>(s: seq<T>, p: T -> bool): (r: seq<T>)
    ensures |r| <= |s|
    ensures forall i :: 0 <= i < |r| ==> p(r[i]) && r[i] in s
    ensures forall x :: x in s && p(x) ==> x in r
  {
    if s == [] then [] else (if p(s[0]) then [s[0]] else []) + Filter(s[1..], p)
  }

  /** One step of a filter over a suffix. */
  lemma FilterFrom<T>(s: seq<T>, p: T -> bool, i: nat)
    requires i < |s|
    ensures Filter(s[i..], p) == (if p(s[i]) then [s[i]] else []) + Filter(s[i + 1..], p)
  {
    assert s[i..][1..] == s[i + 1..];
  }

  /** Filtering distributes over concatenation, so the kept elements stay in input order. */
  lemma {:induction false} FilterAppend<T>(a: seq<T>, b: seq<T>, p: T -> bool)
    ensures Filter(a + b, p) == Filter(a, p) + Filter(b, p)
  {
    if a == [] {
      assert a + b == b;
    } else {
      assert (a + b)[1..] == a[1..] + b;
      FilterAppend(a[1..], b, p);
    }
  }

  /** A filter that every element passes keeps the whole list. */
  lemma {:induction false} FilterAll<T>(s: seq<T>, p: T -> bool)
    requires forall i :: 0 <= i < |s| ==> p(s[i])
    ensures Filter(s, p) == s
  {
    if s != [] {
      FilterAll(s[1..], p);
    }
  }

  /** Filters that agree on every element keep the same elements. */
  lemma {:induction false} FilterEquivalent<T>(s: seq<T>, p: T -> bool, q: T -> bool)
    requires forall i :: 0 <= i < |s| ==> p(s[i]) == q(s[i])
    ensures Filter(s, p) == Filter(s, q)
  {
    if s != [] {
      FilterEquivalent(s[1..], p, q);
    }
  }

  /** Filtering a list without repeats leaves a list without repeats. */
  lemma {:induction false} FilterDistinct<T>(s: seq<T>, p: T -> bool)
    requires Distinct(s)
    ensures Distinct(Filter(s, p))
  {
    if s != [] {
      assert Distinct(s[1..]);
      FilterDistinct(s[1..], p);
      assert s[0] !in s[1..];
      assert s[0] !in Filter(s[1..], p);
    }
  }

  /** Two rearrangements of each other with the same head have tails that are rearrangements of
      each other. */
  lemma TailsPermutation<T>(a: seq<T>, b: seq<T>)
    requires |a| > 0 && |b| > 0 && a[0] == b[0] && multiset(a) == multiset(b)
    ensures multiset(a[1..]) == multiset(b[1..])
  {
    assert a == [a[0]] + a[1..] && b == [b[0]] + b[1..];
    assert multiset(a[1..]) == multiset(a) - multiset{a[0]};
    assert multiset(b[1..]) == multiset(b) - multiset{b[0]};
  }

  /** A rearrangement of the de-duplication of `xs` holds each element of `xs` exactly once. */
  lemma DedupRearranged<T>(xs: seq<T>, r: seq<T>)
    requires multiset(r) == multiset(Dedup(xs))
    ensures Distinct(r)
    ensures forall i :: 0 <= i < |r| ==> r[i] in xs
    ensures forall i :: 0 <= i < |xs| ==> xs[i] in r
  {
    var d := Dedup(xs);
    DistinctPermutation(d, r);
    forall i | 0 <= i < |r| ensures r[i] in xs {
      assert r[i] in multiset(d);
    }
    forall i | 0 <= i < |xs| ensures xs[i] in r {
      assert xs[i] in multiset(d);
      assert xs[i] in multiset(r);
    }
  }

  /** The only rearrangement of a one-element list is itself. */
  lemma SingletonPermutation<T>(a: seq<T>, b: seq<T>)
    requires |a| == 1 && multiset(a) == multiset(b)
    ensures a == b
  {
    assert |b| == 1 by { assert |multiset(a)| == |multiset(b)|; }
    assert a[0] in multiset(b);
  }

  /** Extending the prefix of `b` taken after `a` by one element. */
  lemma AppendPrefixSnoc<T>(a: seq<T>, b: seq<T>, t: nat)
    requires t < |b|
    ensures a + b[..t + 1] == (a + b[..t]) + [b[t]]
  {
    assert b[..t + 1] == b[..t] + [b[t]];
  }

  /** Lists with the same head and the same tail are equal. */
  lemma ConsEqual<T>(a: seq<T>, b: seq<T>)
    requires |a| > 0 && |b| > 0 && a[0] == b[0] && a[1..] == b[1..]
    ensures a == b
  {
    assert a == [a[0]] + a[1..] && b == [b[0]] + b[1..];
  }

  /** Inserts `x` after the leading elements that it sorts after, as one step of a stable
      insertion sort by the comparison `after`. */
  function InsertBy<T>(x: T, s: seq<T>, after: (T, T) -> bool): (r: seq<T>)
    ensures multiset(r) == multiset(s) + multiset{x}
  {
    if s == [] then [x]
    else if after(x, s[0]) then
      assert s == [s[0]] + s[1..];
      [s[0]] + InsertBy(x, s[1..], after)
    else [x] + s
  }

  /** A stable insertion sort by `after`: a permutation of `xs`. */
  function SortBy<T>(xs: seq<T>, after: (T, T) -> bool): (r: seq<T>)
    ensures multiset(r) == multiset(xs)
  {
    if xs == [] then []
    else
      assert xs == [xs[0]] + xs[1..];
      InsertBy(xs[0], SortBy(xs[1..], after), after)
  }

  /** No element of `s` sorts after its successor. */
  predicate AdjacentSortedBy<T>(s: seq<T>, after: (T, T) -> bool) {
    forall i :: 0 <= i < |s| - 1 ==> !after(s[i], s[i + 1])
  }

  /** Inserting into a list in which no element sorts after its successor keeps it so, provided
      `after` is asymmetric; the result starts with `x` or with the list's own head. */
  lemma {:induction false} InsertBySorted<T>(x: T, s: seq<T>, after: (T, T) -> bool)
    requires forall a, b :: after(a, b) ==> !after(b, a)
    requires AdjacentSortedBy(s, after)
    ensures AdjacentSortedBy(InsertBy(x, s, after), after)
    ensures s == [] ==> InsertBy(x, s, after) == [x]
    ensures s != [] ==> InsertBy(x, s, after)[0] in {x, s[0]}
  {
    if s != [] && after(x, s[0]) {
      var t := InsertBy(x, s[1..], after);
      assert AdjacentSortedBy(s[1..], after) by {
        forall i | 0 <= i < |s[1..]| - 1 ensures !after(s[1..][i], s[1..][i + 1]) {
          assert s[1..][i] == s[i + 1] && s[1..][i + 1] == s[i + 2];
        }
      }
      InsertBySorted(x, s[1..], after);
      var r := [s[0]] + t;
      forall i | 0 <= i < |r| - 1 ensures !after(r[i], r[i + 1]) {
        if i > 0 {
          assert r[i] == t[i - 1] && r[i + 1] == t[i];
        } else if t[0] != x {
          assert t[0] == s[1];
        }
      }
    }
  }

  /** For an asymmetric `after`, the insertion sort leaves no element sorting after its
      successor. */
  lemma {:induction false} SortBySorted<T>(xs: seq<T>, after: (T, T) -> bool)
    requires forall a, b :: after(a, b) ==> !after(b, a)
    ensures AdjacentSortedBy(SortBy(xs, after), after)
  {
    if xs != [] {
      SortBySorted(xs[1..], after);
      InsertBySorted(xs[0], SortBy(xs[1..], after), after);
    }
  }

  /** `xs.flatMap(f)`: the concatenation of `f(x)` over `xs`, in order. */
  function FlatMap<T, U>(xs: seq<T>, f: T -> seq<U>): (r: seq<U>)
    ensures |xs| == 0 ==> r == []
  {
    if xs == [] then [] else f(xs[0]) + FlatMap(xs[1..], f)
  }

  lemma {:induction false} FlatMapAppend<T, U>(a: seq<T>, b: seq<T>, f: T -> seq<U>)
    ensures FlatMap(a + b, f) == FlatMap(a, f) + FlatMap(b, f)
  {
    if a == [] {
      assert a + b == b;
    } else {
      assert (a + b)[1..] == a[1..] + b;
      FlatMapAppend(a[1..], b, f);
    }
  }

  predicate Distinct<T(==)>(s: seq<T>) {
    forall i, j :: 0 <= i < j < |s| ==> s[i] != s[j]
  }

  /** The first occurrences of the elements of `xs`, in order: what a JavaScript `Set` built by
      adding `xs` one by one holds, in its iteration order. */
  function Dedup<T(==)>(xs: seq<T>): (r: seq<T>)
    ensures Distinct(r)
    ensures forall i :: 0 <= i < |r| ==> r[i] in xs
    ensures forall i :: 0 <= i < |xs| ==> xs[i] in r
    ensures |r| <= |xs|
  {
    if xs == [] then []
    else
      var r := Dedup(xs[..|xs| - 1]);
      if xs[|xs| - 1] in r then r else r + [xs[|xs| - 1]]
  }

  /** Appending one more element to a de-duplicated list keeps the earlier first occurrences. */
  lemma DedupSnoc<T>(xs: seq<T>, x: T)
    ensures Dedup(xs + [x]) == if x in Dedup(xs) then Dedup(xs) else Dedup(xs) + [x]
  {
    assert (xs + [x])[..|xs + [x]| - 1] == xs;
  }

  /** A list without repeats is its own de-duplication. */
  lemma DedupOfDistinct<T>(xs: seq<T>)
    requires Distinct(xs)
    ensures Dedup(xs) == xs
  {
    if xs != [] {
      var init := xs[..|xs| - 1];
      assert Distinct(init);
      DedupOfDistinct(init);
      assert xs == init + [xs[|xs| - 1]];
    }
  }

  /** In a list without repeats every element occurs once. */
  lemma {:induction false} DistinctOccursOnce<T>(s: seq<T>, x: T)
    requires Distinct(s)
    ensures multiset(s)[x] <= 1
  {
    if s != [] {
      assert s == [s[0]] + s[1..];
      assert Distinct(s[1..]);
      DistinctOccursOnce(s[1..], x);
      if x == s[0] {
        assert x !in s[1..];
      }
    }
  }

  /** A rearrangement of a list without repeats has no repeats. */
  lemma DistinctPermutation<T>(a: seq<T>, b: seq<T>)
    requires Distinct(a) && multiset(a) == multiset(b)
    ensures Distinct(b)
  {
    forall i, j | 0 <= i < j < |b| ensures b[i] != b[j] {
      if b[i] == b[j] {
        var x := b[i];
        assert b == b[..j] + [b[j]] + b[j + 1..];
        assert x in b[..j];
        assert multiset(b)[x] >= 2;
        DistinctOccursOnce(a, x);
      }
    }
  }

  /** `s.indexOf(x)`: the first position holding `x`, or -1. */
  function IndexOf<T(==)>(s: seq<T>, x: T): (k: int)
    ensures -1 <= k < |s|
    ensures k == -1 <==> x !in s
    ensures 0 <= k ==> s[k] == x && x !in s[..k]
  {
    if s == [] then -1
    else if s[0] == x then 0
    else
      var k := IndexOf(s[1..], x);
      assert k >= 0 ==> s[..k + 1] == [s[0]] + s[1..][..k];
      if k == -1 then -1 else k + 1
  }

  /** The sum of `f` over the elements, as `reduce((sum, x) => sum + f(x), 0)` computes it. */
  function SumOf<T>(xs: seq<T>, f: T -> nat): nat
  {
    if xs == [] then 0 else f(xs[0]) + SumOf(xs[1..], f)
  }
}
