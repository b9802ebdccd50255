/**
 * The standard-library collection transforms that the "Transforming Arrays"
 * page demonstrates (map, filter, reduce, flatMap, compactMap, reversed) and
 * the specification of `last(where:)`, all as functions on values.
 */
module Transforms {
  import opened Optional

  /** `map`: one transformed element per input element, in order. */
  function Map<T, R>(s: seq<T>, f: T -> R): (r: seq<R>)
    ensures |r| == |s|
    ensures forall i :: 0 <= i < |s| ==> r[i] == f(s[i])
  {
    if s == [] then [] else [f(s[0])] + Map(s[1..], f)
  }

  /** `filter`: the elements that satisfy `p`, in their original order. */
  function Filter<T>(s: seq<T>, p: T -> bool): (r: seq<T>)
    ensures |r| <= |s|
    ensures forall i :: 0 <= i < |r| ==> r[i] in s && p(r[i])
    ensures forall i :: 0 <= i < |s| && p(s[i]) ==> s[i] in r
  {
    if s == [] then []
    else (if p(s[0]) then [s[0]] else []) + Filter(s[1..], p)
  }

  /** `reduce(initial, combine)`: a fold from the left, starting at `initial`. */
  function Reduce<T, A>(s: seq<T>, initial: A, combine: (A, T) -> A): (r: A)
    ensures s == [] ==> r == initial
  {
    if s == [] then initial
    else combine(Reduce(s[..|s| - 1], initial, combine), s[|s| - 1])
  }

  /** `flatMap` with a sequence-valued transform: the transformed pieces, concatenated in order. */
  function FlatMap<T, R>(s: seq<T>, f: T -> seq<R>): (r: seq<R>)
    ensures s == [] ==> r == []
    ensures forall i :: 0 <= i < |s| ==> |f(s[i])| <= |r|
  {
    if s == [] then [] else f(s[0]) + FlatMap(s[1..], f)
  }

  /** `compactMap`: the non-nil transformed values, in order. */
  function CompactMap<T, R>(s: seq<T>, f: T -> Option<R>): (r: seq<R>)
    ensures |r| <= |s|
    ensures forall i :: 0 <= i < |r| ==> exists k :: 0 <= k < |s| && f(s[k]) == Some(r[i])
  {
    if s == [] then []
    else
      var rest := CompactMap(s[1..], f);
      var r := (match f(s[0]) case Some(v) => [v] case None => []) + rest;
      assert forall i :: 0 <= i < |rest| ==> exists k :: 0 <= k < |s| && f(s[k]) == Some(rest[i]) by {
        forall i | 0 <= i < |rest| ensures exists k :: 0 <= k < |s| && f(s[k]) == Some(rest[i]) {
          var k :| 0 <= k < |s[1..]| && f(s[1..][k]) == Some(rest[i]);
          assert f(s[k + 1]) == Some(rest[i]);
        }
      }
      r
  }

  /** `reversed()`: the same elements, back to front. */
  function Reversed<T>(s: seq<T>): (r: seq<T>)
    ensures |r| == |s|
    ensures forall i :: 0 <= i < |s| ==> r[i] == s[|s| - 1 - i]
  {
    if s == [] then [] else Reversed(s[1..]) + [s[0]]
  }

  /**
   * The specification of `last(where:)`: the element of greatest index that
   * satisfies `p`, or `None` when no element does.
   */
  function LastMatch<T>(s: seq<T>, p: T -> bool): (r: Option<T>)
    ensures r.None? <==> forall i :: 0 <= i < |s| ==> !p(s[i])
    ensures r.Some? ==> exists k :: 0 <= k < |s| && s[k] == r.value && p(s[k]) &&
                                    forall j :: k < j < |s| ==> !p(s[j])
  {
    if s == [] then None
    else if p(s[|s| - 1]) then Some(s[|s| - 1])
    else
      var r := LastMatch(s[..|s| - 1], p);
      assert r.Some? ==> exists k :: 0 <= k < |s| - 1 && s[k] == r.value && p(s[k]) &&
                                     forall j :: k < j < |s| - 1 ==> !p(s[j]);
      r
  }

  // ---------------------------------------------------------------------
  // Properties of the transforms

  /** `filter` distributes over concatenation: surviving elements keep their relative order. */
  lemma {:induction false} FilterConcat<T>(a: seq<T>, b: seq<T>, p: T -> bool)
    ensures Filter(a + b, p) == Filter(a, p) + Filter(b, p)
  {
    if a == [] {
      assert a + b == b;
    } else {
      assert (a + b)[1..] == a[1..] + b;
      FilterConcat(a[1..], b, p);
    }
  }

  /** `filter` keeps every matching element as many times as it occurs and drops every other one. */
  lemma {:induction false} FilterCounts<T>(s: seq<T>, p: T -> bool, x: T)
    ensures multiset(Filter(s, p))[x] == if p(x) then multiset(s)[x] else 0
  {
    if s != [] {
      FilterCounts(s[1..], p, x);
      assert s == [s[0]] + s[1..];
    }
  }

  /** Folding a concatenation folds the first part, then continues from its result. */
  lemma {:induction false} ReduceConcat<T, A>(a: seq<T>, b: seq<T>, initial: A, combine: (A, T) -> A)
    ensures Reduce(a + b, initial, combine) == Reduce(b, Reduce(a, initial, combine), combine)
  {
    if b == [] {
      assert a + b == a;
    } else {
      assert (a + b)[..|a + b| - 1] == a + b[..|b| - 1];
      ReduceConcat(a, b[..|b| - 1], initial, combine);
    }
  }

  /** The fold visits elements left to right: the first element is combined first. */
  lemma ReduceFront<T, A>(x: T, s: seq<T>, initial: A, combine: (A, T) -> A)
    ensures Reduce([x] + s, initial, combine) == Reduce(s, combine(initial, x), combine)
  {
    ReduceConcat([x], s, initial, combine);
    assert [x][..0] == [];
  }

  /** `flatMap` distributes over concatenation of its input. */
  lemma {:induction false} FlatMapConcat<T, R>(a: seq<T>, b: seq<T>, f: T -> seq<R>)
    ensures FlatMap(a + b, f) == FlatMap(a, f) + FlatMap(b, f)
  {
    if a == [] {
      assert a + b == b;
    } else {
      assert (a + b)[1..] == a[1..] + b;
      FlatMapConcat(a[1..], b, f);
    }
  }

  /** `flatMap` with singleton pieces is the input itself. */
  lemma {:induction false} FlatMapSingletons<T>(s: seq<T>)
    ensures FlatMap(s, x => [x]) == s
  {
    if s != [] {
      FlatMapSingletons(s[1..]);
    }
  }

  /** Filtering every inner sequence and flattening equals flattening and then filtering. */
  lemma {:induction false} FlatMapFilter<T>(s: seq<seq<T>>, p: T -> bool)
    ensures FlatMap(s, xs => Filter(xs, p)) == Filter(FlatMap(s, xs => xs), p)
  {
    if s != [] {
      FlatMapFilter(s[1..], p);
      FilterConcat(s[0], FlatMap(s[1..], xs => xs), p);
    }
  }

  /** When every piece has length `n`, the flattened result has `n` elements per input element. */
  lemma {:induction false} FlatMapUniformLength<T, R>(s: seq<T>, f: T -> seq<R>, n: nat)
    requires forall k :: 0 <= k < |s| ==> |f(s[k])| == n
    ensures |FlatMap(s, f)| == |s| * n
  {
    if s != [] {
      FlatMapUniformLength(s[1..], f, n);
      assert |FlatMap(s, f)| == n + (|s| - 1) * n;
    }
  }

  /**
   * When every piece has length `n`, `flatMap` lays the pieces out one after
   * the other: position `i * n + j` holds element `j` of the piece for `s[i]`.
   */
  lemma {:induction false} FlatMapUniform<T, R>(s: seq<T>, f: T -> seq<R>, n: nat, i: nat, j: nat)
    requires forall k :: 0 <= k < |s| ==> |f(s[k])| == n
    requires i < |s| && j < n
    ensures i * n + j < |FlatMap(s, f)| && FlatMap(s, f)[i * n + j] == f(s[i])[j]
  {
    FlatMapUniformLength(s, f, n);
    if i > 0 {
      FlatMapUniform(s[1..], f, n, i - 1, j);
      assert i * n + j == n + ((i - 1) * n + j);
    }
  }

  /**
   * `compactMap` is `map` followed by dropping the nils: wrapping its results
   * back in `Some` gives exactly the non-nil transformed values, in order.
   */
  lemma {:induction false} CompactMapIsMapThenFilter<T, R>(s: seq<T>, f: T -> Option<R>)
    ensures Map(CompactMap(s, f), y => Some(y)) == Filter(Map(s, f), (o: Option<R>) => o.Some?)
  {
    if s != [] {
      CompactMapIsMapThenFilter(s[1..], f);
      assert Map(s, f)[1..] == Map(s[1..], f);
      var head := match f(s[0]) case Some(v) => [v] case None => [];
      MapConcat(head, CompactMap(s[1..], f), y => Some(y));
    }
  }

  /** `map` distributes over concatenation. */
  lemma MapConcat<T, R>(a: seq<T>, b: seq<T>, f: T -> R)
    ensures Map(a + b, f) == Map(a, f) + Map(b, f)
  {
  }
}
