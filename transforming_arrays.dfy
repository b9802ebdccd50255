/**
 * The "Transforming Arrays" playground page: the hand-written `ourMap` and
 * `last(where:)` extensions, the demo loop that builds `squared` with
 * `append`, the reversed scan that stops at the first match, and the page's
 * worked map/filter/reduce/flatMap/compactMap examples with the results
 * their comments announce.
 */
module TransformingArrays {
  import opened Optional
  import opened Transforms

  /** `Array.ourMap`: starts from an empty array and appends `transform(i)` for each element. */
  method OurMap<T, R>(s: seq<T>, transform: T -> R) returns (back: seq<R>)
    ensures |back| == |s|
    ensures forall i :: 0 <= i < |s| ==> back[i] == transform(s[i])
    ensures back == Map(s, transform)
  {
    back := [];
    for k := 0 to |s|
      invariant |back| == k
      invariant forall i :: 0 <= i < k ==> back[i] == transform(s[i])
    {
      back := back + [transform(s[k])];
    }
  }

  /** `Sequence.last(where:)`: scans `reversed()` and returns the first element that matches. */
  method LastWhere<T>(s: seq<T>, matches: T -> bool) returns (r: Option<T>)
    ensures r == LastMatch(s, matches)
  {
    var rev := Reversed(s);
    for k := 0 to |rev|
      invariant forall j :: |s| - k <= j < |s| ==> !matches(s[j])
    {
      if matches(rev[k]) {
        LastMatchAt(s, matches, |s| - 1 - k);
        return Some(rev[k]);
      }
    }
    return None;
  }

  /** The hand-written loop that `last(where:)` replaces: break out of the reversed scan at the first match. */
  method LastMatchingLoop<T>(s: seq<T>, matches: T -> bool) returns (found: Option<T>)
    ensures found == LastMatch(s, matches)
  {
    found := None;
    var rev := Reversed(s);
    for k := 0 to |rev|
      invariant found.None?
      invariant forall j :: |s| - k <= j < |s| ==> !matches(s[j])
    {
      if matches(rev[k]) {
        found := Some(rev[k]);
        LastMatchAt(s, matches, |s| - 1 - k);
        break;
      }
    }
  }

  /** If `s[k]` matches and nothing after it does, `s[k]` is the last match. */
  lemma LastMatchAt<T>(s: seq<T>, p: T -> bool, k: nat)
    requires k < |s| && p(s[k])
    requires forall j :: k < j < |s| ==> !p(s[j])
    ensures LastMatch(s, p) == Some(s[k])
  {
  }

  /** The demo loop that fills `squared`: as written it appends `f` itself, so it copies its input. */
  method SquaredLoop(fibs: seq<int>) returns (squared: seq<int>)
    ensures squared == fibs
  {
    squared := [];
    for k := 0 to |fibs|
      invariant squared == fibs[..k]
    {
      squared := squared + [fibs[k]];
    }
  }

  /** The loop as its comment intends it: appends `f * f`, which is `map { fib in fib * fib }`. */
  method SquaresLoop(fibs: seq<int>) returns (squared: seq<int>)
    ensures |squared| == |fibs|
    ensures forall i :: 0 <= i < |fibs| ==> squared[i] == fibs[i] * fibs[i]
    ensures squared == Map(fibs, fib => fib * fib)
  {
    squared := [];
    for k := 0 to |fibs|
      invariant |squared| == k
      invariant forall i :: 0 <= i < k ==> squared[i] == fibs[i] * fibs[i]
    {
      squared := squared + [fibs[k] * fibs[k]];
    }
  }

  const Fibs: seq<int> := [0, 1, 1, 2, 3, 5]

  /** The `squared` demo as written: the result is the Fibonacci numbers, not the squares the comment shows. */
  method SquaredDemo() returns (squared: seq<int>)
    ensures squared == [0, 1, 1, 2, 3, 5]
    ensures squared != [0, 1, 1, 4, 9, 25]
  {
    squared := SquaredLoop(Fibs);
  }

  /** `fibs.map { fib in fib * fib }`, and the corrected loop, both give the squares. */
  method SquaresDemo() returns (squares: seq<int>, squared: seq<int>)
    ensures squares == [0, 1, 1, 4, 9, 25]
    ensures squared == squares
  {
    squares := Map(Fibs, fib => fib * fib);
    squared := SquaresLoop(Fibs);
  }

  // ---------------------------------------------------------------------
  // The worked flatMap, filter, reduce and compactMap examples

  const Results: seq<seq<int>> := [[5, 2, 7], [4, 8], [9, 1, 3]]

  /** `results.flatMap { $0 }` concatenates, and filtering each piece for `> 5` first keeps `[7, 8, 9]`. */
  lemma FlatMapResults()
    ensures FlatMap(Results, xs => xs) == [5, 2, 7, 4, 8, 9, 1, 3]
    ensures FlatMap(Results, xs => Filter(xs, x => x > 5)) == [7, 8, 9]
  {
  }

  /** `suits.flatMap { suit in ranks.map { rank in (suit, rank) } }`: one pair per suit and rank. */
  function Deal(suits: seq<string>, ranks: seq<string>): (r: seq<(string, string)>)
    ensures |r| == |suits| * |ranks|
  {
    FlatMapUniformLength(suits, suit => Map(ranks, rank => (suit, rank)), |ranks|);
    FlatMap(suits, suit => Map(ranks, rank => (suit, rank)))
  }

  /** The deal is suit-major: all ranks of a suit, in rank order, before the next suit. */
  lemma DealIsSuitMajor(suits: seq<string>, ranks: seq<string>, i: nat, j: nat)
    requires i < |suits| && j < |ranks|
    ensures i * |ranks| + j < |Deal(suits, ranks)|
    ensures Deal(suits, ranks)[i * |ranks| + j] == (suits[i], ranks[j])
  {
    FlatMapUniform(suits, suit => Map(ranks, rank => (suit, rank)), |ranks|, i, j);
  }

  /** The page's 4 x 4 deck: 16 pairs, "♠" with every rank first. */
  lemma DeckExample()
    ensures |Deal(["♠", "♥", "♣", "♦"], ["J", "Q", "K", "A"])| == 16
    ensures Deal(["♠", "♥", "♣", "♦"], ["J", "Q", "K", "A"])[..4] ==
            [("♠", "J"), ("♠", "Q"), ("♠", "K"), ("♠", "A")]
    ensures Deal(["♠", "♥", "♣", "♦"], ["J", "Q", "K", "A"])[15] == ("♦", "A")
  {
    var suits, ranks := ["♠", "♥", "♣", "♦"], ["J", "Q", "K", "A"];
    DealIsSuitMajor(suits, ranks, 3, 3);
    forall j | 0 <= j < 4 ensures Deal(suits, ranks)[j] == (suits[0], ranks[j]) {
      DealIsSuitMajor(suits, ranks, 0, j);
    }
  }

  /** `digits.filter { $0 % 2 == 0 }` keeps `[4, 10]`. */
  lemma FilterEvenExample()
    ensures Filter([1, 4, 10, 15], x => x % 2 == 0) == [4, 10]
  {
  }

  /** The closure `{ $0 >= 7 }`. */
  predicate IsPass(mark: int) { mark >= 7 }

  /** The operator `+` passed to `reduce`. */
  function Plus(total: int, mark: int): int { total + mark }

  /** `marks.filter { $0 >= 7 }` keeps the passing marks in order. */
  lemma PassingMarksExample()
    ensures Filter([4, 5, 8, 2, 9, 7], IsPass) == [8, 9, 7]
  {
  }

  /** `[8, 9, 7].reduce(0, +)` adds from the left: ((0 + 8) + 9) + 7. */
  lemma SumOfPassingMarks()
    ensures Reduce([8, 9, 7], 0, Plus) == 24
  {
    assert [8, 9, 7][..2] == [8, 9];
    assert [8, 9][..1] == [8];
    assert [8][..0] == [];
  }

  /** `marks.filter { $0 >= 7 }.reduce(0, +)` sums the passing marks to 24. */
  lemma TotalPassExample()
    ensures Reduce(Filter([4, 5, 8, 2, 9, 7], IsPass), 0, Plus) == 24
  {
    PassingMarksExample();
    SumOfPassingMarks();
  }

  /** `input.flatMap { $0 > 5 ? $0 : nil }` on the parsed value 8 gives 8. */
  lemma PassMarkExample()
    ensures Some(8).FlatMap(x => if x > 5 then Some(x) else None) == Some(8)
  {
  }

  const Keys: seq<Option<string>> := [Some("Tom"), None, Some("Peter"), None, Some("Harry")]

  /** `keys.compactMap { $0 }` drops the nils; `keys.compactMap { $0?.count }` gives the name lengths. */
  lemma CompactMapExamples()
    ensures CompactMap(Keys, k => k) == ["Tom", "Peter", "Harry"]
    ensures CompactMap(Keys, (k: Option<string>) => k.Map(name => |name|)) == [3, 5, 5]
  {
  }

  /** `name.hasSuffix(suffix)`, on characters: `name` ends with `suffix`. */
  predicate HasSuffix(name: string, suffix: string)
    ensures HasSuffix(name, suffix) <==> exists prefix :: name == prefix + suffix
  {
    if |suffix| <= |name| && name[|name| - |suffix|..] == suffix then
      assert name == name[..|name| - |suffix|] + suffix;
      true
    else
      false
  }

  /** `names.last { $0.hasSuffix("a") }` and the hand-written loop both give "Elena". */
  method LastNameEndingInA() returns (lastMatch: Option<string>, lastNameEndingInA: Option<string>)
    ensures lastMatch == Some("Elena")
    ensures lastNameEndingInA == lastMatch
  {
    var names := ["Paula", "Elena", "Zoe"];
    assert !HasSuffix(names[2], "a");
    assert HasSuffix(names[1], "a");
    lastNameEndingInA := LastMatchingLoop(names, name => HasSuffix(name, "a"));
    lastMatch := LastWhere(names, name => HasSuffix(name, "a"));
  }
}
