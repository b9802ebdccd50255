# Swift array semantics, modelled in Dafny

This project models the two array pages of the `Swift_Advanced` playground.

- **Transforming Arrays** (`2_Arrays`). The page defines its own `Array.ourMap` and `Sequence.last(where:)`. It also has one demo loop that builds `squared` with `append`, one reversed scan that stops at the first match, and worked examples of `map`, `filter`, `reduce`, `flatMap` and `compactMap`, each with its expected result in a comment.
- **Arrays and Mutability** (`1_Arrays`). The page shows that a Swift `Array` is a value: `append` changes only the variable it is called on, and `var y = x` copies. It contrasts this with Foundation's `NSMutableArray`, a reference type: a second reference sees inserts made through the first, and only `copy()` gives an independent snapshot. It also takes a range slice.

Modules:

- `Optional` (`option.dfy`): Swift's `Optional` as `Option<T>`, with `map` and `flatMap`.
- `Transforms` (`transforms.dfy`): the library transforms as functions on `seq`. Closures become function-typed parameters. The module holds the specification of `last(where:)` (`LastMatch`) and lemmas about order, concatenation, counts and layout.
- `TransformingArrays` (`transforming_arrays.dfy`): the page's own loops as methods with loop invariants, plus the page's worked examples. `OurMap`, `LastWhere`, `LastMatchingLoop` and the corrected squaring loop are each proved equal to a `Transforms` function. The `squared` loop as written is proved to return its input.
- `ArraysAndMutability` (`arrays_and_mutability.dfy`): Swift arrays as `seq` values in local variables, and `NSMutableArray` as a class whose `elements` field is updated in place. Its methods carry `modifies` frames. `NSArray`, the result of `copy()`, is a class whose elements are fixed at creation.

## Model

| member | source | states |
|---|---|---|
| `Transforms.Map` | Swift_Advanced.playground/Pages/2_Arrays.xcplaygroundpage/Contents.swift:22 | `map` returns one element per input element: same length, and position i holds `f(s[i])` |
| `Transforms.Filter` | Swift_Advanced.playground/Pages/2_Arrays.xcplaygroundpage/Contents.swift:77-79 | `filter` is no longer than its input; every kept element is in the input and matches; every matching input element is kept |
| `Transforms.FilterConcat` | Swift_Advanced.playground/Pages/2_Arrays.xcplaygroundpage/Contents.swift:77-79 | filtering a concatenation is the concatenation of the filtered parts, so kept elements stay in their original order |
| `Transforms.FilterCounts` | Swift_Advanced.playground/Pages/2_Arrays.xcplaygroundpage/Contents.swift:77-79 | `filter` keeps each matching value exactly as often as it occurs and drops every non-matching value |
| `Transforms.Reduce` | Swift_Advanced.playground/Pages/2_Arrays.xcplaygroundpage/Contents.swift:108-109 | `reduce(initial, combine)` on an empty array returns `initial`; its left-to-right order is stated by `ReduceConcat` and `ReduceFront` |
| `Transforms.ReduceConcat` | Swift_Advanced.playground/Pages/2_Arrays.xcplaygroundpage/Contents.swift:108-109 | folding `a + b` folds `a` first, then continues over `b` from that result (a left fold) |
| `Transforms.ReduceFront` | Swift_Advanced.playground/Pages/2_Arrays.xcplaygroundpage/Contents.swift:108-109 | `reduce(initial, combine)` combines `initial` with the first element first |
| `Transforms.FlatMap` | Swift_Advanced.playground/Pages/2_Arrays.xcplaygroundpage/Contents.swift:59-62 | `flatMap` on an empty array is empty, and every transformed piece fits in the result; the order and layout of the pieces are stated by `FlatMapConcat`, `FlatMapSingletons` and `FlatMapUniform` |
| `Transforms.FlatMapConcat` | Swift_Advanced.playground/Pages/2_Arrays.xcplaygroundpage/Contents.swift:59-61 | `flatMap` over a concatenation is the concatenation of the two `flatMap`s |
| `Transforms.FlatMapSingletons` | Swift_Advanced.playground/Pages/2_Arrays.xcplaygroundpage/Contents.swift:59-61 | `flatMap` flattens exactly one level: with singleton pieces it gives back the input |
| `Transforms.FlatMapFilter` | Swift_Advanced.playground/Pages/2_Arrays.xcplaygroundpage/Contents.swift:62-63 | filtering each inner array and then flattening equals flattening and then filtering |
| `Transforms.FlatMapUniformLength` | Swift_Advanced.playground/Pages/2_Arrays.xcplaygroundpage/Contents.swift:66-70 | when the piece of every input element has length n, the result has length `n` times the input's length, for every input, the empty one included |
| `Transforms.FlatMapUniform` | Swift_Advanced.playground/Pages/2_Arrays.xcplaygroundpage/Contents.swift:66-70 | when the piece of every input element has length n, position `i * n + j` of the result holds element j of the piece for `s[i]` |
| `Transforms.CompactMap` | Swift_Advanced.playground/Pages/2_Arrays.xcplaygroundpage/Contents.swift:95-102 | `compactMap` is no longer than its input, and every result is the non-nil transform of some input element |
| `Transforms.CompactMapIsMapThenFilter` | Swift_Advanced.playground/Pages/2_Arrays.xcplaygroundpage/Contents.swift:95-102 | `compactMap` keeps exactly the non-nil results of `map`, in order, and drops the nils |
| `Transforms.MapConcat` | Swift_Advanced.playground/Pages/2_Arrays.xcplaygroundpage/Contents.swift:22 | `map` over a concatenation is the concatenation of the two maps |
| `Transforms.Reversed` | Swift_Advanced.playground/Pages/2_Arrays.xcplaygroundpage/Contents.swift:138 | `reversed()` has the same length, and position i holds the element i places from the end |
| `Transforms.LastMatch` | Swift_Advanced.playground/Pages/2_Arrays.xcplaygroundpage/Contents.swift:136-142 | the result is nil exactly when no element matches; otherwise it is an element that matches, and no later element matches |
| `TransformingArrays.OurMap` | Swift_Advanced.playground/Pages/2_Arrays.xcplaygroundpage/Contents.swift:38-47 | the loop that appends `transform(i)` to an empty array returns an array as long as its input, with `transform(s[i])` at each i; this is `Map` |
| `TransformingArrays.LastWhere` | Swift_Advanced.playground/Pages/2_Arrays.xcplaygroundpage/Contents.swift:136-142 | the scan of `reversed()` with an early return yields `LastMatch`: the last matching element, or nil when none matches |
| `TransformingArrays.LastMatchingLoop` | Swift_Advanced.playground/Pages/2_Arrays.xcplaygroundpage/Contents.swift:126-133 | the hand-written reversed loop with `break` yields the same `LastMatch` as `last(where:)` |
| `TransformingArrays.LastMatchAt` | Swift_Advanced.playground/Pages/2_Arrays.xcplaygroundpage/Contents.swift:137-138 | an element that matches, with no match after it, is the `LastMatch` of the sequence |
| `TransformingArrays.SquaredLoop` | Swift_Advanced.playground/Pages/2_Arrays.xcplaygroundpage/Contents.swift:16-19 | the loop as written appends each `f` unchanged, so `squared` equals its input |
| `TransformingArrays.SquaresLoop` | Swift_Advanced.playground/Pages/2_Arrays.xcplaygroundpage/Contents.swift:16-22 | the loop as intended appends `f * f`; it equals `fibs.map { fib in fib * fib }` |
| `TransformingArrays.SquaredDemo` | Swift_Advanced.playground/Pages/2_Arrays.xcplaygroundpage/Contents.swift:15-20 | on `[0, 1, 1, 2, 3, 5]` the loop as written gives the input back, not the `[0, 1, 1, 4, 9, 25]` of the comment |
| `TransformingArrays.SquaresDemo` | Swift_Advanced.playground/Pages/2_Arrays.xcplaygroundpage/Contents.swift:21-23 | `fibs.map { fib in fib * fib }` is `[0, 1, 1, 4, 9, 25]`, and the intended loop gives the same |
| `TransformingArrays.FlatMapResults` | Swift_Advanced.playground/Pages/2_Arrays.xcplaygroundpage/Contents.swift:59-63 | `results.flatMap { $0 }` is `[5, 2, 7, 4, 8, 9, 1, 3]`; filtering each inner array for `> 5` first gives `[7, 8, 9]` |
| `TransformingArrays.Deal` | Swift_Advanced.playground/Pages/2_Arrays.xcplaygroundpage/Contents.swift:66-70 | the deal of `suits` by `ranks` has one pair per suit and rank: its length is the number of suits times the number of ranks, for empty inputs too |
| `TransformingArrays.DealIsSuitMajor` | Swift_Advanced.playground/Pages/2_Arrays.xcplaygroundpage/Contents.swift:66-70 | pair `i * n + j` of the deal, with n ranks, is `(suits[i], ranks[j])`: every rank of a suit, in rank order, before the next suit |
| `TransformingArrays.DeckExample` | Swift_Advanced.playground/Pages/2_Arrays.xcplaygroundpage/Contents.swift:66-70 | the page's 4 x 4 deal has 16 pairs; the first four are "♠" with J, Q, K, A, and the last is ("♦", "A") |
| `TransformingArrays.FilterEvenExample` | Swift_Advanced.playground/Pages/2_Arrays.xcplaygroundpage/Contents.swift:77-79 | `[1, 4, 10, 15].filter { $0 % 2 == 0 }` is `[4, 10]` |
| `TransformingArrays.PassingMarksExample` | Swift_Advanced.playground/Pages/2_Arrays.xcplaygroundpage/Contents.swift:108-109 | `[4, 5, 8, 2, 9, 7].filter { $0 >= 7 }` is `[8, 9, 7]` |
| `TransformingArrays.SumOfPassingMarks` | Swift_Advanced.playground/Pages/2_Arrays.xcplaygroundpage/Contents.swift:109 | `reduce(0, +)` over `[8, 9, 7]` folds from the left to 24 |
| `TransformingArrays.TotalPassExample` | Swift_Advanced.playground/Pages/2_Arrays.xcplaygroundpage/Contents.swift:108-110 | filtering the marks for `>= 7` and then `reduce(0, +)` gives 24 |
| `TransformingArrays.PassMarkExample` | Swift_Advanced.playground/Pages/2_Arrays.xcplaygroundpage/Contents.swift:89-91 | `flatMap { $0 > 5 ? $0 : nil }` on the optional 8 gives 8 |
| `TransformingArrays.CompactMapExamples` | Swift_Advanced.playground/Pages/2_Arrays.xcplaygroundpage/Contents.swift:95-102 | `keys.compactMap { $0 }` is `["Tom", "Peter", "Harry"]`, and `keys.compactMap { $0?.count }` is `[3, 5, 5]` |
| `TransformingArrays.HasSuffix` | Swift_Advanced.playground/Pages/2_Arrays.xcplaygroundpage/Contents.swift:129 | `name.hasSuffix(suffix)` holds exactly when `name` is some prefix followed by `suffix` |
| `TransformingArrays.LastNameEndingInA` | Swift_Advanced.playground/Pages/2_Arrays.xcplaygroundpage/Contents.swift:127-145 | on `["Paula", "Elena", "Zoe"]` with suffix "a", both `last(where:)` and the hand-written loop give `Optional("Elena")` |
| `Optional.Option.Map` | Swift_Advanced.playground/Pages/2_Arrays.xcplaygroundpage/Contents.swift:100 | `$0?.count` maps a wrapped value and keeps nil as nil |
| `Optional.Option.FlatMap` | Swift_Advanced.playground/Pages/2_Arrays.xcplaygroundpage/Contents.swift:89-90 | `Optional.flatMap` is nil on nil, and otherwise whatever the transform returns |
| `Optional.FlatMapSomeIsMap` | Swift_Advanced.playground/Pages/2_Arrays.xcplaygroundpage/Contents.swift:89-90 | `flatMap` with a transform that never yields nil agrees with `map` |
| `ArraysAndMutability.Append` | Swift_Advanced.playground/Pages/1_Arrays.xcplaygroundpage/Contents.swift:21 | `append(8)` adds one element at the end: length grows by one, and earlier elements are unchanged |
| `ArraysAndMutability.AppendContentsOf` | Swift_Advanced.playground/Pages/1_Arrays.xcplaygroundpage/Contents.swift:22 | appending the elements one at a time in order gives exactly the concatenation `a + xs` |
| `ArraysAndMutability.Slice` | Swift_Advanced.playground/Pages/1_Arrays.xcplaygroundpage/Contents.swift:83 | `s[lo..<hi]` has `hi - lo` elements, and position i holds `s[lo + i]` |
| `ArraysAndMutability.MutableFibs` | Swift_Advanced.playground/Pages/1_Arrays.xcplaygroundpage/Contents.swift:19-23 | after `append(8)` and `append(contentsOf: [13, 21])` the array is `[0, 1, 1, 2, 3, 5, 8, 13, 21]` |
| `ArraysAndMutability.ValueSemantics` | Swift_Advanced.playground/Pages/1_Arrays.xcplaygroundpage/Contents.swift:31-35 | after `var y = x; y.append(4)`, `y` is `[1, 2, 3, 4]` and `x` is still `[1, 2, 3]` |
| `ArraysAndMutability.SliceAllButFirst` | Swift_Advanced.playground/Pages/1_Arrays.xcplaygroundpage/Contents.swift:83-84 | `fibs[1..<fibs.endIndex]` is `[1, 1, 2, 3, 5]`, the input without its first element |
| `ArraysAndMutability.NSMutableArray.constructor` | Swift_Advanced.playground/Pages/1_Arrays.xcplaygroundpage/Contents.swift:42 | `NSMutableArray(array:)` holds the given elements |
| `ArraysAndMutability.NSMutableArray.Insert` | Swift_Advanced.playground/Pages/1_Arrays.xcplaygroundpage/Contents.swift:45 | `insert(_:at:)` puts `x` at `index`, keeps the elements before it, shifts the rest right by one, and changes only this object |
| `ArraysAndMutability.NSMutableArray.Copy` | Swift_Advanced.playground/Pages/1_Arrays.xcplaygroundpage/Contents.swift:49 | `copy()` returns a newly allocated immutable `NSArray` holding the current elements |
| `ArraysAndMutability.NSArray.constructor` | Swift_Advanced.playground/Pages/1_Arrays.xcplaygroundpage/Contents.swift:49 | an `NSArray` holds the elements it was created with, and none of its methods can change them |
| `ArraysAndMutability.AliasedInsert` | Swift_Advanced.playground/Pages/1_Arrays.xcplaygroundpage/Contents.swift:42-46 | `b` is the same object as `a`, so after inserting 4 at index 3 through `a`, `b` shows `(1, 2, 3, 4)` |
| `ArraysAndMutability.CopiedSnapshot` | Swift_Advanced.playground/Pages/1_Arrays.xcplaygroundpage/Contents.swift:48-51 | `d = c.copy()` is a different, immutable object, so after inserting 4 into `c`, `d` stays `(1, 2, 3)` |
| `ArraysAndMutability.InsertLeavesOthers` | Swift_Advanced.playground/Pages/1_Arrays.xcplaygroundpage/Contents.swift:48-51 | for any two distinct objects, an insert through one leaves the other's elements unchanged |

## Findings

| source | as written | input that shows it | evidently intended | confidence | as-written member | corrected member |
|---|---|---|---|---|---|---|
| Swift_Advanced.playground/Pages/2_Arrays.xcplaygroundpage/Contents.swift:17-20 | the loop appends `f`, so `squared` equals `fibs` | `fibs = [0, 1, 1, 2, 3, 5]` gives `[0, 1, 1, 2, 3, 5]`, not the `[0, 1, 1, 4, 9, 25]` in the comment | append `f * f`, the same as the `map` on line 22 | high (proved, not executed) | `TransformingArrays.SquaredDemo` | `TransformingArrays.SquaresLoop` |

## Left out

- `Slice`: the result is indexed from 0. A Swift `ArraySlice` keeps the base array's indices, so this slice starts at index 1; the model does not capture index identity or the `ArraySlice` type.
- `Slice`: an out-of-range subscript is a runtime trap in Swift, not an error value the program can handle, so `Slice` requires its bounds instead of returning a range error.
- `reserveCapacity` in `ourMap` (2_Arrays:41) is a performance hint with no observable effect.
- `Int("8")` (2_Arrays:89): string-to-integer parsing is not modelled; `PassMarkExample` starts from the parsed value `Some(8)`.
- The floating-point examples are not modelled: the miles-to-kilometres map over a dictionary (2_Arrays:25-26) and `reduce` over `Double`s (2_Arrays:85-87). The integer fold at 2_Arrays:108-109 stands for `reduce`.
- `hasSuffix` and `count` on strings work on `seq<char>`. `HasSuffix` compares characters one by one, while Swift compares strings by canonical equivalence. `count` is the number of characters, while Swift counts grapheme clusters. Both agree with Swift on the page's ASCII names only.
- The `NSArray` static type of `b` (1_Arrays:43) is not modelled. That up-cast only forbids mutating calls through `b` at compile time; `b` is modelled as a second reference of type `NSMutableArray`, and the model never mutates through it.
- `NSMutableArray.Insert`: Foundation's `insert(_:at:)` raises `NSRangeException` when the index is past the end, and in Swift that exception ends the program. The model requires the index to be in range instead; both calls on the page insert at 3 into a three-element array.
- `NSMutableArray.Copy`: Foundation's `copy()` returns an `NSArray` whose dynamic class may be a private subclass; the model returns its own immutable `NSArray` class, and the `as! NSArray` cast (1_Arrays:49) is not modelled because it always succeeds here.
- `SquaresLoop`: Swift's `*` on `Int` traps on 64-bit overflow; the model multiplies unbounded integers, so it does not capture the trap for inputs whose square exceeds `Int.max`.
- `Plus`: Swift's `+` on `Int` traps on 64-bit overflow; the model adds unbounded integers. The same holds for `fib * fib` in `SquaresDemo`; neither page example comes near the bound.
- Copy-on-write storage sharing (1_Arrays:53-58) is not modelled; only its observable value semantics are, through `seq`.
- `Swift_Advanced.playground/Contents.swift` declares two array literals and has no behaviour; it is not part of this model.
- `print`, the prose string literals, playground page links and `type(of:)` are presentation and are left out.
