/**
 * The "Arrays and Mutability" playground page. A Swift `Array` is a value:
 * here a `seq`, held in local variables that `append` reassigns, so that
 * `var y = x` gives `y` its own copy. Foundation's `NSMutableArray` is a
 * reference type: here a class whose one field holds the elements, so two
 * references to the same object see each other's inserts. Its `copy()`
 * allocates a separate, immutable `NSArray`.
 */
module ArraysAndMutability {

  /** `append(_:)`: one more element at the end, earlier elements unchanged. */
  function Append<T>(a: seq<T>, x: T): (r: seq<T>)
    ensures |r| == |a| + 1
    ensures r[..|a|] == a && r[|a|] == x
  {
    a + [x]
  }

  /** `append(contentsOf:)`: appends the elements of `xs` one at a time, in order. */
  function AppendContentsOf<T>(a: seq<T>, xs: seq<T>): (r: seq<T>)
    ensures |r| == |a| + |xs|
    ensures r == a + xs
    decreases xs
  {
    if xs == [] then a
    else
      var r := AppendContentsOf(Append(a, xs[0]), xs[1..]);
      assert a + [xs[0]] + xs[1..] == a + xs;
      r
  }

  /** The subscript `s[lo..<hi]`: the elements from position `lo` up to, not including, `hi`. */
  function Slice<T>(s: seq<T>, lo: nat, hi: nat): (r: seq<T>)
    requires lo <= hi <= |s|
    ensures |r| == hi - lo
    ensures forall i :: 0 <= i < |r| ==> r[i] == s[lo + i]
  {
    s[lo..hi]
  }

  /** `var mutableFibs = [0, 1, 1, 2, 3, 5]`, then `append(8)` and `append(contentsOf: [13, 21])`. */
  method MutableFibs() returns (mutableFibs: seq<int>)
    ensures mutableFibs == [0, 1, 1, 2, 3, 5, 8, 13, 21]
  {
    mutableFibs := [0, 1, 1, 2, 3, 5];
    mutableFibs := Append(mutableFibs, 8);
    assert mutableFibs == [0, 1, 1, 2, 3, 5, 8];
    mutableFibs := AppendContentsOf(mutableFibs, [13, 21]);
  }

  /** `var y = x; y.append(4)`: `y` grows, `x` is never modified. */
  method ValueSemantics() returns (x: seq<int>, y: seq<int>)
    ensures y == [1, 2, 3, 4]
    ensures x == [1, 2, 3]
  {
    x := [1, 2, 3];
    y := x;
    y := Append(y, 4);
  }

  /** `fibs[1..<fibs.endIndex]` is every element but the first. */
  method SliceAllButFirst() returns (slice: seq<int>)
    ensures slice == [1, 1, 2, 3, 5]
  {
    var fibs := [0, 1, 1, 2, 3, 5];
    slice := Slice(fibs, 1, |fibs|);
    assert slice == fibs[1..];
  }

  /** A Foundation mutable array: a heap object that every reference to it shares. */
  class NSMutableArray<T> {
    var elements: seq<T>

    /** `NSMutableArray(array:)`: a new object holding a copy of the given elements. */
    constructor (contents: seq<T>)
      ensures elements == contents
    {
      elements := contents;
    }

    /** `insert(_:at:)`: `x` lands at `index`, later elements shift right by one. */
    method Insert(x: T, index: nat)
      requires index <= |elements|
      modifies this
      ensures |elements| == |old(elements)| + 1
      ensures elements[index] == x
      ensures elements[..index] == old(elements)[..index]
      ensures elements[index + 1..] == old(elements)[index..]
    {
      elements := elements[..index] + [x] + elements[index..];
    }

    /** `copy()`: a new, immutable `NSArray` with the same elements at this moment. */
    method Copy() returns (snapshot: NSArray<T>)
      ensures fresh(snapshot)
      ensures snapshot.elements == elements
    {
      snapshot := new NSArray(elements);
    }
  }

  /** A Foundation immutable array: its elements are fixed when it is created. */
  class NSArray<T> {
    const elements: seq<T>

    /** `NSArray(array:)`: a new object holding the given elements for good. */
    constructor (contents: seq<T>)
      ensures elements == contents
    {
      elements := contents;
    }
  }

  /** `let b: NSArray = a; a.insert(4, at: 3)`: `b` is the same object, so it sees `(1, 2, 3, 4)`. */
  method AliasedInsert() returns (a: NSMutableArray<int>, b: NSMutableArray<int>)
    ensures a == b
    ensures b.elements == [1, 2, 3, 4]
  {
    a := new NSMutableArray([1, 2, 3]);
    b := a;
    a.Insert(4, 3);
  }

  /** `let d = c.copy() as! NSArray; c.insert(4, at: 3)`: `d` is a separate object and stays `(1, 2, 3)`. */
  method CopiedSnapshot() returns (c: NSMutableArray<int>, d: NSArray<int>)
    ensures c as object != d as object
    ensures c.elements == [1, 2, 3, 4]
    ensures d.elements == [1, 2, 3]
  {
    c := new NSMutableArray([1, 2, 3]);
    d := c.Copy();
    c.Insert(4, 3);
  }

  /** For any two distinct objects, inserting through one leaves the other's elements as they were. */
  method InsertLeavesOthers<T>(c: NSMutableArray<T>, d: NSMutableArray<T>, x: T, index: nat)
    requires c != d && index <= |c.elements|
    modifies c
    ensures d.elements == old(d.elements)
    ensures c.elements == old(c.elements)[..index] + [x] + old(c.elements)[index..]
  {
    c.Insert(x, index);
    assert c.elements == old(c.elements)[..index] + [x] + old(c.elements)[index..];
  }
}
