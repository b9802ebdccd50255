/** Swift's `Optional`: either exactly one wrapped value or none. */
module Optional {

  datatype Option<T> = None | Some(value: T) {

    /** `Optional.map`: transforms the wrapped value, keeps `nil` as `nil`. */
    function Map<U>(f: T -> U): (r: Option<U>)
      ensures r.Some? <==> Some?
      ensures Some? ==> r.value == f(value)
    {
      match this
      case None => None
      case Some(v) => Some(f(v))
    }

    /** `Optional.flatMap`: like `Map`, but the transform may itself yield `nil`. */
    function FlatMap<U>(f: T -> Option<U>): (r: Option<U>)
      ensures None? ==> r.None?
      ensures Some? ==> r == f(value)
    {
      match this
      case None => None
      case Some(v) => f(v)
    }
  }

  /** `flatMap` with a transform that never yields `nil` is `map`. */
  lemma FlatMapSomeIsMap<T, U>(o: Option<T>, g: T -> U)
    ensures o.FlatMap(x => Some(g(x))) == o.Map(g)
  {
  }
}
