/** The two outcome types the models share. */
module Wrappers {

  datatype Option<+T> = None | Some(value: T) {

    function UnwrapOr(default: T): T {
      match this
      case Some(v) => v
      case None => default
    }

    /** The first value when there is one, the other otherwise (`Option::or`). */
    function Or(other: Option<T>): Option<T> {
      if Some? then this else other
    }
  }

  datatype Result<+T, +E> = Ok(value: T) | Err(error: E)

  lemma {:induction false} HeadFirst<T>(a: seq<T>, b: seq<T>)
    requires a != []
    ensures a == [a[0]] + a[1..] && a + b == [a[0]] + (a[1..] + b)
  {
  }

  lemma {:induction false} ConcatAssociative<T>(a: seq<T>, b: seq<T>, c: seq<T>)
    ensures a + (b + c) == (a + b) + c
  {
  }
}
