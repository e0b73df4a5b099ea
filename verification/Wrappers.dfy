/** Optional values, the two outcomes of an operation that can raise, collision-freedom, and shared lists. */
module Wrappers {

  datatype Option<+T> = None | Some(value: T) {
    function GetOr(default: T): T {
      match this
      case Some(v) => v
      case None => default
    }
  }

  datatype Result<+T, +E> = Ok(value: T) | Err(error: E)

  /** What is assumed of SHA-256 and of name-based UUIDs: no two arguments share a value. */
  ghost predicate Injective<A(!new), B(!new)>(f: A -> B) {
    forall x, y :: f(x) == f(y) ==> x == y
  }

  /** A list that several checks append to. */
  class SharedList<T> {
    var items: seq<T>

    constructor ()
      ensures items == []
    {
      items := [];
    }

    method Append(item: T)
      modifies this
      ensures items == old(items) + [item]
    {
      items := items + [item];
    }

    method Extend(more: seq<T>)
      modifies this
      ensures items == old(items) + more
    {
      items := items + more;
    }
  }
}
