/** Optional values, standing in for the nullable references of the source. */
module Wrappers {

  datatype Option<+T> = None | Some(value: T) {

    /** The wrapped value, or `default` when there is none (C#'s `??`). */
    function GetOr(default: T): T
    {
      match this
      case Some(v) => v
      case None => default
    }

    /** C#'s `a ?? b` where `b` is itself nullable. */
    function OrElse(other: Option<T>): Option<T>
    {
      if Some? then this else other
    }

    /** The value as a sequence of at most one element. */
    function ToSeq(): (s: seq<T>)
      ensures |s| <= 1 && (s == [] <==> None?)
    {
      if Some? then [value] else []
    }
  }
}
