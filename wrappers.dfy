/** Optional values: a value that may be absent (JavaScript's undefined, NaN or a skipped call). */
module Wrappers {

  datatype Option<+T> = None | Some(value: T)

  /** The list holding the value if there is one: how an optional result joins a list of results. */
  function OptionToSeq<T>(o: Option<T>): seq<T>
  {
    match o
    case None => []
    case Some(v) => [v]
  }
}
