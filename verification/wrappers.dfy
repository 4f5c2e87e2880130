/** The Some/None datatype used wherever the service may or may not produce a value. */
module Wrappers {

  datatype Option<+T> = None | Some(value: T) {

    /** The value as a sequence of at most one element: what a step contributes to a trace */
    function ToSeq(): (r: seq<T>)
      ensures Some? ==> r == [value]
      ensures None? ==> r == []
    {
      if Some? then [value] else []
    }
  }
}
