module Wrappers {
  datatype Option<+T> = None | Some(value: T)

  /** The values of a list none of whose entries is missing. */
  function Values<T>(xs: seq<Option<T>>): (r: seq<T>)
    requires forall k :: 0 <= k < |xs| ==> xs[k].Some?
    ensures |r| == |xs| && forall k :: 0 <= k < |xs| ==> r[k] == xs[k].value
  {
    seq(|xs|, k requires 0 <= k < |xs| => xs[k].value)
  }
}
