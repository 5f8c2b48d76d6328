/** Small helper datatypes shared by the other modules. */
module Wrappers {

  /** A value that may be absent: Go's nil map, nil function or nil error. */
  datatype Option<+T> = None | Some(value: T)

  /** n copies of x, in a row. */
  function Repeat<T>(x: T, n: nat): (r: seq<T>)
    ensures |r| == n
    ensures forall i :: 0 <= i < n ==> r[i] == x
  {
    if n == 0 then [] else Repeat(x, n - 1) + [x]
  }
}
