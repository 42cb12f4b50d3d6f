/** Shared by the models: values that may be absent (null references, results that may fail), bytes,
    and a sequence backwards. */
module Basics {
  datatype Option<+T> = None | Some(value: T)

  function Reversed<T>(s: seq<T>): (r: seq<T>)
    ensures |r| == |s| && forall i :: 0 <= i < |s| ==> r[i] == s[|s| - 1 - i]
  {
    seq(|s|, i requires 0 <= i < |s| => s[|s| - 1 - i])
  }

  type Byte = x: int | 0 <= x < 256
}
