/** An optional value: a C++ pointer that may be null, or the result of a call that may fail. */
module Options {
  datatype Option<+T> = None | Some(value: T)

  /** The newest element of a sequence. */
  function Last<T>(s: seq<T>): Option<T> {
    if s == [] then None else Some(s[|s| - 1])
  }

  /** The element at index i, if there is one. */
  function ElementAt<T>(s: seq<T>, i: nat): Option<T> {
    if i < |s| then Some(s[i]) else None
  }
}
