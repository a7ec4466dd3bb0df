/** Option, for values the JavaScript source leaves `undefined`/`null` or turns into NaN. */
module Wrappers {
  datatype Option<+T> = None | Some(value: T)

  /** Regrouping a concatenation of three sequences. */
  lemma ConcatAssoc<T>(x: seq<T>, y: seq<T>, z: seq<T>)
    ensures x + y + z == x + (y + z)
  {
  }
}
