/** What several modules share. */
module Wrappers {
  datatype Option<+T> = None | Some(value: T)

  type Bytes = seq<bv8>

  lemma Regroup<T>(a: seq<T>, b: seq<T>, c: seq<T>)
    ensures (a + b) + c == a + (b + c)
  {
  }
}
