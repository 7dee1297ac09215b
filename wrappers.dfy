/** Failure-carrying values and byte strings shared by every module of the model. */
module Wrappers {

  datatype Option<+T> = None | Some(value: T)

  /** The model's replacement for a Go panic: a value either computed or failed. */
  datatype Result<+T, +E> = Ok(value: T) | Err(error: E)
}

module Octets {

  /** A Go `byte`. */
  newtype byte = x: int | 0 <= x < 256

  /** A Go `string` or `[]byte`: Go strings are sequences of bytes. */
  type Bytes = seq<byte>

  /** Concatenation of a sequence of sequences, front to back. */
  function Flatten<T>(ss: seq<seq<T>>): seq<T>
    decreases |ss|
  {
    if ss == [] then [] else ss[0] + Flatten(ss[1..])
  }

  /** Appending is associative; stated once so callers need not prove it by extensionality. */
  lemma AppendAssoc<T>(a: seq<T>, b: seq<T>, c: seq<T>)
    ensures (a + b) + c == a + (b + c)
  {
  }

  /** Appending one more part at the end appends its elements at the end. */
  lemma {:induction false} FlattenSnoc<T>(ss: seq<seq<T>>, s: seq<T>)
    ensures Flatten(ss + [s]) == Flatten(ss) + s
    decreases |ss|
  {
    if ss == [] {
      assert [] + [s] == [s];
    } else {
      assert (ss + [s])[1..] == ss[1..] + [s];
      FlattenSnoc(ss[1..], s);
    }
  }
}
