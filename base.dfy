/** Option and Result, the two sum types every module of the model returns, and one fact about output built up in a loop. */
module Base {

  datatype Option<+T> = None | Some(value: T)

  datatype Result<+T, +E> = Ok(value: T) | Err(error: E)

  /** Output written so far, plus what one step writes, plus what the rest writes, is still the whole output. */
  lemma Regroup<T>(done: seq<T>, step: seq<T>, rest: seq<T>, all: seq<T>)
    requires done + (step + rest) == all
    ensures (done + step) + rest == all
  {
  }
}
