/** Shared by all modules. */
module Common {
  datatype Option<+T> = None | Some(value: T)

  lemma Regroup<T>(x: seq<T>, y: seq<T>, z: seq<T>)
    ensures x + (y + z) == (x + y) + z
  {
  }
}
