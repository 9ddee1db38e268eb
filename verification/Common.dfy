/** Datatypes shared by every module of the model. */
module Common {

  /** UUIDs and hashes are opaque and compared for equality only. */
  type ID(==, !new)

  /** Clock readings and durations, in any fixed unit. */
  type Time = int

  datatype Option<+T> = None | Some(value: T)

  datatype Result<+T, +E> = Ok(value: T) | Err(error: E)

  function SetOf<T(==)>(items: seq<T>): set<T> {
    set x | x in items
  }

  lemma SubsetSize<T>(a: set<T>, b: set<T>)
    requires a <= b
    ensures |a| <= |b|
  {
    assert b == a + (b - a);
  }
}
