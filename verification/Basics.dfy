/** Small datatypes shared by every module. */
module Basics {

  datatype Option<+T> = None | Some(value: T)

  datatype Result<+T, +E> = Ok(value: T) | Err(error: E)

  /** The content of one name moved to another, over whatever was there. */
  function Move<K, V>(m: map<K, V>, a: K, b: K): map<K, V>
    requires a in m
  {
    (m - {a})[b := m[a]]
  }
}
