/** Small shared vocabulary: optional values and bytes. */
module Prelude {

  datatype Option<+T> = None | Some(value: T)

  type Byte = b: int | 0 <= b < 256

  type Bytes = seq<Byte>

  function Max(a: nat, b: nat): (r: nat)
  {
    if a < b then b else a
  }

  function Min(a: nat, b: nat): (r: nat)
  {
    if a < b then a else b
  }
}
