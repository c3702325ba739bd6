/** Types shared by every part of the model. */
module Common {

  type byte = x: int | 0 <= x < 256 witness 0

  /** The content hash a block is known by. */
  type Hash = seq<byte>

  /** How far the cold copy of a block has come. */
  datatype Status = Pending | Stored | Failed

  datatype Option<+T> = None | Some(value: T)

  /** A call that returns a value, or raises / answers with an error. */
  datatype Result<+T> = Ok(value: T) | Err

  function Min(a: int, b: int): int { if a <= b then a else b }

  function Max(a: int, b: int): int { if a >= b then a else b }

  lemma MulMono(a: nat, b: nat, c: nat)
    requires a <= b
    ensures a * c <= b * c
  {
  }
}
