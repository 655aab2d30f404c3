/** Floats as the pipelines see them, and the limits of the machine integers. */
module Numbers {

  /** A float is a number, or an infinity or NaN, which every input check rejects. */
  datatype Float = Finite(value: real) | NonFinite

  const SIZE_MAX: nat := 0xFFFF_FFFF_FFFF_FFFF
  const INT64_MAX: nat := 0x7FFF_FFFF_FFFF_FFFF
  const INT_MAX: nat := 0x7FFF_FFFF

  /** The machine's int. */
  type int32 = x: int | -0x8000_0000 <= x <= 0x7FFF_FFFF

  predicate AllFinite(values: seq<Float>)
  {
    forall i :: 0 <= i < |values| ==> values[i].Finite?
  }

  function Reals(values: seq<Float>): (r: seq<real>)
    requires AllFinite(values)
    ensures |r| == |values|
    ensures forall i :: 0 <= i < |r| ==> r[i] == values[i].value
  {
    seq(|values|, i requires 0 <= i < |values| => values[i].value)
  }

  datatype Option<+T> = None | Some(value: T)

  datatype Error =
    | InvalidArgument
    | NotInitialized
    | OutOfMemory
    | IoError
    | ArtifactCorrupt
    | AdapterFailure
    | CudaFailure
    | TensorTypeMismatch
    | TensorShapeMismatch
    | UnsupportedAlgorithm
    | InferenceFailed
    | Cancelled

  datatype Result<+T> = Ok(value: T) | Err(error: Error)

  datatype Status = Success | Failure(error: Error)

  function Max(x: real, y: real): real {
    if x < y then y else x
  }

  function Min(x: real, y: real): real {
    if y < x then y else x
  }

  function Ceiling(x: real): int {
    -(-x).Floor
  }

  function Power256(k: nat): (r: nat)
    ensures r > 0
  {
    if k == 0 then 1 else 256 * Power256(k - 1)
  }
}
