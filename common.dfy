/** Definitions shared by the SPI master model and the SDIO CIS model. */
module Common {

  /** A value that may be absent: a C pointer that may be NULL. */
  datatype Option<+T> = None | Some(value: T)

  /** The value of an operation, or the negative errno it failed with. */
  datatype Result<+T> = Ok(value: T) | Err(code: int)

  // Linux errno values; the drivers return their negations.
  const EIO: int := 5
  const EAGAIN: int := 11
  const EINVAL: int := 22
  const EILSEQ: int := 84

  /** A run of n zero bytes. */
  function Zeros(n: nat): (z: seq<bv8>)
    ensures |z| == n && forall i :: 0 <= i < n ==> z[i] == 0
  {
    if n == 0 then [] else Zeros(n - 1) + [0]
  }
}
