/** Small vocabulary shared by every module: optional values, results and unsigned bytes. */
module Bytes {

  datatype Option<+T> = None | Some(value: T)

  datatype Result<+T, +E> = Ok(value: T) | Err(error: E)

  /** An unsigned 8-bit value. Arithmetic on it is written out modulo 256. */
  type byte = b: int | 0 <= b < 256

  function Zeros(n: nat): (z: seq<byte>)
    ensures |z| == n
    ensures forall i :: 0 <= i < n ==> z[i] == 0
  {
    seq(n, i => 0)
  }

  predicate ZeroFrom(s: seq<nat>, from: nat) { forall i :: from <= i < |s| ==> s[i] == 0 }

  function LowByte(v: nat): byte { v % 256 }

  function Min(a: int, b: int): int {
    if a <= b then a else b
  }

  function LittleEndian(value: nat, n: nat): (s: seq<byte>)
    ensures |s| == n
  {
    if n == 0 then [] else [value % 256] + LittleEndian(value / 256, n - 1)
  }

  function FromLittleEndian(s: seq<byte>): nat {
    if s == [] then 0 else s[0] + 256 * FromLittleEndian(s[1..])
  }
}
