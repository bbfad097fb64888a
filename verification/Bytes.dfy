/** Byte strings: log commands, encoded operations and file contents; integers in memory order. */
module Bytes {
  newtype byte = x: int | 0 <= x < 256

  type Bytes = seq<byte>

  function Pow256(k: nat): nat {
    if k == 0 then 1 else 256 * Pow256(k - 1)
  }

  lemma FourBytes()
    ensures Pow256(4) == 0x1_0000_0000
  {
    assert Pow256(1) == 256 && Pow256(2) == 65536 && Pow256(3) == 16777216;
  }

  lemma EightBytes()
    ensures Pow256(8) == 0x1_0000_0000_0000_0000
  {
    FourBytes();
    assert Pow256(5) == 0x100_0000_0000 && Pow256(6) == 0x1_0000_0000_0000 && Pow256(7) == 0x100_0000_0000_0000;
  }

  /** An unsigned integer of `size` bytes as it lies in memory on a little-endian machine. */
  function ToLittleEndian(n: nat, size: nat): (r: Bytes)
    ensures |r| == size
  {
    if size == 0 then [] else [(n % 256) as byte] + ToLittleEndian(n / 256, size - 1)
  }

  function FromLittleEndian(b: Bytes): (n: nat)
    ensures n < Pow256(|b|)
  {
    if |b| == 0 then 0 else b[0] as nat + 256 * FromLittleEndian(b[1..])
  }

  lemma {:induction false} LittleEndianRoundTrip(n: nat, size: nat)
    requires n < Pow256(size)
    ensures FromLittleEndian(ToLittleEndian(n, size)) == n
  {
    if size > 0 {
      LittleEndianRoundTrip(n / 256, size - 1);
    }
  }

  function Zeros(n: nat): (r: Bytes)
    ensures |r| == n
  {
    seq(n, _ => 0)
  }

  predicate FitsSigned(n: int, size: nat)
    requires size > 0
  {
    0 <= 2 * n + Pow256(size) < 2 * Pow256(size)
  }

  /** A two's complement integer of `size` bytes. */
  function ToSigned(n: int, size: nat): (r: Bytes)
    requires size > 0 && FitsSigned(n, size)
    ensures |r| == size
  {
    ToLittleEndian(if n < 0 then n + Pow256(size) else n, size)
  }

  function FromSigned(b: Bytes): (n: int)
    requires |b| > 0
  {
    var u := FromLittleEndian(b);
    if 2 * u >= Pow256(|b|) then u - Pow256(|b|) else u
  }

  lemma SignedRoundTrip(n: int, size: nat)
    requires size > 0 && FitsSigned(n, size)
    ensures FromSigned(ToSigned(n, size)) == n
  {
    LittleEndianRoundTrip(if n < 0 then n + Pow256(size) else n, size);
  }
}
