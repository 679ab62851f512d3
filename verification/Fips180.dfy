/** SHA-256 as FIPS 180-4 defines it: on bit strings, by recursion, with no reference to
    how a program would compute it. */
module Fips180 {

  // ----- functions on words (sections 3.2 and 4.1.2) -----

  /** Addition modulo 2^32. */
  function Plus(x: bv32, y: bv32): bv32 { x + y }

  function Sum(w: bv32, x: bv32, y: bv32, z: bv32): bv32 { w + x + y + z }

  function Ch(x: bv32, y: bv32, z: bv32): bv32 { (x & y) ^ (!x & z) }

  function Maj(x: bv32, y: bv32, z: bv32): bv32 { (x & y) ^ (x & z) ^ (y & z) }

  // ROTR^n(x) is (x >> n) | (x << 32 - n), section 3.2
  function BigSigma0(x: bv32): bv32 {
    ((x >> 2) | (x << 30)) ^ ((x >> 13) | (x << 19)) ^ ((x >> 22) | (x << 10))
  }

  function BigSigma1(x: bv32): bv32 {
    ((x >> 6) | (x << 26)) ^ ((x >> 11) | (x << 21)) ^ ((x >> 25) | (x << 7))
  }

  function SmallSigma0(x: bv32): bv32 {
    ((x >> 7) | (x << 25)) ^ ((x >> 18) | (x << 14)) ^ (x >> 3)
  }

  function SmallSigma1(x: bv32): bv32 {
    ((x >> 17) | (x << 15)) ^ ((x >> 19) | (x << 13)) ^ (x >> 10)
  }

  // ----- constants (sections 4.2.2 and 5.3.3) -----

  const K0: seq<bv32> := [
    0x428a2f98, 0x71374491, 0xb5c0fbcf, 0xe9b5dba5, 0x3956c25b, 0x59f111f1, 0x923f82a4, 0xab1c5ed5]
  const K1: seq<bv32> := [
    0xd807aa98, 0x12835b01, 0x243185be, 0x550c7dc3, 0x72be5d74, 0x80deb1fe, 0x9bdc06a7, 0xc19bf174]
  const K2: seq<bv32> := [
    0xe49b69c1, 0xefbe4786, 0x0fc19dc6, 0x240ca1cc, 0x2de92c6f, 0x4a7484aa, 0x5cb0a9dc, 0x76f988da]
  const K3: seq<bv32> := [
    0x983e5152, 0xa831c66d, 0xb00327c8, 0xbf597fc7, 0xc6e00bf3, 0xd5a79147, 0x06ca6351, 0x14292967]
  const K4: seq<bv32> := [
    0x27b70a85, 0x2e1b2138, 0x4d2c6dfc, 0x53380d13, 0x650a7354, 0x766a0abb, 0x81c2c92e, 0x92722c85]
  const K5: seq<bv32> := [
    0xa2bfe8a1, 0xa81a664b, 0xc24b8b70, 0xc76c51a3, 0xd192e819, 0xd6990624, 0xf40e3585, 0x106aa070]
  const K6: seq<bv32> := [
    0x19a4c116, 0x1e376c08, 0x2748774c, 0x34b0bcb5, 0x391c0cb3, 0x4ed8aa4a, 0x5b9cca4f, 0x682e6ff3]
  const K7: seq<bv32> := [
    0x748f82ee, 0x78a5636f, 0x84c87814, 0x8cc70208, 0x90befffa, 0xa4506ceb, 0xbef9a3f7, 0xc67178f2]

  const K: seq<bv32> := K0 + K1 + K2 + K3 + K4 + K5 + K6 + K7

  const H0: seq<bv32> := [
    0x6a09e667, 0xbb67ae85, 0x3c6ef372, 0xa54ff53a, 0x510e527f, 0x9b05688c, 0x1f83d9ab, 0x5be0cd19]

  // ----- bits and numbers -----

  type byte = n: int | 0 <= n < 256

  function Pow2(n: nat): nat {
    if n == 0 then 1 else 2 * Pow2(n - 1)
  }

  /** `n` in binary, in exactly `width` bits. */
  function Binary(n: nat, width: nat): (bits: seq<bool>)
    ensures |bits| == width
  {
    if width == 0 then [] else Binary(n / 2, width - 1) + [n % 2 == 1]
  }

  function BitsOfByte(b: byte): seq<bool> {
    Binary(b, 8)
  }

  /** A byte string as the bit string it stands for, most significant bit first. */
  function BitsOf(data: seq<byte>): (bits: seq<bool>)
    ensures |bits| == 8 * |data|
  {
    if data == [] then [] else BitsOf(data[..|data| - 1]) + BitsOfByte(data[|data| - 1])
  }

  /** The number a bit string denotes. */
  function NumberOf(bits: seq<bool>): nat {
    if bits == [] then 0
    else 2 * NumberOf(bits[..|bits| - 1]) + if bits[|bits| - 1] then 1 else 0
  }

  // ----- padding (section 5.1.1) -----

  predicate FillsTheBlock(length: nat, k: nat) {
    (length + 1 + k) % 512 == 448
  }

  /** The smallest number of zero bits that fills the last block but for its length. */
  function ZeroBits(length: nat): (k: nat)
    ensures FillsTheBlock(length, k)
    ensures forall j: nat :: j < k ==> !FillsTheBlock(length, j)
  {
    (447 - length) % 512
  }

  function Zeros(k: nat): seq<bool> {
    seq(k, _ => false)
  }

  function Pad(message: seq<bool>): (padded: seq<bool>)
    ensures |padded| % 512 == 0
  {
    message + [true] + Zeros(ZeroBits(|message|)) + Binary(|message|, 64)
  }

  // ----- parsing (section 5.2.1) -----

  function WordAt(padded: seq<bool>, at: nat): bv32
    requires at + 32 <= |padded|
  {
    NumberMod32(padded[at..at + 32]) as bv32
  }

  function NumberMod32(bits: seq<bool>): (n: nat)
    ensures n < 0x1_0000_0000
  {
    NumberOf(bits) % 0x1_0000_0000
  }

  function BlockAt(padded: seq<bool>, i: nat): (block: seq<bv32>)
    requires 512 * (i + 1) <= |padded|
    ensures |block| == 16
  {
    seq(16, j requires 0 <= j < 16 => WordAt(padded, 512 * i + 32 * j))
  }

  // ----- the hash computation (section 6.2.2) -----

  function Schedule(block: seq<bv32>, t: nat): bv32
    requires |block| == 16 && t < 64
  {
    if t < 16 then block[t]
    else
      Sum(SmallSigma1(Schedule(block, t - 2)), Schedule(block, t - 7),
          SmallSigma0(Schedule(block, t - 15)), Schedule(block, t - 16))
  }

  datatype Registers = Registers(a: bv32, b: bv32, c: bv32, d: bv32, e: bv32, f: bv32, g: bv32, h: bv32)

  function Round(r: Registers, k: bv32, w: bv32): Registers {
    var t1 := Plus(Plus(Plus(Plus(r.h, BigSigma1(r.e)), Ch(r.e, r.f, r.g)), k), w);
    var t2 := Plus(BigSigma0(r.a), Maj(r.a, r.b, r.c));
    Registers(Plus(t1, t2), r.a, r.b, r.c, Plus(r.d, t1), r.e, r.f, r.g)
  }

  /** The working variables after the first `t` rounds on a block. */
  function Rounds(r: Registers, block: seq<bv32>, t: nat): Registers
    requires |block| == 16 && t <= |K|
  {
    if t == 0 then r
    else Round(Rounds(r, block, t - 1), K[t - 1], Schedule(block, t - 1))
  }

  type HashValue = h: seq<bv32> | |h| == 8 witness [0, 0, 0, 0, 0, 0, 0, 0]

  function Load(h: HashValue): Registers {
    Registers(h[0], h[1], h[2], h[3], h[4], h[5], h[6], h[7])
  }

  function Compress(h: HashValue, block: seq<bv32>): HashValue
    requires |block| == 16
  {
    var r := Rounds(Load(h), block, |K|);
    [Plus(h[0], r.a), Plus(h[1], r.b), Plus(h[2], r.c), Plus(h[3], r.d),
     Plus(h[4], r.e), Plus(h[5], r.f), Plus(h[6], r.g), Plus(h[7], r.h)]
  }

  /** The hash value after the first `n` blocks of a padded message. */
  function HashAfter(padded: seq<bool>, n: nat): HashValue
    requires 512 * n <= |padded|
  {
    if n == 0 then H0 else Compress(HashAfter(padded, n - 1), BlockAt(padded, n - 1))
  }

  function Sha256(message: seq<bool>): HashValue {
    HashAfter(Pad(message), |Pad(message)| / 512)
  }
}
