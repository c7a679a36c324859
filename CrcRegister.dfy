/**
 * The bitwise reference for the checksums of engine/core/source/core/crc_utils.cpp:
 * reflected linear feedback shift registers for CRC-32 and CRC-64, and the
 * checksums they compute one bit at a time, without a table.
 */
module CrcRegister {

  /** The reflected CRC-32 polynomial (0x04C1_1DB7 with its bits reversed). */
  const Crc32Poly: bv32 := 0xEDB8_8320

  /** The reflected CRC-64 polynomial (0xAD93_D235_94C9_35A9 with its bits reversed). */
  const Crc64Poly: bv64 := 0x95AC_9329_AC4B_C9B5

  /**
   * One shift of the reflected CRC-32 register: the register moves one bit
   * towards its low end, and the polynomial is added (XORed) exactly when the
   * bit shifted out was 1. `0 - (c & 1)` is all ones or all zeros.
   */
  function Shift32(c: bv32): bv32 {
    (c >> 1) ^ (Crc32Poly & (0 - (c & 1)))
  }

  /** Eight shifts: the effect of one whole byte on the CRC-32 register. */
  function ShiftByte32(c: bv32): bv32 {
    Shift32(Shift32(Shift32(Shift32(Shift32(Shift32(Shift32(Shift32(c))))))))
  }

  /** One shift of the reflected CRC-64 register. */
  function Shift64(c: bv64): bv64 {
    (c >> 1) ^ (Crc64Poly & (0 - (c & 1)))
  }

  /** Eight shifts: the effect of one whole byte on the CRC-64 register. */
  function ShiftByte64(c: bv64): bv64 {
    Shift64(Shift64(Shift64(Shift64(Shift64(Shift64(Shift64(Shift64(c))))))))
  }

  /** Shift32 is the textbook conditional form of the register step. */
  lemma Shift32Cases(c: bv32)
    ensures c & 1 == 1 ==> Shift32(c) == (c >> 1) ^ Crc32Poly
    ensures c & 1 == 0 ==> Shift32(c) == c >> 1
  {
  }

  /** Shift64 is the textbook conditional form of the register step. */
  lemma Shift64Cases(c: bv64)
    ensures c & 1 == 1 ==> Shift64(c) == (c >> 1) ^ Crc64Poly
    ensures c & 1 == 0 ==> Shift64(c) == c >> 1
  {
  }

  /** CRC-32 computed bit by bit: each byte is XORed into the low end, then shifted out. */
  function BitwiseCrc32(crc: bv32, data: seq<bv8>): bv32
    decreases |data|
  {
    if |data| == 0 then crc else BitwiseCrc32(ShiftByte32(crc ^ data[0] as bv32), data[1..])
  }

  /** CRC-64 computed bit by bit. */
  function BitwiseCrc64(crc: bv64, data: seq<bv8>): bv64
    decreases |data|
  {
    if |data| == 0 then crc else BitwiseCrc64(ShiftByte64(crc ^ data[0] as bv64), data[1..])
  }
}
