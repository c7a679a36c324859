/**
 * Table-driven CRC-32 and CRC-64 (engine/core/source/core/crc_utils.cpp).
 *
 * Both checksums fold a byte sequence into a running register with
 * `crc = TABLE[(crc ^ byte) & 0xFF] ^ (crc >> 8)`. The register is taken and
 * returned as is: neither function inverts it on entry or on exit, so callers
 * that want the customary CRC-32 pass and flip `0xFFFF_FFFF` themselves.
 *
 * Besides the two table-driven loops the module proves that each of them
 * equals its bitwise definition in CrcRegister on every input, using the
 * proof in CrcTables that the 256-entry tables are exactly the register's
 * one-byte transitions.
 */
module CrcUtils {
  import opened CrcRegister
  import opened CrcTables

  // ---------------------------------------------------------------------
  // The table-driven functions
  // ---------------------------------------------------------------------

  /** The low byte of the register combined with the next input byte. */
  function Index32(crc: bv32, b: bv8): bv8 {
    ((crc ^ b as bv32) & 0xFF) as bv8
  }

  function Index64(crc: bv64, b: bv8): bv8 {
    ((crc ^ b as bv64) & 0xFF) as bv8
  }

  /** One iteration of the loop in crc32. */
  function Step32(crc: bv32, b: bv8): bv32 {
    Crc32Table[Index32(crc, b) as int] ^ (crc >> 8)
  }

  /** One iteration of the loop in crc64. */
  function Step64(crc: bv64, b: bv8): bv64 {
    Crc64Table[Index64(crc, b) as int] ^ (crc >> 8)
  }

  /** What crc32 returns: the table step folded over the bytes, first to last. */
  function Crc32Of(crc: bv32, data: seq<bv8>): bv32
    decreases |data|
  {
    if |data| == 0 then crc else Crc32Of(Step32(crc, data[0]), data[1..])
  }

  /** What crc64 returns. */
  function Crc64Of(crc: bv64, data: seq<bv8>): bv64
    decreases |data|
  {
    if |data| == 0 then crc else Crc64Of(Step64(crc, data[0]), data[1..])
  }

  /** crc32: updates `crc` with every byte of `data`, in order. */
  method Crc32(crc: bv32, data: seq<bv8>) returns (r: bv32)
    ensures r == Crc32Of(crc, data)
    ensures r == BitwiseCrc32(crc, data)
    ensures |data| == 0 ==> r == crc
  {
    r := crc;
    for i := 0 to |data|
      invariant Crc32Of(r, data[i..]) == Crc32Of(crc, data)
    {
      assert data[i..] == [data[i]] + data[i + 1..];
      r := Step32(r, data[i]);
    }
    assert data[|data|..] == [];
    TableMatchesBitwise32(crc, data);
  }

  /** crc64: updates `crc` with every byte of `data`, in order. */
  method Crc64(crc: bv64, data: seq<bv8>) returns (r: bv64)
    ensures r == Crc64Of(crc, data)
    ensures r == BitwiseCrc64(crc, data)
    ensures |data| == 0 ==> r == crc
  {
    r := crc;
    for i := 0 to |data|
      invariant Crc64Of(r, data[i..]) == Crc64Of(crc, data)
    {
      assert data[i..] == [data[i]] + data[i + 1..];
      r := Step64(r, data[i]);
    }
    assert data[|data|..] == [];
    TableMatchesBitwise64(crc, data);
  }

  // ---------------------------------------------------------------------
  // One table step is one byte of the bitwise register
  // ---------------------------------------------------------------------

  /**
   * Shifting the register by a byte only feeds back through its low byte:
   * the rest of the register just moves down by eight bits.
   */
  lemma ByteStep32(crc: bv32, b: bv8)
    ensures ShiftByte32(crc ^ b as bv32) == ShiftByte32(Index32(crc, b) as bv32) ^ (crc >> 8)
  {
  }

  lemma Step32IsBitwise(crc: bv32, b: bv8)
    ensures Step32(crc, b) == ShiftByte32(crc ^ b as bv32)
  {
    Entry32(Index32(crc, b));
    ByteStep32(crc, b);
  }

  lemma ByteStep64Low0(crc: bv64, b: bv8)
    requires (crc ^ b as bv64) & 3 == 0
    ensures ShiftByte64(crc ^ b as bv64) == ShiftByte64(Index64(crc, b) as bv64) ^ (crc >> 8)
  {
  }

  lemma ByteStep64Low1(crc: bv64, b: bv8)
    requires (crc ^ b as bv64) & 3 == 1
    ensures ShiftByte64(crc ^ b as bv64) == ShiftByte64(Index64(crc, b) as bv64) ^ (crc >> 8)
  {
  }

  lemma ByteStep64Low2(crc: bv64, b: bv8)
    requires (crc ^ b as bv64) & 3 == 2
    ensures ShiftByte64(crc ^ b as bv64) == ShiftByte64(Index64(crc, b) as bv64) ^ (crc >> 8)
  {
  }

  lemma ByteStep64Low3(crc: bv64, b: bv8)
    requires (crc ^ b as bv64) & 3 == 3
    ensures ShiftByte64(crc ^ b as bv64) == ShiftByte64(Index64(crc, b) as bv64) ^ (crc >> 8)
  {
  }

  /** The CRC-64 counterpart of ByteStep32, proved for each value of the two lowest bits. */
  lemma ByteStep64(crc: bv64, b: bv8)
    ensures ShiftByte64(crc ^ b as bv64) == ShiftByte64(Index64(crc, b) as bv64) ^ (crc >> 8)
  {
    var low := (crc ^ b as bv64) & 3;
    if low == 0 {
      ByteStep64Low0(crc, b);
    } else if low == 1 {
      ByteStep64Low1(crc, b);
    } else if low == 2 {
      ByteStep64Low2(crc, b);
    } else {
      ByteStep64Low3(crc, b);
    }
  }

  lemma Step64IsBitwise(crc: bv64, b: bv8)
    ensures Step64(crc, b) == ShiftByte64(crc ^ b as bv64)
  {
    Entry64(Index64(crc, b));
    ByteStep64(crc, b);
  }

  // ---------------------------------------------------------------------
  // Properties of the checksums
  // ---------------------------------------------------------------------

  /** The table-driven CRC-32 agrees with the bitwise definition on every input. */
  lemma {:induction false} TableMatchesBitwise32(crc: bv32, data: seq<bv8>)
    ensures Crc32Of(crc, data) == BitwiseCrc32(crc, data)
    decreases |data|
  {
    if |data| > 0 {
      Step32IsBitwise(crc, data[0]);
      TableMatchesBitwise32(Step32(crc, data[0]), data[1..]);
    }
  }

  /** The table-driven CRC-64 agrees with the bitwise definition on every input. */
  lemma {:induction false} TableMatchesBitwise64(crc: bv64, data: seq<bv8>)
    ensures Crc64Of(crc, data) == BitwiseCrc64(crc, data)
    decreases |data|
  {
    if |data| > 0 {
      Step64IsBitwise(crc, data[0]);
      TableMatchesBitwise64(Step64(crc, data[0]), data[1..]);
    }
  }

  /** Feeding data in two pieces, passing the first result on, equals feeding it at once. */
  lemma {:induction false} Crc32Concat(crc: bv32, a: seq<bv8>, b: seq<bv8>)
    ensures Crc32Of(crc, a + b) == Crc32Of(Crc32Of(crc, a), b)
    decreases |a|
  {
    if |a| > 0 {
      assert (a + b)[0] == a[0] && (a + b)[1..] == a[1..] + b;
      Crc32Concat(Step32(crc, a[0]), a[1..], b);
    } else {
      assert a + b == b;
    }
  }

  lemma {:induction false} Crc64Concat(crc: bv64, a: seq<bv8>, b: seq<bv8>)
    ensures Crc64Of(crc, a + b) == Crc64Of(Crc64Of(crc, a), b)
    decreases |a|
  {
    if |a| > 0 {
      assert (a + b)[0] == a[0] && (a + b)[1..] == a[1..] + b;
      Crc64Concat(Step64(crc, a[0]), a[1..], b);
    } else {
      assert a + b == b;
    }
  }

  /** With no register inversion, a zero register stays zero over zero bytes. */
  lemma {:induction false} Crc32Zeros(data: seq<bv8>)
    requires forall i :: 0 <= i < |data| ==> data[i] == 0
    ensures Crc32Of(0, data) == 0
    decreases |data|
  {
    if |data| > 0 {
      TablePolynomials();
      assert Step32(0, data[0]) == 0;
      Crc32Zeros(data[1..]);
    }
  }

  lemma {:induction false} Crc64Zeros(data: seq<bv8>)
    requires forall i :: 0 <= i < |data| ==> data[i] == 0
    ensures Crc64Of(0, data) == 0
    decreases |data|
  {
    if |data| > 0 {
      TablePolynomials();
      assert Step64(0, data[0]) == 0;
      Crc64Zeros(data[1..]);
    }
  }

  /** The ASCII bytes of "123456789", the customary CRC check input. */
  const CheckInput: seq<bv8> := [0x31, 0x32, 0x33, 0x34, 0x35, 0x36, 0x37, 0x38, 0x39]

  /** A run of CRC-32 register values, one per byte, each the table step of the one before. */
  lemma {:induction false} Crc32Trace(regs: seq<bv32>, data: seq<bv8>)
    requires |regs| == |data| + 1
    requires forall k :: 0 <= k < |data| ==> Step32(regs[k], data[k]) == regs[k + 1]
    ensures Crc32Of(regs[0], data) == regs[|data|]
    decreases |data|
  {
    if |data| > 0 {
      Crc32Trace(regs[1..], data[1..]);
    }
  }

  /** A run of CRC-64 register values, one per byte, each the table step of the one before. */
  lemma {:induction false} Crc64Trace(regs: seq<bv64>, data: seq<bv8>)
    requires |regs| == |data| + 1
    requires forall k :: 0 <= k < |data| ==> Step64(regs[k], data[k]) == regs[k + 1]
    ensures Crc64Of(regs[0], data) == regs[|data|]
    decreases |data|
  {
    if |data| > 0 {
      Crc64Trace(regs[1..], data[1..]);
    }
  }

  /** CRC-32 register values after each byte of the check input, from all ones. */
  const Check32Registers: seq<bv32> := [
    0xFFFF_FFFF, 0x7C23_1048, 0xB0AC_BB32, 0x77B7_9C2D, 0x641C_1F5C,
    0x340A_C5E3, 0xF68D_2C9E, 0xAFFC_9660, 0x651F_2550, 0x340B_C6D9
  ]

  /** CRC-64 register values after each byte of the check input, from zero. */
  const Check64Registers: seq<bv64> := [
    0x0000_0000_0000_0000, 0xFDC1_7184_A9F7_39FA, 0xE103_6451_3A98_ED96,
    0xD5BC_FB81_4479_B1AC, 0x4359_3C5D_CDA5_21F0, 0xF075_8513_239C_7E0D,
    0xA3A9_0925_B2AB_4903, 0x4782_4D36_2431_AD45, 0x49EC_20B3_15E8_6DC2,
    0xE9C6_D914_C4B8_D9CA
  ]

  lemma Check32Head()
    ensures Crc32Of(0xFFFF_FFFF, CheckInput[..5]) == Check32Registers[5]
  {
    var regs := Check32Registers[..6];
    forall k | 0 <= k < 5
      ensures Step32(regs[k], CheckInput[..5][k]) == regs[k + 1]
    {
      Step32IsBitwise(regs[k], CheckInput[k]);
    }
    Crc32Trace(regs, CheckInput[..5]);
  }

  lemma Check32Tail()
    ensures Crc32Of(Check32Registers[5], CheckInput[5..]) == Check32Registers[9]
  {
    var regs := Check32Registers[5..];
    forall k | 0 <= k < 4
      ensures Step32(regs[k], CheckInput[5..][k]) == regs[k + 1]
    {
      Step32IsBitwise(regs[k], CheckInput[5 + k]);
    }
    Crc32Trace(regs, CheckInput[5..]);
  }

  /**
   * With the register preset to all ones and flipped afterwards, crc32 gives
   * the CRC-32 (ISO-HDLC) check value.
   */
  lemma Crc32CheckValue()
    ensures Crc32Of(0xFFFF_FFFF, CheckInput) ^ 0xFFFF_FFFF == 0xCBF4_3926
  {
    Check32Head();
    Check32Tail();
    Crc32Concat(0xFFFF_FFFF, CheckInput[..5], CheckInput[5..]);
    assert CheckInput[..5] + CheckInput[5..] == CheckInput;
  }

  lemma Check64Head()
    ensures Crc64Of(0, CheckInput[..5]) == Check64Registers[5]
  {
    var regs := Check64Registers[..6];
    forall k | 0 <= k < 5
      ensures Step64(regs[k], CheckInput[..5][k]) == regs[k + 1]
    {
      Step64IsBitwise(regs[k], CheckInput[k]);
    }
    Crc64Trace(regs, CheckInput[..5]);
  }

  lemma Check64Tail()
    ensures Crc64Of(Check64Registers[5], CheckInput[5..]) == Check64Registers[9]
  {
    var regs := Check64Registers[5..];
    forall k | 0 <= k < 4
      ensures Step64(regs[k], CheckInput[5..][k]) == regs[k + 1]
    {
      Step64IsBitwise(regs[k], CheckInput[5 + k]);
    }
    Crc64Trace(regs, CheckInput[5..]);
  }

  /** From a zero register, crc64 gives the check value of CRC-64 with the Jones polynomial. */
  lemma Crc64CheckValue()
    ensures Crc64Of(0, CheckInput) == 0xE9C6_D914_C4B8_D9CA
  {
    Check64Head();
    Check64Tail();
    Crc64Concat(0, CheckInput[..5], CheckInput[5..]);
    assert CheckInput[..5] + CheckInput[5..] == CheckInput;
  }

}
