/**
 Which CRC the loops of `Crc32c` compute: its polynomial, its tables and its check value as numbers.
 */
module Crc32cTables {
  import opened Crc32c

  /** The low `n` bits of `x` in reverse order, after those of `done`. */
  function Reversed(x: bv32, n: nat, done: bv32): bv32
    decreases n
  {
    if n == 0 then done else Reversed(x >> 1, n - 1, (done << 1) | (x & 1))
  }

  /** The generator polynomial of CRC32C with its bits in the order of the register. */
  lemma {:induction false} PolyIsReflected()
    ensures POLY == Reversed(0x1EDC_6F41, 32, 0)
  {
    assert Reversed(0x1EDC6F41, 32, 0x0) == Reversed(0x1EDC6F4, 28, 0x8);
    assert Reversed(0x1EDC6F4, 28, 0x8) == Reversed(0x1EDC6F, 24, 0x82);
    assert Reversed(0x1EDC6F, 24, 0x82) == Reversed(0x1EDC6, 20, 0x82F);
    assert Reversed(0x1EDC6, 20, 0x82F) == Reversed(0x1EDC, 16, 0x82F6);
    assert Reversed(0x1EDC, 16, 0x82F6) == Reversed(0x1ED, 12, 0x82F63);
    assert Reversed(0x1ED, 12, 0x82F63) == Reversed(0x1E, 8, 0x82F63B);
    assert Reversed(0x1E, 8, 0x82F63B) == Reversed(0x1, 4, 0x82F63B7);
    assert Reversed(0x1, 4, 0x82F63B7) == Reversed(0x0, 0, 0x82F63B78);
  }

  /** The entries at 1, 2, 4 and so on up to 128 of the eight tables, from offset 32 to offset 88. */
  const GENERATORS: seq<seq<bv32>> := [
    [0xF26B_8303, 0xE13B_70F7, 0xC79A_971F, 0x8AD9_58CF, 0x105E_C76F, 0x20BD_8EDE, 0x417B_1DBC, 0x82F6_3B78],
    [0x13A2_9877, 0x2745_30EE, 0x4E8A_61DC, 0x9D14_C3B8, 0x3FC5_F181, 0x7F8B_E302, 0xFF17_C604, 0xFBC3_FAF9],
    [0xA541_927E, 0x4F6F_520D, 0x9EDE_A41A, 0x3851_3EC5, 0x70A2_7D8A, 0xE144_FB14, 0xC765_80D9, 0x8B27_7743],
    [0xDD45_AAB8, 0xBF67_2381, 0x7B22_31F3, 0xF644_63E6, 0xE964_B13D, 0xD725_148B, 0xABA6_5FE7, 0x52A0_C93F],
    [0x3811_6FAC, 0x7022_DF58, 0xE045_BEB0, 0xC567_0B91, 0x8F22_61D3, 0x1BA8_B557, 0x3751_6AAE, 0x6EA2_D55C],
    [0xEF30_6B19, 0xDB8C_A0C3, 0xB2F5_3777, 0x6006_181F, 0xC00C_303E, 0x85F4_168D, 0x0E04_5BEB, 0x1C08_B7D6],
    [0x6803_2CC8, 0xD006_5990, 0xA5E0_C5D1, 0x4E2D_FD53, 0x9C5B_FAA6, 0x3D5B_83BD, 0x7AB7_077A, 0xF56E_0EF4],
    [0x493C_7D27, 0x9278_FA4E, 0x211D_826D, 0x423B_04DA, 0x8476_09B4, 0x0D00_6599, 0x1A00_CB32, 0x3401_9664]
  ]

  /** The entry at `b` of the table with these entries at the powers of two. */
  function Entry(row: seq<bv32>, b: bv32): bv32
    decreases |row|
  {
    if row == [] then 0 else Xor(if b & 1 == 1 then row[0] else 0, Entry(row[1..], b >> 1))
  }

  function Doubled(x: bv32): bv32 {
    x << 1
  }

  function Up(j: nat, x: bv32): bv32 {
    if j == 0 then x else Up(j - 1, Doubled(x))
  }

  lemma {:induction false} DoubleBits(a: bv32, b: bv32)
    ensures (a ^ b) << 1 == (a << 1) ^ (b << 1)
  {
  }

  lemma {:induction false} DoubledXor(a: bv32, b: bv32)
    ensures Doubled(Xor(a, b)) == Xor(Doubled(a), Doubled(b))
  {
    DoubleBits(a, b);
  }

  lemma {:induction false} UpXor(j: nat, a: bv32, b: bv32)
    ensures Up(j, Xor(a, b)) == Xor(Up(j, a), Up(j, b))
  {
    if j > 0 {
      DoubledXor(a, b);
      UpXor(j - 1, Doubled(a), Doubled(b));
    }
  }

  /** `row` is what `n` turns make of the powers of two from number `j` on. */
  ghost predicate IsRow(n: nat, j: nat, row: seq<bv32>)
    decreases |row|
  {
    row == [] || (row[0] == Turns(n, Up(j, 1)) && IsRow(n, j + 1, row[1..]))
  }

  lemma {:induction false} FirstRow()
    ensures IsRow(8, 0, GENERATORS[0])
  {
    var row := GENERATORS[0];
    assert Up(0, 1) == 0x1 && Turns(8, 0x1) == 0xF26B_8303;
    assert Up(1, 1) == 0x2 && Turns(8, 0x2) == 0xE13B_70F7;
    assert Up(2, 1) == 0x4 && Turns(8, 0x4) == 0xC79A_971F;
    assert Up(3, 1) == 0x8 && Turns(8, 0x8) == 0x8AD9_58CF;
    assert Up(4, 1) == 0x10 && Turns(8, 0x10) == 0x105E_C76F;
    assert Up(5, 1) == 0x20 && Turns(8, 0x20) == 0x20BD_8EDE;
    assert Up(6, 1) == 0x40 && Turns(8, 0x40) == 0x417B_1DBC;
    assert Up(7, 1) == 0x80 && Turns(8, 0x80) == 0x82F6_3B78;
    assert IsRow(8, 7, row[7..]);
    assert IsRow(8, 6, row[6..]);
    assert IsRow(8, 5, row[5..]);
    assert IsRow(8, 4, row[4..]);
    assert IsRow(8, 3, row[3..]);
    assert IsRow(8, 2, row[2..]);
    assert IsRow(8, 1, row[1..]);
  }

  predicate RowTurns(row: seq<bv32>, row': seq<bv32>) {
    |row'| == |row| && forall i :: 0 <= i < |row| ==> row'[i] == Turns(8, row[i])
  }

  lemma {:induction false} Row2Turns()
    ensures RowTurns(GENERATORS[0], GENERATORS[1])
  {
    assert Turns(8, 0xF26B_8303) == 0x13A2_9877;
    assert Turns(8, 0xE13B_70F7) == 0x2745_30EE;
    assert Turns(8, 0xC79A_971F) == 0x4E8A_61DC;
    assert Turns(8, 0x8AD9_58CF) == 0x9D14_C3B8;
    assert Turns(8, 0x105E_C76F) == 0x3FC5_F181;
    assert Turns(8, 0x20BD_8EDE) == 0x7F8B_E302;
    assert Turns(8, 0x417B_1DBC) == 0xFF17_C604;
    assert Turns(8, 0x82F6_3B78) == 0xFBC3_FAF9;
  }

  lemma {:induction false} Row3Turns()
    ensures RowTurns(GENERATORS[1], GENERATORS[2])
  {
    assert Turns(8, 0x13A2_9877) == 0xA541_927E;
    assert Turns(8, 0x2745_30EE) == 0x4F6F_520D;
    assert Turns(8, 0x4E8A_61DC) == 0x9EDE_A41A;
    assert Turns(8, 0x9D14_C3B8) == 0x3851_3EC5;
    assert Turns(8, 0x3FC5_F181) == 0x70A2_7D8A;
    assert Turns(8, 0x7F8B_E302) == 0xE144_FB14;
    assert Turns(8, 0xFF17_C604) == 0xC765_80D9;
    assert Turns(8, 0xFBC3_FAF9) == 0x8B27_7743;
  }

  lemma {:induction false} Row4Turns()
    ensures RowTurns(GENERATORS[2], GENERATORS[3])
  {
    assert Turns(8, 0xA541_927E) == 0xDD45_AAB8;
    assert Turns(8, 0x4F6F_520D) == 0xBF67_2381;
    assert Turns(8, 0x9EDE_A41A) == 0x7B22_31F3;
    assert Turns(8, 0x3851_3EC5) == 0xF644_63E6;
    assert Turns(8, 0x70A2_7D8A) == 0xE964_B13D;
    assert Turns(8, 0xE144_FB14) == 0xD725_148B;
    assert Turns(8, 0xC765_80D9) == 0xABA6_5FE7;
    assert Turns(8, 0x8B27_7743) == 0x52A0_C93F;
  }

  lemma {:induction false} Row5Turns()
    ensures RowTurns(GENERATORS[3], GENERATORS[4])
  {
    assert Turns(8, 0xDD45_AAB8) == 0x3811_6FAC;
    assert Turns(8, 0xBF67_2381) == 0x7022_DF58;
    assert Turns(8, 0x7B22_31F3) == 0xE045_BEB0;
    assert Turns(8, 0xF644_63E6) == 0xC567_0B91;
    assert Turns(8, 0xE964_B13D) == 0x8F22_61D3;
    assert Turns(8, 0xD725_148B) == 0x1BA8_B557;
    assert Turns(8, 0xABA6_5FE7) == 0x3751_6AAE;
    assert Turns(8, 0x52A0_C93F) == 0x6EA2_D55C;
  }

  lemma {:induction false} Row6Turns()
    ensures RowTurns(GENERATORS[4], GENERATORS[5])
  {
    assert Turns(8, 0x3811_6FAC) == 0xEF30_6B19;
    assert Turns(8, 0x7022_DF58) == 0xDB8C_A0C3;
    assert Turns(8, 0xE045_BEB0) == 0xB2F5_3777;
    assert Turns(8, 0xC567_0B91) == 0x6006_181F;
    assert Turns(8, 0x8F22_61D3) == 0xC00C_303E;
    assert Turns(8, 0x1BA8_B557) == 0x85F4_168D;
    assert Turns(8, 0x3751_6AAE) == 0x0E04_5BEB;
    assert Turns(8, 0x6EA2_D55C) == 0x1C08_B7D6;
  }

  lemma {:induction false} Row7Turns()
    ensures RowTurns(GENERATORS[5], GENERATORS[6])
  {
    assert Turns(8, 0xEF30_6B19) == 0x6803_2CC8;
    assert Turns(8, 0xDB8C_A0C3) == 0xD006_5990;
    assert Turns(8, 0xB2F5_3777) == 0xA5E0_C5D1;
    assert Turns(8, 0x6006_181F) == 0x4E2D_FD53;
    assert Turns(8, 0xC00C_303E) == 0x9C5B_FAA6;
    assert Turns(8, 0x85F4_168D) == 0x3D5B_83BD;
    assert Turns(8, 0x0E04_5BEB) == 0x7AB7_077A;
    assert Turns(8, 0x1C08_B7D6) == 0xF56E_0EF4;
  }

  lemma {:induction false} Row8Turns()
    ensures RowTurns(GENERATORS[6], GENERATORS[7])
  {
    assert Turns(8, 0x6803_2CC8) == 0x493C_7D27;
    assert Turns(8, 0xD006_5990) == 0x9278_FA4E;
    assert Turns(8, 0xA5E0_C5D1) == 0x211D_826D;
    assert Turns(8, 0x4E2D_FD53) == 0x423B_04DA;
    assert Turns(8, 0x9C5B_FAA6) == 0x8476_09B4;
    assert Turns(8, 0x3D5B_83BD) == 0x0D00_6599;
    assert Turns(8, 0x7AB7_077A) == 0x1A00_CB32;
    assert Turns(8, 0xF56E_0EF4) == 0x3401_9664;
  }

  lemma {:induction false} RowsTurn(k: nat)
    requires 1 <= k < 8
    ensures RowTurns(GENERATORS[k - 1], GENERATORS[k])
  {
    match k
    case 1 => Row2Turns();
    case 2 => Row3Turns();
    case 3 => Row4Turns();
    case 4 => Row5Turns();
    case 5 => Row6Turns();
    case 6 => Row7Turns();
    case _ => Row8Turns();
  }

  lemma {:induction false} RowNext(n: nat, j: nat, row: seq<bv32>, row': seq<bv32>)
    requires IsRow(n, j, row) && RowTurns(row, row')
    ensures IsRow(n + 8, j, row')
    decreases |row|
  {
    if row != [] {
      TurnsAdd(n, 8, Up(j, 1));
      RowNext(n, j + 1, row[1..], row'[1..]);
    }
  }

  lemma {:induction false} IsTable(k: nat)
    requires 1 <= k <= 8
    ensures IsRow(8 * k, 0, GENERATORS[k - 1]) && |GENERATORS[k - 1]| == 8
  {
    if k == 1 {
      FirstRow();
    } else {
      IsTable(k - 1);
      RowsTurn(k - 1);
      RowNext(8 * (k - 1), 0, GENERATORS[k - 2], GENERATORS[k - 1]);
    }
  }

  lemma {:induction false} LowBitAgain(b: bv32)
    ensures b == Xor(b & 1, Doubled(b >> 1)) && (b & 1 == 0 || b & 1 == 1)
  {
  }

  lemma {:induction false} UpZero(j: nat)
    ensures Up(j, 0) == 0
  {
    if j > 0 { UpZero(j - 1); }
  }

  lemma {:induction false} TurnsZero(n: nat)
    ensures Turns(n, 0) == 0
  {
    if n > 0 { TurnsZero(n - 1); }
  }

  lemma {:induction false} EntryTurns(n: nat, j: nat, row: seq<bv32>, b: bv32)
    requires IsRow(n, j, row) && Narrow(|row|, b)
    ensures Entry(row, b) == Turns(n, Up(j, b))
    decreases |row|
  {
    UpZero(j);
    TurnsZero(n);
    if row != [] {
      EntryTurns(n, j + 1, row[1..], b >> 1);
      LowBitAgain(b);
      UpXor(j, b & 1, Doubled(b >> 1));
      TurnsXor(n, Up(j, b & 1), Up(j + 1, b >> 1));
    }
  }

  /** Every entry of the eight tables follows from the literal entries at the powers of two. */
  lemma {:induction false} TablesAre(k: nat, b: bv32)
    requires 1 <= k <= 8 && b <= 0xff
    ensures Slice(k, b) == Entry(GENERATORS[k - 1], b)
  {
    IsTable(k);
    NarrowByte(b);
    EntryTurns(8 * k, 0, GENERATORS[k - 1], b);
  }

  /** One byte, with the entry of the table it picks. */
  lemma {:induction false} Goes(crc: bv32, b: bv8, low: bv32, entry: bv32, next: bv32, rest: seq<bv8>)
    requires Xor(crc, b as bv32) & 0xff == low && Turns(8, low) == entry && Xor(entry, crc >> 8) == next
    ensures Crc(crc, [b] + rest) == Crc(next, rest)
  {
    CrcNext(crc, b, rest);
  }

  lemma {:induction false} Digits3(rest: seq<bv8>)
    ensures Crc(0xFFFF_FFFF, [0x31, 0x32, 0x33] + rest) == Crc(0xEF84_D04D, rest)
  {
    Goes(0xFFFF_FFFF, 0x31, 0xCE, 0x6FF5_99E3, 0x6F0A_661C, [0x32, 0x33] + rest);
    Goes(0x6F0A_661C, 0x32, 0x2E, 0x8CC5_31F9, 0x8CAA_3B9F, [0x33] + rest);
    Goes(0x8CAA_3B9F, 0x33, 0xAC, 0xEF08_7A76, 0xEF84_D04D, rest);
    assert [0x31, 0x32, 0x33] + rest == [0x31] + ([0x32, 0x33] + rest) && [0x32, 0x33] + rest == [0x32] + ([0x33] + rest);
  }

  lemma {:induction false} Digits6(rest: seq<bv8>)
    ensures Crc(0xEF84_D04D, [0x34, 0x35, 0x36] + rest) == Crc(0xBECA_8E79, rest)
  {
    Goes(0xEF84_D04D, 0x34, 0x79, 0x092A_8FC1, 0x09C5_0B11, [0x35, 0x36] + rest);
    Goes(0x09C5_0B11, 0x35, 0x24, 0xE727_19C1, 0xE72E_DCCA, [0x36] + rest);
    Goes(0xE72E_DCCA, 0x36, 0xFC, 0xBE2D_A0A5, 0xBECA_8E79, rest);
    assert [0x34, 0x35, 0x36] + rest == [0x34] + ([0x35, 0x36] + rest) && [0x35, 0x36] + rest == [0x35] + ([0x36] + rest);
  }

  lemma {:induction false} Digits9(rest: seq<bv8>)
    ensures Crc(0xBECA_8E79, [0x37, 0x38, 0x39] + rest) == Crc(0x1CF9_6D7C, rest)
  {
    Goes(0xBECA_8E79, 0x37, 0x4E, 0xED03_A29B, 0xEDBD_6815, [0x38, 0x39] + rest);
    Goes(0xEDBD_6815, 0x38, 0x2D, 0x9F95_C20D, 0x9F78_7F65, [0x39] + rest);
    Goes(0x9F78_7F65, 0x39, 0x5C, 0x1C66_1503, 0x1CF9_6D7C, rest);
    assert [0x37, 0x38, 0x39] + rest == [0x37] + ([0x38, 0x39] + rest) && [0x38, 0x39] + rest == [0x38] + ([0x39] + rest);
  }

  /** The check value of CRC32C: the digits from 1 to 9, with the register inverted before and after. */
  lemma {:induction false} CheckValue()
    ensures Xor(Crc(0xFFFF_FFFF, [0x31, 0x32, 0x33, 0x34, 0x35, 0x36, 0x37, 0x38, 0x39]), 0xFFFF_FFFF) == 0xE306_9283
  {
    var a: seq<bv8>, b: seq<bv8>, c: seq<bv8> := [0x31, 0x32, 0x33], [0x34, 0x35, 0x36], [0x37, 0x38, 0x39];
    Digits3(b + (c + []));
    Digits6(c + []);
    Digits9([]);
    assert [0x31, 0x32, 0x33, 0x34, 0x35, 0x36, 0x37, 0x38, 0x39] == a + (b + (c + []));
  }
}
