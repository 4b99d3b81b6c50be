/** The table-driven form of the checksum, and that it computes the same function. */
module CrcTable {
  import opened Crc

  /** Eight entries of the table. */
  datatype Row = Row(e0: bv32, e1: bv32, e2: bv32, e3: bv32, e4: bv32, e5: bv32, e6: bv32, e7: bv32) {
    function Entry(j: bv32): bv32 {
      if j == 0 then e0 else if j == 1 then e1 else if j == 2 then e2 else if j == 3 then e3
      else if j == 4 then e4 else if j == 5 then e5 else if j == 6 then e6 else e7
    }
  }

  function TableRow(h: bv32): Row {
    if h == 0 then Row(0x00000000, 0x77073096, 0xee0e612c, 0x990951ba, 0x076dc419, 0x706af48f, 0xe963a535, 0x9e6495a3)
    else if h == 1 then Row(0x0edb8832, 0x79dcb8a4, 0xe0d5e91e, 0x97d2d988, 0x09b64c2b, 0x7eb17cbd, 0xe7b82d07, 0x90bf1d91)
    else if h == 2 then Row(0x1db71064, 0x6ab020f2, 0xf3b97148, 0x84be41de, 0x1adad47d, 0x6ddde4eb, 0xf4d4b551, 0x83d385c7)
    else if h == 3 then Row(0x136c9856, 0x646ba8c0, 0xfd62f97a, 0x8a65c9ec, 0x14015c4f, 0x63066cd9, 0xfa0f3d63, 0x8d080df5)
    else if h == 4 then Row(0x3b6e20c8, 0x4c69105e, 0xd56041e4, 0xa2677172, 0x3c03e4d1, 0x4b04d447, 0xd20d85fd, 0xa50ab56b)
    else if h == 5 then Row(0x35b5a8fa, 0x42b2986c, 0xdbbbc9d6, 0xacbcf940, 0x32d86ce3, 0x45df5c75, 0xdcd60dcf, 0xabd13d59)
    else if h == 6 then Row(0x26d930ac, 0x51de003a, 0xc8d75180, 0xbfd06116, 0x21b4f4b5, 0x56b3c423, 0xcfba9599, 0xb8bda50f)
    else if h == 7 then Row(0x2802b89e, 0x5f058808, 0xc60cd9b2, 0xb10be924, 0x2f6f7c87, 0x58684c11, 0xc1611dab, 0xb6662d3d)
    else if h == 8 then Row(0x76dc4190, 0x01db7106, 0x98d220bc, 0xefd5102a, 0x71b18589, 0x06b6b51f, 0x9fbfe4a5, 0xe8b8d433)
    else if h == 9 then Row(0x7807c9a2, 0x0f00f934, 0x9609a88e, 0xe10e9818, 0x7f6a0dbb, 0x086d3d2d, 0x91646c97, 0xe6635c01)
    else if h == 10 then Row(0x6b6b51f4, 0x1c6c6162, 0x856530d8, 0xf262004e, 0x6c0695ed, 0x1b01a57b, 0x8208f4c1, 0xf50fc457)
    else if h == 11 then Row(0x65b0d9c6, 0x12b7e950, 0x8bbeb8ea, 0xfcb9887c, 0x62dd1ddf, 0x15da2d49, 0x8cd37cf3, 0xfbd44c65)
    else if h == 12 then Row(0x4db26158, 0x3ab551ce, 0xa3bc0074, 0xd4bb30e2, 0x4adfa541, 0x3dd895d7, 0xa4d1c46d, 0xd3d6f4fb)
    else if h == 13 then Row(0x4369e96a, 0x346ed9fc, 0xad678846, 0xda60b8d0, 0x44042d73, 0x33031de5, 0xaa0a4c5f, 0xdd0d7cc9)
    else if h == 14 then Row(0x5005713c, 0x270241aa, 0xbe0b1010, 0xc90c2086, 0x5768b525, 0x206f85b3, 0xb966d409, 0xce61e49f)
    else if h == 15 then Row(0x5edef90e, 0x29d9c998, 0xb0d09822, 0xc7d7a8b4, 0x59b33d17, 0x2eb40d81, 0xb7bd5c3b, 0xc0ba6cad)
    else if h == 16 then Row(0xedb88320, 0x9abfb3b6, 0x03b6e20c, 0x74b1d29a, 0xead54739, 0x9dd277af, 0x04db2615, 0x73dc1683)
    else if h == 17 then Row(0xe3630b12, 0x94643b84, 0x0d6d6a3e, 0x7a6a5aa8, 0xe40ecf0b, 0x9309ff9d, 0x0a00ae27, 0x7d079eb1)
    else if h == 18 then Row(0xf00f9344, 0x8708a3d2, 0x1e01f268, 0x6906c2fe, 0xf762575d, 0x806567cb, 0x196c3671, 0x6e6b06e7)
    else if h == 19 then Row(0xfed41b76, 0x89d32be0, 0x10da7a5a, 0x67dd4acc, 0xf9b9df6f, 0x8ebeeff9, 0x17b7be43, 0x60b08ed5)
    else if h == 20 then Row(0xd6d6a3e8, 0xa1d1937e, 0x38d8c2c4, 0x4fdff252, 0xd1bb67f1, 0xa6bc5767, 0x3fb506dd, 0x48b2364b)
    else if h == 21 then Row(0xd80d2bda, 0xaf0a1b4c, 0x36034af6, 0x41047a60, 0xdf60efc3, 0xa867df55, 0x316e8eef, 0x4669be79)
    else if h == 22 then Row(0xcb61b38c, 0xbc66831a, 0x256fd2a0, 0x5268e236, 0xcc0c7795, 0xbb0b4703, 0x220216b9, 0x5505262f)
    else if h == 23 then Row(0xc5ba3bbe, 0xb2bd0b28, 0x2bb45a92, 0x5cb36a04, 0xc2d7ffa7, 0xb5d0cf31, 0x2cd99e8b, 0x5bdeae1d)
    else if h == 24 then Row(0x9b64c2b0, 0xec63f226, 0x756aa39c, 0x026d930a, 0x9c0906a9, 0xeb0e363f, 0x72076785, 0x05005713)
    else if h == 25 then Row(0x95bf4a82, 0xe2b87a14, 0x7bb12bae, 0x0cb61b38, 0x92d28e9b, 0xe5d5be0d, 0x7cdcefb7, 0x0bdbdf21)
    else if h == 26 then Row(0x86d3d2d4, 0xf1d4e242, 0x68ddb3f8, 0x1fda836e, 0x81be16cd, 0xf6b9265b, 0x6fb077e1, 0x18b74777)
    else if h == 27 then Row(0x88085ae6, 0xff0f6a70, 0x66063bca, 0x11010b5c, 0x8f659eff, 0xf862ae69, 0x616bffd3, 0x166ccf45)
    else if h == 28 then Row(0xa00ae278, 0xd70dd2ee, 0x4e048354, 0x3903b3c2, 0xa7672661, 0xd06016f7, 0x4969474d, 0x3e6e77db)
    else if h == 29 then Row(0xaed16a4a, 0xd9d65adc, 0x40df0b66, 0x37d83bf0, 0xa9bcae53, 0xdebb9ec5, 0x47b2cf7f, 0x30b5ffe9)
    else if h == 30 then Row(0xbdbdf21c, 0xcabac28a, 0x53b39330, 0x24b4a3a6, 0xbad03605, 0xcdd70693, 0x54de5729, 0x23d967bf)
    else Row(0xb3667a2e, 0xc4614ab8, 0x5d681b02, 0x2a6f2b94, 0xb40bbe37, 0xc30c8ea1, 0x5a05df1b, 0x2d02ef8d)
  }

  function RowOf(i: bv32): bv32 { i >> 3 }
  function ColumnOf(i: bv32): bv32 { i & 7 }
  function Times8(h: bv32): bv32 { h << 3 }

  /** Entry i of the table. */
  function Table(i: bv32): bv32 {
    TableRow(RowOf(i)).Entry(ColumnOf(i))
  }

  /** What a row must hold: the eight steps of each of its indices. */
  function Computed(i: bv32): Row {
    Row(Step8(i, POLY_LE), Step8(i + 1, POLY_LE), Step8(i + 2, POLY_LE), Step8(i + 3, POLY_LE),
        Step8(i + 4, POLY_LE), Step8(i + 5, POLY_LE), Step8(i + 6, POLY_LE), Step8(i + 7, POLY_LE))
  }

  lemma Row0()
    ensures TableRow(0) == Computed(0)
  {
  }

  lemma Row1()
    ensures TableRow(1) == Computed(8)
  {
  }

  lemma Row2()
    ensures TableRow(2) == Computed(16)
  {
  }

  lemma Row3()
    ensures TableRow(3) == Computed(24)
  {
  }

  lemma Row4()
    ensures TableRow(4) == Computed(32)
  {
  }

  lemma Row5()
    ensures TableRow(5) == Computed(40)
  {
  }

  lemma Row6()
    ensures TableRow(6) == Computed(48)
  {
  }

  lemma Row7()
    ensures TableRow(7) == Computed(56)
  {
  }

  lemma Row8()
    ensures TableRow(8) == Computed(64)
  {
  }

  lemma Row9()
    ensures TableRow(9) == Computed(72)
  {
  }

  lemma Row10()
    ensures TableRow(10) == Computed(80)
  {
  }

  lemma Row11()
    ensures TableRow(11) == Computed(88)
  {
  }

  lemma Row12()
    ensures TableRow(12) == Computed(96)
  {
  }

  lemma Row13()
    ensures TableRow(13) == Computed(104)
  {
  }

  lemma Row14()
    ensures TableRow(14) == Computed(112)
  {
  }

  lemma Row15()
    ensures TableRow(15) == Computed(120)
  {
  }

  lemma Row16()
    ensures TableRow(16) == Computed(128)
  {
  }

  lemma Row17()
    ensures TableRow(17) == Computed(136)
  {
  }

  lemma Row18()
    ensures TableRow(18) == Computed(144)
  {
  }

  lemma Row19()
    ensures TableRow(19) == Computed(152)
  {
  }

  lemma Row20()
    ensures TableRow(20) == Computed(160)
  {
  }

  lemma Row21()
    ensures TableRow(21) == Computed(168)
  {
  }

  lemma Row22()
    ensures TableRow(22) == Computed(176)
  {
  }

  lemma Row23()
    ensures TableRow(23) == Computed(184)
  {
  }

  lemma Row24()
    ensures TableRow(24) == Computed(192)
  {
  }

  lemma Row25()
    ensures TableRow(25) == Computed(200)
  {
  }

  lemma Row26()
    ensures TableRow(26) == Computed(208)
  {
  }

  lemma Row27()
    ensures TableRow(27) == Computed(216)
  {
  }

  lemma Row28()
    ensures TableRow(28) == Computed(224)
  {
  }

  lemma Row29()
    ensures TableRow(29) == Computed(232)
  {
  }

  lemma Row30()
    ensures TableRow(30) == Computed(240)
  {
  }

  lemma Row31()
    ensures TableRow(31) == Computed(248)
  {
  }

  lemma RowAt0(h: bv32)
    requires h == 0 || h == 1 || h == 2 || h == 3 || h == 4 || h == 5 || h == 6 || h == 7
    ensures TableRow(h) == Computed(Times8(h))
  {
    hide TableRow, Computed, Times8;
    EightTimes0();
    if h == 0 { Row0(); } else if h == 1 { Row1(); } else if h == 2 { Row2(); } else if h == 3 { Row3(); } else if h == 4 { Row4(); } else if h == 5 { Row5(); } else if h == 6 { Row6(); } else { Row7(); }
  }

  lemma EightTimes0()
    ensures Times8(0) == 0
    ensures Times8(1) == 8
    ensures Times8(2) == 16
    ensures Times8(3) == 24
    ensures Times8(4) == 32
    ensures Times8(5) == 40
    ensures Times8(6) == 48
    ensures Times8(7) == 56
  {
  }

  lemma RowAt8(h: bv32)
    requires h == 8 || h == 9 || h == 10 || h == 11 || h == 12 || h == 13 || h == 14 || h == 15
    ensures TableRow(h) == Computed(Times8(h))
  {
    hide TableRow, Computed, Times8;
    EightTimes8();
    if h == 8 { Row8(); } else if h == 9 { Row9(); } else if h == 10 { Row10(); } else if h == 11 { Row11(); } else if h == 12 { Row12(); } else if h == 13 { Row13(); } else if h == 14 { Row14(); } else { Row15(); }
  }

  lemma EightTimes8()
    ensures Times8(8) == 64
    ensures Times8(9) == 72
    ensures Times8(10) == 80
    ensures Times8(11) == 88
    ensures Times8(12) == 96
    ensures Times8(13) == 104
    ensures Times8(14) == 112
    ensures Times8(15) == 120
  {
  }

  lemma RowAt16(h: bv32)
    requires h == 16 || h == 17 || h == 18 || h == 19 || h == 20 || h == 21 || h == 22 || h == 23
    ensures TableRow(h) == Computed(Times8(h))
  {
    hide TableRow, Computed, Times8;
    EightTimes16();
    if h == 16 { Row16(); } else if h == 17 { Row17(); } else if h == 18 { Row18(); } else if h == 19 { Row19(); } else if h == 20 { Row20(); } else if h == 21 { Row21(); } else if h == 22 { Row22(); } else { Row23(); }
  }

  lemma EightTimes16()
    ensures Times8(16) == 128
    ensures Times8(17) == 136
    ensures Times8(18) == 144
    ensures Times8(19) == 152
    ensures Times8(20) == 160
    ensures Times8(21) == 168
    ensures Times8(22) == 176
    ensures Times8(23) == 184
  {
  }

  lemma RowAt24(h: bv32)
    requires h == 24 || h == 25 || h == 26 || h == 27 || h == 28 || h == 29 || h == 30 || h == 31
    ensures TableRow(h) == Computed(Times8(h))
  {
    hide TableRow, Computed, Times8;
    EightTimes24();
    if h == 24 { Row24(); } else if h == 25 { Row25(); } else if h == 26 { Row26(); } else if h == 27 { Row27(); } else if h == 28 { Row28(); } else if h == 29 { Row29(); } else if h == 30 { Row30(); } else { Row31(); }
  }

  lemma EightTimes24()
    ensures Times8(24) == 192
    ensures Times8(25) == 200
    ensures Times8(26) == 208
    ensures Times8(27) == 216
    ensures Times8(28) == 224
    ensures Times8(29) == 232
    ensures Times8(30) == 240
    ensures Times8(31) == 248
  {
  }

  lemma RowAt(h: bv32)
    requires h < 32
    ensures TableRow(h) == Computed(Times8(h))
  {
    hide TableRow, Computed, Times8;
    Numbers(h);
    if Among(h, 0) { RowAt0(h); } else if Among(h, 8) { RowAt8(h); } else if Among(h, 16) { RowAt16(h); } else { RowAt24(h); }
  }

  /** One of the eight numbers from lo on. */
  predicate Among(h: bv32, lo: bv32) {
    h == lo || h == lo + 1 || h == lo + 2 || h == lo + 3 || h == lo + 4 || h == lo + 5 || h == lo + 6 || h == lo + 7
  }

  lemma Numbers(h: bv32)
    requires h < 32
    ensures Among(h, 0) || Among(h, 8) || Among(h, 16) || Among(h, 24)
  {
  }

  lemma LastOfEight(j: bv32)
    requires j < 8 && j != 0 && j != 1 && j != 2 && j != 3 && j != 4 && j != 5 && j != 6
    ensures j == 7
  {
  }

  lemma EntryAt(i: bv32, j: bv32)
    requires j < 8
    ensures Computed(i).Entry(j) == Step8(i + j, POLY_LE)
  {
    hide Step8;
    if j == 0 { assert i + j == i; }
    else if j == 1 { assert i + j == i + 1; }
    else if j == 2 { assert i + j == i + 2; }
    else if j == 3 { assert i + j == i + 3; }
    else if j == 4 { assert i + j == i + 4; }
    else if j == 5 { assert i + j == i + 5; }
    else if j == 6 { assert i + j == i + 6; }
    else { LastOfEight(j); assert i + j == i + 7; }
  }

  lemma SmallRow(i: bv32)
    requires i < 256
    ensures RowOf(i) < 32
  {
  }

  lemma SmallColumn(i: bv32)
    ensures ColumnOf(i) < 8
  {
  }

  lemma IndexSplits(i: bv32)
    ensures Times8(RowOf(i)) + ColumnOf(i) == i
  {
  }

  /** All 256 entries are right. */
  lemma TableCorrect(i: bv32)
    requires i < 256
    ensures Table(i) == Step8(i, POLY_LE)
  {
    hide Step8, Computed, TableRow, Times8, RowOf, ColumnOf;
    SmallRow(i);
    SmallColumn(i);
    IndexSplits(i);
    RowAt(RowOf(i));
    EntryAt(Times8(RowOf(i)), ColumnOf(i));
  }

  /** One byte: shift, and mix in the entry for the low byte. */
  function TableUpdate(c: bv32, b: bv8): bv32 {
    Xor(ShiftByte(c), Table(Low(Xor(c, Byte32(b)))))
  }

  lemma LowIsByte(x: bv32)
    ensures Low(x) < 256
  {
  }

  lemma ByteOnlyLow(c: bv32, b: bv8)
    ensures ShiftByte(Xor(c, Byte32(b))) == ShiftByte(c)
  {
  }

  /** One look-up does the eight steps of a byte, whatever the running value. */
  lemma TableUpdateCorrect(c: bv32, b: bv8)
    ensures TableUpdate(c, b) == Update(c, b, POLY_LE)
  {
    hide Step8, Table, ShiftByte, Xor, Low, Byte32;
    var x := Xor(c, Byte32(b));
    LowIsByte(x);
    TableCorrect(Low(x));
    Step8Splits(x, POLY_LE);
    ByteOnlyLow(c, b);
  }

  /** The table-driven loop computes the same checksum as the bitwise one. */
  method CalcTable(buf: array<bv8>, from: nat, len: nat, base: bv32) returns (crc: bv32)
    requires from + len <= buf.Length
    ensures crc == Checksum(base, buf[from..from + len], POLY_LE)
  {
    hide Update, TableUpdate;
    crc := base;
    var k := 0;
    while k < len
      invariant k <= len && crc == Checksum(base, buf[from..from + k], POLY_LE)
    {
      ChecksumSnoc(base, buf[from..from + k], buf[from + k], POLY_LE);
      assert buf[from..from + k + 1] == buf[from..from + k] + [buf[from + k]];
      TableUpdateCorrect(crc, buf[from + k]);
      crc := TableUpdate(crc, buf[from + k]);
      k := k + 1;
    }
  }
}
