/** The checksums of a known text. */
module CrcCheck {
  import opened Crc

  /** "123456789" in ASCII. */
  const NINE: seq<bv8> := [49, 50, 51, 52, 53, 54, 55, 56, 57]

  lemma Little0()
    ensures Update(0xffff_ffff, 49, POLY_LE) == 0x7c231048
  {
  }

  lemma Little1()
    ensures Update(0x7c231048, 50, POLY_LE) == 0xb0acbb32
  {
  }

  lemma Little2()
    ensures Update(0xb0acbb32, 51, POLY_LE) == 0x77b79c2d
  {
  }

  lemma Little3()
    ensures Update(0x77b79c2d, 52, POLY_LE) == 0x641c1f5c
  {
  }

  lemma Little4()
    ensures Update(0x641c1f5c, 53, POLY_LE) == 0x340ac5e3
  {
  }

  lemma Little5()
    ensures Update(0x340ac5e3, 54, POLY_LE) == 0xf68d2c9e
  {
  }

  lemma Little6()
    ensures Update(0xf68d2c9e, 55, POLY_LE) == 0xaffc9660
  {
  }

  lemma Little7()
    ensures Update(0xaffc9660, 56, POLY_LE) == 0x651f2550
  {
  }

  lemma Little8()
    ensures Update(0x651f2550, 57, POLY_LE) == 0x340bc6d9
  {
  }

  lemma Big0()
    ensures Update(0xffff_ffff, 49, POLY_BE) == 0x1449f52
  {
  }

  lemma Big1()
    ensures Update(0x1449f52, 50, POLY_BE) == 0x5f01e45
  {
  }

  lemma Big2()
    ensures Update(0x5f01e45, 51, POLY_BE) == 0x3920fb3
  {
  }

  lemma Big3()
    ensures Update(0x3920fb3, 52, POLY_BE) == 0x52f7883
  {
  }

  lemma Big4()
    ensures Update(0x52f7883, 53, POLY_BE) == 0x1f25e0e
  {
  }

  lemma Big5()
    ensures Update(0x1f25e0e, 54, POLY_BE) == 0x6ec70e9
  {
  }

  lemma Big6()
    ensures Update(0x6ec70e9, 55, POLY_BE) == 0x15e806
  {
  }

  lemma Big7()
    ensures Update(0x15e806, 56, POLY_BE) == 0x12356f3
  {
  }

  lemma Big8()
    ensures Update(0x12356f3, 57, POLY_BE) == 0x3b0d416
  {
  }

  /** A running value over nine bytes, one after the other. */
  lemma NineUpdates(s: seq<bv8>, poly: bv32, c1: bv32, c2: bv32, c3: bv32, c4: bv32, c5: bv32, c6: bv32, c7: bv32, c8: bv32, c9: bv32)
    requires |s| == 9
    requires Update(0xffff_ffff, s[0], poly) == c1 && Update(c1, s[1], poly) == c2 && Update(c2, s[2], poly) == c3
    requires Update(c3, s[3], poly) == c4 && Update(c4, s[4], poly) == c5 && Update(c5, s[5], poly) == c6
    requires Update(c6, s[6], poly) == c7 && Update(c7, s[7], poly) == c8 && Update(c8, s[8], poly) == c9
    ensures Checksum(0xffff_ffff, s, poly) == c9
  {
    hide Update;
    assert Checksum(c9, s[9..], poly) == c9;
    assert s[8..][1..] == s[9..] && s[7..][1..] == s[8..] && s[6..][1..] == s[7..] && s[5..][1..] == s[6..];
    assert s[4..][1..] == s[5..] && s[3..][1..] == s[4..] && s[2..][1..] == s[3..] && s[1..][1..] == s[2..];
    assert Checksum(c8, s[8..], poly) == c9;
    assert Checksum(c7, s[7..], poly) == c9;
    assert Checksum(c6, s[6..], poly) == c9;
    assert Checksum(c5, s[5..], poly) == c9;
    assert Checksum(c4, s[4..], poly) == c9;
    assert Checksum(c3, s[3..], poly) == c9;
    assert Checksum(c2, s[2..], poly) == c9;
    assert Checksum(c1, s[1..], poly) == c9;
  }

  lemma LittleNine()
    ensures Checksum(0xffff_ffff, NINE, POLY_LE) == 0x340b_c6d9
  {
    hide Update;
    Little0(); Little1(); Little2(); Little3(); Little4(); Little5(); Little6(); Little7(); Little8();
    NineUpdates(NINE, POLY_LE, 0x7c231048, 0xb0acbb32, 0x77b79c2d, 0x641c1f5c, 0x340ac5e3, 0xf68d2c9e, 0xaffc9660, 0x651f2550, 0x340bc6d9);
  }

  lemma BigNine()
    ensures Checksum(0xffff_ffff, NINE, POLY_BE) == 0x03b0_d416
  {
    hide Update;
    Big0(); Big1(); Big2(); Big3(); Big4(); Big5(); Big6(); Big7(); Big8();
    NineUpdates(NINE, POLY_BE, 0x1449f52, 0x5f01e45, 0x3920fb3, 0x52f7883, 0x1f25e0e, 0x6ec70e9, 0x15e806, 0x12356f3, 0x3b0d416);
  }

  /** The checksum of section 8 of RFC 1952 has its usual check value. */
  lemma CheckValue()
    ensures Crc32Of(NINE) == 0xcbf4_3926
  {
    hide Checksum;
    LittleNine();
  }
}
