/** Which files are taken as ELF files, and what is read from them, said from their bytes. */
module MetaelfAccept {
  import opened Basics
  import opened Crc
  import opened CrcCheck
  import opened Metaelf

  function ByteAt(m: seq<bv8>, i: nat): nat { if i < |m| then m[i] as nat else 0 }

  /** Byte 5 tells the byte order: 1 for the lowest byte first. */
  predicate LowFirst(m: seq<bv8>) { ByteAt(m, 5) == 1 }

  function Two(m: seq<bv8>, i: nat): nat {
    if LowFirst(m) then ByteAt(m, i) + 0x100 * ByteAt(m, i + 1) else 0x100 * ByteAt(m, i) + ByteAt(m, i + 1)
  }

  function Four(m: seq<bv8>, i: nat): nat {
    if LowFirst(m) then Two(m, i) + 0x1_0000 * Two(m, i + 2) else 0x1_0000 * Two(m, i) + Two(m, i + 2)
  }

  function Eight(m: seq<bv8>, i: nat): nat {
    if LowFirst(m) then Four(m, i) + 0x1_0000_0000 * Four(m, i + 4) else 0x1_0000_0000 * Four(m, i) + Four(m, i + 4)
  }

  // ---------- numbers ----------

  lemma Shifts()
    ensures Pow2(0) == 1 && Pow2(8) == 0x100
  {
  }

  lemma {:induction false} EightMore(n: nat)
    ensures Pow2(n + 8) == 0x100 * Pow2(n)
  {
    assert Pow2(n + 8) == 2 * Pow2(n + 7) && Pow2(n + 7) == 2 * Pow2(n + 6) && Pow2(n + 6) == 2 * Pow2(n + 5);
    assert Pow2(n + 5) == 2 * Pow2(n + 4) && Pow2(n + 4) == 2 * Pow2(n + 3) && Pow2(n + 3) == 2 * Pow2(n + 2);
    assert Pow2(n + 2) == 2 * Pow2(n + 1) && Pow2(n + 1) == 2 * Pow2(n);
  }

  lemma SameByte(m: seq<bv8>, i: nat)
    ensures Value(At(m, i)) == ByteAt(m, i) < 0x100
  {
  }

  lemma SameOrder(m: seq<bv8>)
    ensures Lsb(m) <==> LowFirst(m)
  {
    var b := At(m, 5);
    assert b == 1 <==> b as nat == 1;
  }

  lemma NumNext(m: seq<bv8>, off: nat, n: nat, p: nat)
    requires Pow2(8 * n) == p
    ensures Num(m, off, n + 1) ==
      if LowFirst(m) then Num(m, off, n) + p * ByteAt(m, off + n) else 0x100 * Num(m, off, n) + ByteAt(m, off + n)
  {
    hide Value, At, ByteAt;
    SameByte(m, off + n);
    SameOrder(m);
  }

  lemma NumNone(m: seq<bv8>, off: nat)
    ensures Num(m, off, 0) == 0
  {
  }

  lemma NumTwo(m: seq<bv8>, off: nat)
    ensures Num(m, off, 2) == Two(m, off) < 0x1_0000
  {
    hide Pow2, LowFirst, Num, ByteAt;
    Shifts();
    NumNone(m, off);
    SameByte(m, off);
    SameByte(m, off + 1);
    NumNext(m, off, 0, 1);
    NumNext(m, off, 1, 0x100);
  }

  lemma NumFour(m: seq<bv8>, off: nat)
    ensures Num(m, off, 4) == Four(m, off)
  {
    hide Pow2, LowFirst, Num;
    Shifts();
    EightMore(8);
    EightMore(16);
    NumTwo(m, off);
    NumNext(m, off, 2, 0x1_0000);
    NumNext(m, off, 3, 0x100_0000);
  }

  lemma NumEight(m: seq<bv8>, off: nat)
    ensures Num(m, off, 8) == Eight(m, off)
  {
    hide Pow2, LowFirst, Num, Four;
    Shifts();
    EightMore(8);
    EightMore(16);
    EightMore(24);
    EightMore(32);
    EightMore(40);
    EightMore(48);
    NumFour(m, off);
    NumNext(m, off, 4, 0x1_0000_0000);
    NumNext(m, off, 5, 0x100_0000_0000);
    NumNext(m, off, 6, 0x1_0000_0000_0000);
    NumNext(m, off, 7, 0x100_0000_0000_0000);
    FourSpelled(m, off + 4);
  }

  lemma FourSpelled(m: seq<bv8>, i: nat)
    ensures Four(m, i) ==
      if LowFirst(m) then
        ByteAt(m, i) + 0x100 * ByteAt(m, i + 1) + 0x1_0000 * ByteAt(m, i + 2) + 0x100_0000 * ByteAt(m, i + 3)
      else
        0x100_0000 * ByteAt(m, i) + 0x1_0000 * ByteAt(m, i + 1) + 0x100 * ByteAt(m, i + 2) + ByteAt(m, i + 3)
  {
    hide LowFirst, ByteAt;
  }

  // ---------- acceptance ----------

  predicate HasMagic(m: seq<bv8>) { |m| >= 4 && m[0] == 0x7f && m[1] == 0x45 && m[2] == 0x4c && m[3] == 0x46 }

  /** In a 32-bit file the section headers start at the number in bytes 32 to 35, and those in 46, 47 and 48, 49 are the
      size and the number of them; the sum is a 32-bit number. */
  predicate Ends32(m: seq<bv8>) { |m| == (Four(m, 32) + Two(m, 46) * Two(m, 48)) % 0x1_0000_0000 }

  /** In a 64-bit file the places are 40 to 47, 58, 59 and 60, 61. The product is a 32-bit number with a sign, the sum a
      64-bit one with a sign. */
  predicate Ends64(m: seq<bv8>) {
    var room := Two(m, 58) * Two(m, 60);
    var signed := if room < 0x8000_0000 then room else room - 0x1_0000_0000;
    |m| < 0x8000_0000_0000_0000 && |m| == (Eight(m, 40) + signed) % 0x1_0000_0000_0000_0000
  }

  lemma ProductFits(a: nat, b: nat)
    requires a < 0x1_0000 && b < 0x1_0000
    ensures a * b < 0x1_0000_0000
    ensures IntProduct(a, b) == if a * b < 0x8000_0000 then a * b else a * b - 0x1_0000_0000
  {
    assert a * b <= 0xffff * 0xffff by { Larger(a, 0xffff, b); Larger(b, 0xffff, 0xffff); }
  }

  lemma Larger(a: nat, c: nat, b: nat)
    requires a <= c
    ensures a * b <= c * b && b * a <= b * c
  {
  }

  lemma LessOnce(x: int)
    ensures (x - 0x1_0000_0000) % 0x1_0000_0000 == x % 0x1_0000_0000
  {
  }

  lemma Class32(m: seq<bv8>)
    requires At(m, EI_CLASS) == 1
    ensures ElfSize(m) == |m| <==> Ends32(m)
  {
    hide Num, Two, Four;
    NumFour(m, 32);
    NumTwo(m, 46);
    NumTwo(m, 48);
    ProductFits(Two(m, 46), Two(m, 48));
    LessOnce(Four(m, 32) + Two(m, 46) * Two(m, 48));
  }

  lemma Class64(m: seq<bv8>)
    requires At(m, EI_CLASS) == 2
    ensures ElfSize(m) == |m| <==> Ends64(m)
  {
    hide Num, Two, Eight;
    NumEight(m, 40);
    NumTwo(m, 58);
    NumTwo(m, 60);
    ProductFits(Two(m, 58), Two(m, 60));
  }

  /** A file is taken as an ELF file exactly when it begins with the magic number and, by its class, ends where its
      section headers end. */
  lemma AcceptedWhen(m: seq<bv8>)
    ensures Accepted(m) <==>
      HasMagic(m) && ((ByteAt(m, 4) == 1 && Ends32(m)) || (ByteAt(m, 4) == 2 && Ends64(m)))
  {
    hide ElfSize, Ends32, Ends64;
    ClassByte(m);
    if At(m, EI_CLASS) == 1 { Class32(m); }
    if At(m, EI_CLASS) == 2 { Class64(m); }
    if At(m, EI_CLASS) != 1 && At(m, EI_CLASS) != 2 { OtherClass(m); }
  }

  lemma ClassByte(m: seq<bv8>)
    ensures (At(m, 4) == 1 <==> ByteAt(m, 4) == 1) && (At(m, 4) == 2 <==> ByteAt(m, 4) == 2)
  {
    SameByte(m, 4);
    var b := At(m, 4);
    assert (b == 1 <==> b as nat == 1) && (b == 2 <==> b as nat == 2);
  }

  lemma OtherClass(m: seq<bv8>)
    requires At(m, 4) != 1 && At(m, 4) != 2
    ensures ElfSize(m) == -1
  {
  }

  // ---------- files with section headers ----------

  /** A little-endian 32-bit file of 92 bytes: one section header of 40 bytes at 52. */
  function Small32(): seq<bv8> {
    seq(92, i requires 0 <= i < 92 =>
      if i == 0 then 0x7f else if i == 1 then 0x45 else if i == 2 then 0x4c else if i == 3 then 0x46
      else if i == 4 then 1 else if i == 5 then 1
      else if i == 32 then 52 else if i == 46 then 40 else if i == 48 then 1 else 0)
  }

  /** A big-endian 64-bit file of 128 bytes: one section header of 64 bytes at 64. */
  function Small64(): seq<bv8> {
    seq(128, i requires 0 <= i < 128 =>
      if i == 0 then 0x7f else if i == 1 then 0x45 else if i == 2 then 0x4c else if i == 3 then 0x46
      else if i == 4 then 2 else if i == 5 then 2
      else if i == 47 then 64 else if i == 59 then 64 else if i == 61 then 1 else 0)
  }

  lemma Small32Accepted()
    ensures Accepted(Small32())
  {
    hide Accepted;
    AcceptedWhen(Small32());
  }

  lemma Small64Byte(i: nat)
    requires 5 <= i
    ensures ByteAt(Small64(), i) == if i == 5 then 2 else if i == 47 then 64 else if i == 59 then 64 else if i == 61 then 1 else 0
  {
  }

  lemma Small64Ends()
    ensures Eight(Small64(), 40) == 64 && Two(Small64(), 58) == 64 && Two(Small64(), 60) == 1
  {
    hide ByteAt, Small64;
    forall i: nat | 5 <= i ensures ByteAt(Small64(), i) == if i == 5 then 2 else if i == 47 then 64 else if i == 59 then 64 else if i == 61 then 1 else 0 {
      Small64Byte(i);
    }
  }

  lemma Small64Accepted()
    ensures Accepted(Small64())
  {
    hide Accepted, Eight, Two;
    AcceptedWhen(Small64());
    Small64Ends();
  }

  // ---------- the checksum field, what it sums, and the verdict ----------

  lemma WordSum(b0: bv8, b1: bv8, b2: bv8, b3: bv8)
    ensures Word(b0, b1, b2, b3) ==
      (b0 as bv32) + 0x100 * (b1 as bv32) + 0x1_0000 * (b2 as bv32) + 0x100_0000 * (b3 as bv32)
  {
  }

  /** The number in bytes 9 to 12. */
  function Field(m: seq<bv8>): bv32
    requires |m| >= 13
  {
    if LowFirst(m) then
      (m[9] as bv32) + 0x100 * (m[10] as bv32) + 0x1_0000 * (m[11] as bv32) + 0x100_0000 * (m[12] as bv32)
    else
      0x100_0000 * (m[9] as bv32) + 0x1_0000 * (m[10] as bv32) + 0x100 * (m[11] as bv32) + (m[12] as bv32)
  }

  lemma Swapped(b0: bv8, b1: bv8, b2: bv8, b3: bv8)
    ensures Word(b3, b2, b1, b0) ==
      0x100_0000 * (b0 as bv32) + 0x1_0000 * (b1 as bv32) + 0x100 * (b2 as bv32) + (b3 as bv32)
  {
  }

  /** A file as it is summed: the checksum's bytes zero, and from byte 13 on as many bytes as a 32-bit length holds. */
  ghost predicate Blanked(s: seq<bv8>, m: seq<bv8>) {
    && |m| >= 13 && |s| == 13 + (|m| - 13) % 0x1_0000_0000
    && forall i :: 0 <= i < |s| ==> s[i] == if 9 <= i < 13 then 0 else m[i]
  }

  lemma SealedBlanked(s: seq<bv8>, m: seq<bv8>)
    requires Blanked(s, m)
    ensures Computed(m) == Crc32Of(s)
  {
    hide Crc32Of;
    assert s == Sealed(m);
  }

  lemma StoredIsField(m: seq<bv8>)
    requires |m| >= 13
    ensures Stored(m) == Field(m)
  {
    hide Word, LowFirst, Lsb;
    SameOrder(m);
    WordSum(m[9], m[10], m[11], m[12]);
    Swapped(m[9], m[10], m[11], m[12]);
  }

  /** The verdict on a file: 1 if it is not taken as an ELF file, 0 if the field holds the CRC-32 of the blanked file, and
      otherwise 3 for an empty field and 2 for any other. */
  lemma Verdict(m: seq<bv8>, s: seq<bv8>)
    ensures !Accepted(m) ==> CheckStatus(m) == 1
    ensures Accepted(m) && Blanked(s, m) ==>
      CheckStatus(m) == if Field(m) == Crc32Of(s) then 0 else if Field(m) == 0 then 3 else 2
  {
    hide Accepted, Computed, Stored, Field, Crc32Of, Blanked;
    if Accepted(m) && Blanked(s, m) {
      AcceptedSize(m);
      StoredIsField(m);
      SealedBlanked(s, m);
    }
  }

  /** Write mode puts the CRC-32 of the blanked file into the field, clears byte 15, and leaves every other byte. */
  lemma WritesField(m: seq<bv8>, s: seq<bv8>)
    requires Accepted(m) && Blanked(s, m)
    ensures |m| > 15 && var m' := Written(m);
      && |m'| == |m| && Field(m') == Crc32Of(s) && m'[15] == 0
      && forall i :: 0 <= i < |m| && !(9 <= i < 13) && i != 15 ==> m'[i] == m[i]
  {
    hide Accepted, Computed, Stored, Field, Crc32Of, Blanked, Written;
    AcceptedSize(m);
    StoredIsWritten(m);
    WrittenBytes(m);
    StoredIsField(Written(m));
    SealedBlanked(s, m);
    forall i | 0 <= i < |m| && !(9 <= i < 13) && i != 15 ensures Written(m)[i] == m[i] {
      assert At(Written(m), i) == At(m, i);
    }
  }
}
