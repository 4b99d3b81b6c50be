/** Sealing an ELF file with its own checksum, kept in the pad bytes of its identification. */
module Metaelf {
  import opened Basics
  import opened Crc
  import opened CrcBurst

  // Positions in the file's identification, and the values the tool looks for there.
  const EI_CLASS := 4
  const EI_DATA := 5
  const SIGNATURE_VALUE := 9
  const SIGNATURE_METHOD := 15
  const ELFCLASS32: bv8 := 1
  const ELFCLASS64: bv8 := 2
  const ELFDATA2LSB: bv8 := 1
  const SIGNATURE_CRC32: bv8 := 0

  /** A byte of the mapped file; the rest of its last page reads as zero. */
  function At(m: seq<bv8>, i: nat): bv8 {
    if i < |m| then m[i] else 0
  }

  predicate Lsb(m: seq<bv8>) { At(m, EI_DATA) == ELFDATA2LSB }

  function Value(b: bv8): nat { b as nat }

  /** The two, four or eight bytes at an offset, in the file's byte order. */
  function Num(m: seq<bv8>, off: nat, n: nat): nat
    decreases n
  {
    if n == 0 then 0
    else if Lsb(m) then Num(m, off, n - 1) + Pow2(8 * (n - 1)) * Value(At(m, off + n - 1))
    else 256 * Num(m, off, n - 1) + Value(At(m, off + n - 1))
  }

  function Pow2(n: nat): nat { if n == 0 then 1 else 2 * Pow2(n - 1) }

  /** A product of two 16-bit numbers as a 32-bit int. */
  function IntProduct(a: nat, b: nat): int {
    var p := a * b % U32;
    if p < 0x8000_0000 then p else p - U32
  }

  /** The size the headers promise: where the section headers start plus the room they take. */
  function ElfSize(m: seq<bv8>): int {
    if At(m, EI_CLASS) == ELFCLASS32 then
      (Num(m, 32, 4) + IntProduct(Num(m, 46, 2), Num(m, 48, 2))) % U32
    else if At(m, EI_CLASS) == ELFCLASS64 then
      var size := (Num(m, 40, 8) + IntProduct(Num(m, 58, 2), Num(m, 60, 2))) % U64;
      if size < U64 / 2 then size else size - U64
    else -1
  }

  predicate Accepted(m: seq<bv8>) {
    && |m| > 0
    && At(m, 0) == 0x7f && At(m, 1) == 0x45 && At(m, 2) == 0x4c && At(m, 3) == 0x46
    && ElfSize(m) == |m|
  }

  // ---------- the checksum of a file ----------

  /** How much of the file is summed: the length passed on is a 32-bit number. */
  function SealedSize(m: seq<bv8>): (n: nat)
    requires |m| >= SIGNATURE_VALUE + 4
    ensures SIGNATURE_VALUE + 4 <= n <= |m|
    ensures |m| < U32 ==> n == |m|
  {
    SIGNATURE_VALUE + 4 + (|m| - (SIGNATURE_VALUE + 4)) % U32
  }

  /** What is summed: the file with the checksum's own bytes read as zero. */
  function Sealed(m: seq<bv8>): (s: seq<bv8>)
    requires |m| >= SIGNATURE_VALUE + 4
    ensures |s| == SealedSize(m)
  {
    m[..SIGNATURE_VALUE] + [0, 0, 0, 0] + m[SIGNATURE_VALUE + 4..SealedSize(m)]
  }

  function Computed(m: seq<bv8>): bv32
    requires |m| >= SIGNATURE_VALUE + 4
  {
    Crc32Of(Sealed(m))
  }

  function Word(b0: bv8, b1: bv8, b2: bv8, b3: bv8): bv32 {
    (b0 as bv32) | ((b1 as bv32) << 8) | ((b2 as bv32) << 16) | ((b3 as bv32) << 24)
  }

  function ByteOf(v: bv32, k: nat): bv8
    requires k < 4
  {
    if k == 0 then (v & 0xff) as bv8
    else if k == 1 then ((v >> 8) & 0xff) as bv8
    else if k == 2 then ((v >> 16) & 0xff) as bv8
    else ((v >> 24) & 0xff) as bv8
  }

  /** The checksum stored in the file, in the file's byte order. */
  function Stored(m: seq<bv8>): bv32
    requires |m| >= SIGNATURE_VALUE + 4
  {
    if Lsb(m) then Word(m[9], m[10], m[11], m[12]) else Word(m[12], m[11], m[10], m[9])
  }

  function Encode(m: seq<bv8>, v: bv32): seq<bv8> {
    if Lsb(m) then [ByteOf(v, 0), ByteOf(v, 1), ByteOf(v, 2), ByteOf(v, 3)]
    else [ByteOf(v, 3), ByteOf(v, 2), ByteOf(v, 1), ByteOf(v, 0)]
  }

  // ---------- the two modes ----------

  lemma EncodeSize(m: seq<bv8>, v: bv32)
    ensures |Encode(m, v)| == 4
  {
    hide ByteOf;
  }

  /** The exit status of check mode: 0 for a correct checksum, 3 for none, 2 for a wrong one, 1 for no
      ELF file. Status 4, for an unknown method byte, is always overwritten by one of these. */
  function CheckStatus(m: seq<bv8>): int {
    if !Accepted(m) || |m| < SIGNATURE_VALUE + 4 then 1
    else if Stored(m) == 0 && Computed(m) != 0 then 3
    else if Stored(m) != Computed(m) then 2
    else 0
  }

  /** The file after write mode. */
  function Written(m: seq<bv8>): seq<bv8>
    requires |m| > SIGNATURE_METHOD
  {
    m[..SIGNATURE_VALUE] + Encode(m, Computed(m)) + m[13..SIGNATURE_METHOD] + [SIGNATURE_CRC32] + m[SIGNATURE_METHOD + 1..]
  }

  /** An accepted file is longer than its identification: a shorter one has no section headers. */
  lemma AcceptedSize(m: seq<bv8>)
    requires Accepted(m)
    ensures |m| > 32
  {
    hide Num;
    if |m| <= 32 {
      NumPastEnd(m, 32, 4);
      NumPastEnd(m, 46, 2);
      NumPastEnd(m, 40, 8);
      NumPastEnd(m, 58, 2);
    }
  }

  lemma {:induction false} NumPastEnd(m: seq<bv8>, off: nat, n: nat)
    requires off >= |m|
    ensures Num(m, off, n) == 0
    decreases n
  {
    if n > 0 { NumPastEnd(m, off, n - 1); }
  }

  lemma {:induction false} NumSame(m: seq<bv8>, m': seq<bv8>, off: nat, n: nat)
    requires Lsb(m) == Lsb(m') && forall i :: off <= i < off + n ==> At(m, i) == At(m', i)
    ensures Num(m, off, n) == Num(m', off, n)
    decreases n
  {
    hide Pow2;
    if n > 0 { NumSame(m, m', off, n - 1); }
  }

  lemma WrittenBytes(m: seq<bv8>)
    requires |m| > SIGNATURE_METHOD
    ensures var m' := Written(m);
      && |m'| == |m| && m'[15] == 0 && m'[9..13] == Encode(m, Computed(m))
      && forall i: nat :: !(9 <= i < 13) && i != 15 ==> At(m', i) == At(m, i)
  {
    hide Computed, ByteOf;
  }

  /** Writing the checksum does not change whether the file is an acceptable ELF file. */
  lemma WrittenAccepted(m: seq<bv8>)
    requires Accepted(m) && |m| > SIGNATURE_METHOD
    ensures Accepted(Written(m)) && Lsb(Written(m)) == Lsb(m)
  {
    hide Written, Num, IntProduct;
    WrittenBytes(m);
    var m' := Written(m);
    NumSame(m, m', 32, 4);
    NumSame(m, m', 46, 2);
    NumSame(m, m', 48, 2);
    NumSame(m, m', 40, 8);
    NumSame(m, m', 58, 2);
    NumSame(m, m', 60, 2);
  }

  lemma WordOfBytes(v: bv32)
    ensures Word(ByteOf(v, 0), ByteOf(v, 1), ByteOf(v, 2), ByteOf(v, 3)) == v
  {
  }

  lemma StoredIsWritten(m: seq<bv8>)
    requires Accepted(m) && |m| > SIGNATURE_METHOD
    ensures |Written(m)| == |m| && Stored(Written(m)) == Computed(m)
  {
    hide Written, Word, ByteOf, Computed, Accepted;
    WrittenBytes(m);
    WrittenAccepted(m);
    var m' := Written(m);
    assert forall k :: 0 <= k < 4 ==> m'[9 + k] == m'[9..13][k];
    WordOfBytes(Computed(m));
  }

  /** What is summed does not depend on the checksum, only on the method byte being cleared. */
  lemma SealedWritten(m: seq<bv8>)
    requires |m| > SIGNATURE_METHOD
    ensures |Written(m)| == |m|
    ensures m[15] == 0 || SealedSize(m) <= 15 ==> Sealed(Written(m)) == Sealed(m)
    ensures m[15] != 0 && SealedSize(m) > 15 ==> DifferInWindow(Sealed(Written(m)), Sealed(m), 15)
  {
    hide Written;
    WrittenBytes(m);
    var m' := Written(m);
    assert |Sealed(m')| == |Sealed(m)|;
    forall i | 0 <= i < |Sealed(m)| && i != 15 ensures Sealed(m')[i] == Sealed(m)[i] {
      assert At(m', i) == At(m, i) || 9 <= i < 13;
    }
    if SealedSize(m) > 15 { assert Sealed(m)[15] == m[15] && Sealed(m')[15] == 0; }
  }

  // ---------- what sealing guarantees ----------

  lemma NotApart(a: bv32, b: bv32)
    requires a != b
    ensures !a != !b
  {
  }

  lemma ComputedApart(m: seq<bv8>, m': seq<bv8>, k: nat)
    requires |m| >= SIGNATURE_VALUE + 4 && |m'| >= SIGNATURE_VALUE + 4
    requires DifferInBurst(Sealed(m), Sealed(m'), k)
    ensures Computed(m) != Computed(m')
  {
    hide Sealed, Checksum, DifferInBurst;
    BurstDetected(0xffff_ffff, Sealed(m), Sealed(m'), k);
    NotApart(Checksum(0xffff_ffff, Sealed(m), POLY_LE), Checksum(0xffff_ffff, Sealed(m'), POLY_LE));
  }

  lemma ComputedSame(m: seq<bv8>, m': seq<bv8>)
    requires |m| >= SIGNATURE_VALUE + 4 && |m'| >= SIGNATURE_VALUE + 4 && Sealed(m) == Sealed(m')
    ensures Computed(m) == Computed(m')
  {
    hide Sealed, Checksum;
  }

  /** One write makes the check succeed exactly when the method byte was already clear (or lies past
      the summed bytes): the checksum is taken before that byte is cleared. */
  lemma WriteThenCheck(m: seq<bv8>)
    requires Accepted(m)
    ensures |m| > SIGNATURE_METHOD
    ensures CheckStatus(Written(m)) == 0 <==> m[15] == 0 || SealedSize(m) <= 15
  {
    hide Written, Sealed, Accepted, Stored, DifferInWindow, DifferInBurst, SealedSize, Computed;
    AcceptedSize(m);
    WrittenAccepted(m);
    StoredIsWritten(m);
    SealedWritten(m);
    if m[15] == 0 || SealedSize(m) <= 15 {
      ComputedSame(Written(m), m);
    } else {
      WindowIsBurst(Sealed(Written(m)), Sealed(m), 15);
      ComputedApart(Written(m), m, 8 * 15);
    }
  }

  /** A second write always suffices, and a third changes nothing. */
  lemma WriteTwiceThenCheck(m: seq<bv8>)
    requires Accepted(m)
    ensures |m| > SIGNATURE_METHOD && |Written(m)| == |m| && |Written(Written(m))| == |m|
    ensures CheckStatus(Written(Written(m))) == 0
    ensures Written(Written(Written(m))) == Written(Written(m))
  {
    hide Written, Accepted, CheckStatus;
    AcceptedSize(m);
    WrittenAccepted(m);
    WrittenBytes(m);
    var m' := Written(m);
    WriteThenCheck(m');
    WrittenAccepted(m');
    WrittenBytes(m');
    WriteAgain(m');
  }

  /** Once the method byte is clear, a second write changes nothing. */
  lemma WriteAgain(m: seq<bv8>)
    requires Accepted(m) && |m| > SIGNATURE_METHOD && m[15] == 0
    ensures |Written(m)| == |m| && Written(Written(m)) == Written(m)
  {
    hide Written, Sealed, Accepted, ByteOf, Computed;
    WrittenAccepted(m);
    WrittenBytes(m);
    SealedWritten(m);
    ComputedSame(Written(m), m);
    var m' := Written(m);
    WrittenBytes(m');
    var m'' := Written(m');
    forall i | 0 <= i < |m| ensures m''[i] == m'[i] {
      if 9 <= i < 13 {
        assert m''[i] == m''[9..13][i - 9] && m'[i] == m'[9..13][i - 9];
      } else if i != 15 {
        assert At(m'', i) == At(m', i);
      }
    }
  }

  lemma SealedApart(m: seq<bv8>, m': seq<bv8>, k: nat)
    requires |m| > SIGNATURE_METHOD && |m'| == |m| && m'[9..13] == m[9..13]
    requires DifferInBurst(m[..SealedSize(m)], m'[..SealedSize(m)], k)
    ensures DifferInBurst(Sealed(m), Sealed(m'), k)
  {
    hide BitAt;
    var n := SealedSize(m);
    var s, s' := m[..n], m'[..n];
    forall i | 0 <= i < n ensures Sealed(m)[i] == (if 9 <= i < 13 then 0 else s[i]) {}
    forall i | 0 <= i < n ensures Sealed(m')[i] == (if 9 <= i < 13 then 0 else s'[i]) {}
    forall i | 9 <= i < 13 ensures s'[i] == s[i] { assert m'[i] == m'[9..13][i - 9]; assert m[i] == m[9..13][i - 9]; }
    var d :| 0 <= d < n && s[d] != s'[d];
    assert Sealed(m)[d] != Sealed(m')[d];
    forall i | 0 <= i < 8 * n && (i < k || k + 32 <= i) ensures Bit(Sealed(m), i) == Bit(Sealed(m'), i) {
      assert Bit(s, i) == Bit(s', i);
    }
  }

  /** Check never passes a file that passed before and has since been altered inside 32 consecutive bits, the
      checksum's own bytes and the byte-order mark left alone. */
  lemma TamperDetected(m: seq<bv8>, m': seq<bv8>, k: nat)
    requires CheckStatus(m) == 0 && |m'| == |m| > SIGNATURE_METHOD
    requires DifferInBurst(m[..SealedSize(m)], m'[..SealedSize(m)], k)
    requires m'[9..13] == m[9..13] && m'[EI_DATA] == m[EI_DATA]
    ensures CheckStatus(m') != 0
  {
    hide Sealed, Accepted, DifferInBurst, SealedSize, Word, Computed;
    SealedApart(m, m', k);
    ComputedApart(m, m', k);
    forall i | 9 <= i < 13 ensures m'[i] == m[i] { assert m'[i] == m'[9..13][i - 9]; assert m[i] == m[9..13][i - 9]; }
  }

  // ---------- a method byte that is not known ----------

  /** The file with its checksum in place, and its method byte as it was. */
  function Signed(m: seq<bv8>): seq<bv8>
    requires |m| > SIGNATURE_METHOD
  {
    m[..SIGNATURE_VALUE] + Encode(m, Computed(m)) + m[13..]
  }

  lemma SignedBytes(m: seq<bv8>)
    requires |m| > SIGNATURE_METHOD
    ensures var m' := Signed(m);
      && |m'| == |m| && m'[9..13] == Encode(m, Computed(m))
      && forall i: nat :: !(9 <= i < 13) ==> At(m', i) == At(m, i)
  {
    hide Computed, ByteOf;
  }

  lemma SignedSealed(m: seq<bv8>)
    requires |m| > SIGNATURE_METHOD
    ensures |Signed(m)| == |m| && Sealed(Signed(m)) == Sealed(m)
  {
    hide Signed;
    SignedBytes(m);
    var m' := Signed(m);
    forall i | 0 <= i < |Sealed(m)| ensures Sealed(m')[i] == Sealed(m)[i] {
      assert At(m', i) == At(m, i) || 9 <= i < 13;
    }
  }

  lemma SignedAccepted(m: seq<bv8>)
    requires Accepted(m) && |m| > SIGNATURE_METHOD
    ensures Accepted(Signed(m)) && Lsb(Signed(m)) == Lsb(m)
  {
    hide Signed, Num, IntProduct;
    SignedBytes(m);
    var m' := Signed(m);
    NumSame(m, m', 32, 4);
    NumSame(m, m', 46, 2);
    NumSame(m, m', 48, 2);
    NumSame(m, m', 40, 8);
    NumSame(m, m', 58, 2);
    NumSame(m, m', 60, 2);
  }

  /** An unknown method byte is never reported: with the right checksum in place the check passes, whatever that
      byte is, and keeps it. */
  lemma UnknownMethodPasses(m: seq<bv8>)
    requires Accepted(m)
    ensures |m| > SIGNATURE_METHOD
    ensures CheckStatus(Signed(m)) == 0 && |Signed(m)| == |m| && Signed(m)[SIGNATURE_METHOD] == m[SIGNATURE_METHOD]
  {
    hide Signed, Sealed, Accepted, Word, ByteOf, Computed;
    AcceptedSize(m);
    SignedAccepted(m);
    SignedBytes(m);
    SignedSealed(m);
    ComputedSame(Signed(m), m);
    var m' := Signed(m);
    assert forall k :: 0 <= k < 4 ==> m'[9 + k] == m'[9..13][k];
    WordOfBytes(Computed(m));
    assert At(m', 15) == At(m, 15);
  }

  // ---------- a file that one write does not seal ----------

  /** A 52-byte 32-bit file with its section headers, of which there are none, at its end, and byte 15 set. */
  function UnclearedByte(i: nat): bv8 {
    if i == 0 then 0x7f else if i == 1 then 0x45 else if i == 2 then 0x4c else if i == 3 then 0x46
    else if i == EI_CLASS then ELFCLASS32 else if i == EI_DATA then ELFDATA2LSB
    else if i == SIGNATURE_METHOD then 7 else if i == 32 then 52 else 0
  }

  function Uncleared(): seq<bv8> {
    seq(52, i requires 0 <= i < 52 => UnclearedByte(i))
  }

  lemma OneWriteFails()
    ensures Accepted(Uncleared()) && |Uncleared()| == 52 && CheckStatus(Written(Uncleared())) != 0
  {
    UnclearedAccepted();
    hide Accepted, CheckStatus, Written, Sealed, Computed;
    WriteThenCheck(Uncleared());
  }

  lemma UnclearedNumber(off: nat)
    requires 33 <= off < 50
    ensures Num(Uncleared(), off, 1) == Num(Uncleared(), off, 2) == 0
  {
    hide Pow2, Value;
    ByteZero();
    assert Num(Uncleared(), off, 1) == 0;
  }

  lemma ByteZero()
    ensures Value(0) == 0 && Value(52) == 52
  {
  }

  lemma UnclearedHeaders()
    ensures Num(Uncleared(), 32, 4) == 52
  {
    hide Pow2, Value;
    var m := Uncleared();
    ByteZero();
    Pow2Zero();
    assert Num(m, 32, 1) == 52;
    assert Num(m, 32, 2) == 52;
    assert Num(m, 32, 3) == 52;
  }

  lemma UnclearedAccepted()
    ensures Accepted(Uncleared())
  {
    hide Num;
    var m := Uncleared();
    UnclearedHeaders();
    UnclearedNumber(46);
    UnclearedNumber(48);
    assert ElfSize(m) == (52 + IntProduct(0, 0)) % U32;
  }

  lemma Pow2Zero()
    ensures Pow2(0) == 1
  {
  }

  // ---------- the tool ----------

  datatype Mode = CheckCrc | WriteCrc

  /** The mapped file. */
  class File {
    const mem: array<bv8>

    constructor (mem: array<bv8>)
      ensures this.mem == mem
    {
      this.mem := mem;
    }

    /** The checksum over three ranges, one after the other. */
    method CalcCrc32() returns (crc: bv32)
      requires mem.Length >= SIGNATURE_VALUE + 4
      ensures crc == Computed(mem[..])
    {
      hide Checksum;
      var ofs, sz := SIGNATURE_VALUE, mem.Length;
      var zero := new bv8[4](_ => 0);
      ghost var m := mem[..];
      var first := CalcBitwise(mem, 0, ofs, 0xffff_ffff, POLY_LE);
      var second := CalcBitwise(zero, 0, 4, first, POLY_LE);
      crc := CalcBitwise(mem, ofs + 4, (sz - (ofs + 4)) % U32, second, POLY_LE);
      assert mem[0..ofs] == m[..ofs] && zero[0..4] == [0, 0, 0, 0];
      assert mem[ofs + 4..ofs + 4 + (sz - (ofs + 4)) % U32] == m[ofs + 4..SealedSize(m)];
      ChecksumConcat(0xffff_ffff, m[..ofs], [0, 0, 0, 0], POLY_LE);
      ChecksumConcat(0xffff_ffff, m[..ofs] + [0, 0, 0, 0], m[ofs + 4..SealedSize(m)], POLY_LE);
      crc := !crc;
    }

    /** Check mode, on an acceptable file. */
    method Check(crcIn: bv32, crcOut: bv32) returns (ret: int)
      requires Accepted(mem[..]) && mem.Length > SIGNATURE_METHOD
      requires crcIn == Stored(mem[..]) && crcOut == Computed(mem[..])
      ensures ret == CheckStatus(mem[..])
    {
      hide Accepted, Computed, Stored;
      if mem[SIGNATURE_METHOD] != SIGNATURE_CRC32 { ret := 4; }
      if crcIn == 0 && crcOut != 0 {
        ret := 3;
      } else if crcIn != crcOut {
        ret := 2;
      } else {
        ret := 0;
      }
    }

    /** Write mode: store the checksum, then clear the method byte. */
    method Write(crcOut: bv32)
      requires mem.Length > SIGNATURE_METHOD && crcOut == Computed(mem[..])
      modifies mem
      ensures mem[..] == Written(old(mem[..]))
    {
      hide Computed, Encode;
      ghost var m := mem[..];
      EncodeSize(mem[..], crcOut);
      var bytes := Encode(mem[..], crcOut);
      mem[9], mem[10], mem[11], mem[12] := bytes[0], bytes[1], bytes[2], bytes[3];
      mem[SIGNATURE_METHOD] := SIGNATURE_CRC32;
      assert mem[..] == m[..9] + bytes + m[13..15] + [SIGNATURE_CRC32] + m[16..];
    }

    /** One run of the tool on the file: its exit status, and the file it leaves. */
    method Run(mode: Mode) returns (ret: int)
      modifies mem
      ensures mode.CheckCrc? ==> ret == CheckStatus(old(mem[..])) && mem[..] == old(mem[..])
      ensures mode.WriteCrc? && !Accepted(old(mem[..])) ==> ret == 1 && mem[..] == old(mem[..])
      ensures mode.WriteCrc? && Accepted(old(mem[..])) ==>
        ret == 0 && |old(mem[..])| > SIGNATURE_METHOD && mem[..] == Written(old(mem[..]))
    {
      hide Accepted, Computed, Stored, Written, Encode, ByteOf;
      ret := 1;
      if !Accepted(mem[..]) { return; }
      AcceptedSize(mem[..]);
      var crcIn := Stored(mem[..]);
      var crcOut := CalcCrc32();
      if mode.CheckCrc? {
        ret := Check(crcIn, crcOut);
      } else {
        Write(crcOut);
        ret := 0;
      }
    }
  }
}
