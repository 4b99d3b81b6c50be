/** The reflected CRC-32 of section 8 of RFC 1952, bit by bit and by table. */
module Crc {

  const POLY_LE: bv32 := 0xedb88320

  /** The polynomial's bits in the other order, which mkrofs feeds to the same right-shifting loop. */
  const POLY_BE: bv32 := 0x04c11db7

  // Word operations under names of their own, so that a proof can treat them as black boxes.
  function Xor(a: bv32, b: bv32): bv32 { a ^ b }
  function Half(c: bv32): bv32 { c >> 1 }
  function ShiftByte(c: bv32): bv32 { c >> 8 }
  function Low(x: bv32): bv32 { x & 0xff }
  function High(x: bv32): bv32 { x & 0xffffff00 }
  function Byte32(b: bv8): bv32 { b as bv32 }
  predicate Even(c: bv32) { c & 1 == 0 }

  /** One bit: shift right, and mix in the polynomial if the bit that falls out is set. */
  function Step(c: bv32, poly: bv32): bv32 {
    if Even(c) then Half(c) else Xor(Half(c), poly)
  }

  /** The eight steps of one byte. */
  function Step8(c: bv32, poly: bv32): bv32 {
    Step(Step(Step(Step(Step(Step(Step(Step(c, poly), poly), poly), poly), poly), poly), poly), poly)
  }

  function Update(c: bv32, b: bv8, poly: bv32): bv32 {
    Step8(Xor(c, Byte32(b)), poly)
  }

  /** The running checksum after the bytes of s, from c. */
  function Checksum(c: bv32, s: seq<bv8>, poly: bv32): bv32
    decreases |s|
  {
    if s == [] then c else Checksum(Update(c, s[0], poly), s[1..], poly)
  }

  /** The checksum of a text: from all ones, and complemented. */
  function Crc32Of(s: seq<bv8>): bv32 {
    !Checksum(0xffff_ffff, s, POLY_LE)
  }

  /** A checksum may be computed piece by piece. */
  lemma {:induction false} ChecksumConcat(c: bv32, s: seq<bv8>, t: seq<bv8>, poly: bv32)
    ensures Checksum(c, s + t, poly) == Checksum(Checksum(c, s, poly), t, poly)
    decreases |s|
  {
    hide Update;
    if s == [] {
      assert s + t == t;
    } else {
      assert (s + t)[1..] == s[1..] + t;
      ChecksumConcat(Update(c, s[0], poly), s[1..], t, poly);
    }
  }

  lemma ChecksumSnoc(c: bv32, s: seq<bv8>, b: bv8, poly: bv32)
    ensures Checksum(c, s + [b], poly) == Update(Checksum(c, s, poly), b, poly)
  {
    hide Update;
    ChecksumConcat(c, s, [b], poly);
    assert Checksum(Update(Checksum(c, s, poly), b, poly), [b][1..], poly) == Update(Checksum(c, s, poly), b, poly);
  }

  // ---------- linearity ----------

  lemma HalfXor(a: bv32, b: bv32)
    ensures Half(Xor(a, b)) == Xor(Half(a), Half(b))
  {
  }

  lemma EvenXor(a: bv32, b: bv32)
    ensures Even(Xor(a, b)) <==> (Even(a) <==> Even(b))
  {
  }

  lemma XorSelf(p: bv32)
    ensures Xor(p, p) == 0
  {
  }

  lemma XorSwap(a: bv32, b: bv32)
    ensures Xor(a, b) == Xor(b, a)
  {
  }

  lemma XorAssoc(a: bv32, b: bv32, c: bv32)
    ensures Xor(a, Xor(b, c)) == Xor(Xor(a, b), c)
  {
  }

  lemma XorZero(c: bv32)
    ensures Xor(c, 0) == c
  {
  }

  lemma XorMoves(a: bv32, b: bv32, p: bv32)
    ensures Xor(Xor(a, p), b) == Xor(Xor(a, b), p)
  {
    hide Xor;
    XorAssoc(a, p, b);
    XorAssoc(a, b, p);
    XorSwap(p, b);
  }

  lemma XorTwice(a: bv32, b: bv32, p: bv32)
    ensures Xor(Xor(a, p), Xor(b, p)) == Xor(a, b)
  {
    hide Xor;
    XorAssoc(Xor(a, p), b, p);
    XorMoves(a, b, p);
    XorAssoc(Xor(a, b), p, p);
    XorSelf(p);
    XorZero(Xor(a, b));
  }

  lemma StepLinear(a: bv32, b: bv32, poly: bv32)
    ensures Step(Xor(a, b), poly) == Xor(Step(a, poly), Step(b, poly))
  {
    hide Xor, Half, Even;
    HalfXor(a, b);
    EvenXor(a, b);
    XorTwice(Half(a), Half(b), poly);
    XorMoves(Half(a), Half(b), poly);
    XorAssoc(Half(a), Half(b), poly);
  }

  function Steps(c: bv32, n: nat, poly: bv32): bv32
    decreases n
  {
    if n == 0 then c else Steps(Step(c, poly), n - 1, poly)
  }

  lemma StepsTwo(c: bv32, n: nat, poly: bv32)
    ensures Steps(c, n + 2, poly) == Steps(Step(Step(c, poly), poly), n, poly)
    ensures Steps(c, 0, poly) == c
  {
    hide Step;
    assert Steps(c, n + 2, poly) == Steps(Step(c, poly), n + 1, poly);
  }

  lemma Step8IsSteps(c: bv32, poly: bv32)
    ensures Step8(c, poly) == Steps(c, 8, poly)
  {
    hide Step, Steps;
    var c2 := Step(Step(c, poly), poly);
    var c4 := Step(Step(c2, poly), poly);
    var c6 := Step(Step(c4, poly), poly);
    StepsTwo(c, 6, poly);
    StepsTwo(c2, 4, poly);
    StepsTwo(c4, 2, poly);
    StepsTwo(c6, 0, poly);
    StepsTwo(Step(Step(c6, poly), poly), 0, poly);
  }

  lemma {:induction false} StepsLinear(a: bv32, b: bv32, n: nat, poly: bv32)
    ensures Steps(Xor(a, b), n, poly) == Xor(Steps(a, n, poly), Steps(b, n, poly))
    decreases n
  {
    hide Step, Xor;
    if n > 0 {
      StepLinear(a, b, poly);
      StepsLinear(Step(a, poly), Step(b, poly), n - 1, poly);
    }
  }

  lemma Step8Linear(a: bv32, b: bv32, poly: bv32)
    ensures Step8(Xor(a, b), poly) == Xor(Step8(a, poly), Step8(b, poly))
  {
    hide Step8, Steps, Xor;
    Step8IsSteps(a, poly);
    Step8IsSteps(b, poly);
    Step8IsSteps(Xor(a, b), poly);
    StepsLinear(a, b, 8, poly);
  }

  function Half8(c: bv32): bv32 {
    Half(Half(Half(Half(Half(Half(Half(Half(c))))))))
  }

  lemma Half8Shifts(c: bv32)
    ensures Half8(c) == ShiftByte(c)
  {
  }

  lemma LowByteZero(c: bv32)
    requires Low(c) == 0
    ensures Even(c) && Even(Half(c)) && Even(Half(Half(c))) && Even(Half(Half(Half(c))))
    ensures var d := Half(Half(Half(Half(c)))); Even(d) && Even(Half(d)) && Even(Half(Half(d))) && Even(Half(Half(Half(d))))
  {
  }

  /** A word whose low byte is zero is only shifted. */
  lemma Step8Shifts(c: bv32, poly: bv32)
    requires Low(c) == 0
    ensures Step8(c, poly) == ShiftByte(c)
  {
    hide Half, Even, ShiftByte, Low;
    Half8Shifts(c);
    LowByteZero(c);
  }

  lemma HighHasNoLow(x: bv32)
    ensures Low(High(x)) == 0
  {
  }

  lemma HighAndLow(x: bv32)
    ensures x == Xor(High(x), Low(x))
  {
  }

  lemma HighShifts(x: bv32)
    ensures ShiftByte(High(x)) == ShiftByte(x)
  {
  }

  /** The eight steps act on the low byte and shift the rest. */
  lemma Step8Splits(x: bv32, poly: bv32)
    ensures Step8(x, poly) == Xor(ShiftByte(x), Step8(Low(x), poly))
  {
    hide Step8, High, Low, Xor, ShiftByte;
    HighHasNoLow(x);
    HighAndLow(x);
    HighShifts(x);
    Step8Linear(High(x), Low(x), poly);
    Step8Shifts(High(x), poly);
  }

  // ---------- the bitwise loop ----------

  lemma UpdateIsSteps(c: bv32, b: bv8, poly: bv32)
    ensures Update(c, b, poly) == Steps(Xor(c, Byte32(b)), 8, poly)
  {
    hide Step, Steps, Step8, Xor, Byte32;
    Step8IsSteps(Xor(c, Byte32(b)), poly);
  }

  /** Mix in a byte, then one step a bit. */
  method EightSteps(c: bv32, b: bv8, poly: bv32) returns (crc: bv32)
    ensures crc == Update(c, b, poly)
  {
    hide Step, Update, Xor, Byte32;
    UpdateIsSteps(c, b, poly);
    crc := Xor(c, Byte32(b));
    for i := 0 to 8
      invariant Steps(crc, 8 - i, poly) == Update(c, b, poly)
    {
      crc := Step(crc, poly);
    }
  }

  /** Bit by bit, from `base`, over the len bytes at `from`. */
  method CalcBitwise(buf: array<bv8>, from: nat, len: nat, base: bv32, poly: bv32) returns (crc: bv32)
    requires from + len <= buf.Length
    ensures crc == Checksum(base, buf[from..from + len], poly)
  {
    hide Update;
    crc := base;
    var k := 0;
    while k < len
      invariant k <= len && crc == Checksum(base, buf[from..from + k], poly)
    {
      ChecksumSnoc(base, buf[from..from + k], buf[from + k], poly);
      assert buf[from..from + k + 1] == buf[from..from + k] + [buf[from + k]];
      crc := EightSteps(crc, buf[from + k], poly);
      k := k + 1;
    }
  }
}
