/** No step of the checksum loses information with one of the two polynomials; with the other every four bytes
    can be changed without a trace. */
module CrcDetect {
  import opened Crc

  // ---------- no step loses information ----------

  predicate Top(c: bv32) { c & 0x80000000 != 0 }

  lemma HalfHasNoTop(c: bv32)
    ensures !Top(Half(c))
  {
  }

  lemma PolySetsTop(c: bv32)
    requires !Top(c)
    ensures Top(Xor(c, POLY_LE))
  {
  }

  lemma HalfInjective(a: bv32, b: bv32)
    requires Half(a) == Half(b) && (Even(a) <==> Even(b))
    ensures a == b
  {
  }

  lemma XorRightCancels(a: bv32, b: bv32, x: bv32)
    requires Xor(a, x) == Xor(b, x)
    ensures a == b
  {
  }

  /** The polynomial's top bit records which way a step went. */
  lemma StepInjective(a: bv32, b: bv32)
    requires Step(a, POLY_LE) == Step(b, POLY_LE)
    ensures a == b
  {
    hide Top, Half, Xor, Even;
    HalfHasNoTop(a);
    HalfHasNoTop(b);
    PolySetsTop(Half(a));
    PolySetsTop(Half(b));
    if !Even(a) { XorRightCancels(Half(a), Half(b), POLY_LE); }
    HalfInjective(a, b);
  }

  // ---------- a window of at most four bytes as one word ----------

  function Shl8(x: bv32): bv32 { x << 8 }

  /** The bytes as a little-endian word. */
  function Pack(s: seq<bv8>): bv32
    decreases |s|
  {
    if s == [] then 0 else Xor(Byte32(s[0]), Shl8(Pack(s[1..])))
  }

  function Words8(c: bv32, n: nat, poly: bv32): bv32
    decreases n
  {
    if n == 0 then c else Words8(Step8(c, poly), n - 1, poly)
  }

  lemma PackGrows(b: bv8, x: bv32)
    ensures x == 0 ==> Xor(Byte32(b), Shl8(x)) < 0x100
    ensures x < 0x100 ==> Xor(Byte32(b), Shl8(x)) < 0x1_0000
    ensures x < 0x1_0000 ==> Xor(Byte32(b), Shl8(x)) < 0x100_0000
  {
  }

  lemma PackBound(s: seq<bv8>)
    requires |s| <= 3
    ensures Pack(s) < 0x100_0000
  {
    hide Xor, Byte32, Shl8;
    if s != [] {
      PackGrows(s[0], Pack(s[1..]));
      if |s| > 1 {
        PackGrows(s[1], Pack(s[1..][1..]));
        if |s| > 2 {
          PackGrows(s[2], Pack(s[1..][1..][1..]));
        }
      }
    }
  }

  lemma Shl8HasNoLow(y: bv32)
    ensures Low(Shl8(y)) == 0
  {
  }

  lemma Shl8Back(y: bv32)
    requires y < 0x100_0000
    ensures ShiftByte(Shl8(y)) == y
  {
  }

  /** What is still above the low byte comes down unchanged. */
  lemma Step8Peels(x: bv32, y: bv32, poly: bv32)
    requires y < 0x100_0000
    ensures Step8(Xor(x, Shl8(y)), poly) == Xor(Step8(x, poly), y)
  {
    hide Step8, Xor, Shl8, Low, ShiftByte;
    Step8Linear(x, Shl8(y), poly);
    Shl8HasNoLow(y);
    Step8Shifts(Shl8(y), poly);
    Shl8Back(y);
  }

  /** Up to four bytes may be mixed in at once, before any step. */
  lemma {:induction false} WindowAtOnce(c: bv32, s: seq<bv8>, poly: bv32)
    requires |s| <= 4
    ensures Checksum(c, s, poly) == Words8(Xor(c, Pack(s)), |s|, poly)
    decreases |s|
  {
    hide Step8, Xor, Shl8, Byte32;
    if s == [] {
      XorZero(c);
    } else {
      var y := Pack(s[1..]);
      PackBound(s[1..]);
      WindowAtOnce(Update(c, s[0], poly), s[1..], poly);
      Step8Peels(Xor(c, Byte32(s[0])), y, poly);
      XorAssoc(c, Byte32(s[0]), Shl8(y));
    }
  }

  // ---------- the other polynomial ----------

  /** Four bytes changed by this pattern. */
  function Flip(w: seq<bv8>): (w': seq<bv8>)
    requires |w| == 4
    ensures |w'| == 4
  {
    [w[0] ^ 0x6f, w[1] ^ 0x3b, w[2] ^ 0x82, w[3] ^ 0x09]
  }

  const LOST: bv32 := 0x09823b6f

  lemma LostInOneStep()
    ensures Step(LOST, POLY_BE) == 0 && Step(0, POLY_BE) == 0
  {
  }

  lemma PackFour(b0: bv8, b1: bv8, b2: bv8, b3: bv8)
    ensures Xor(Byte32(b0 ^ 0x6f), Shl8(Xor(Byte32(b1 ^ 0x3b), Shl8(Xor(Byte32(b2 ^ 0x82), Shl8(Xor(Byte32(b3 ^ 0x09), Shl8(0)))))))) ==
            Xor(Xor(Byte32(b0), Shl8(Xor(Byte32(b1), Shl8(Xor(Byte32(b2), Shl8(Xor(Byte32(b3), Shl8(0)))))))), LOST)
  {
  }

  lemma PackOfFour(w: seq<bv8>)
    requires |w| == 4
    ensures Pack(w) == Xor(Byte32(w[0]), Shl8(Xor(Byte32(w[1]), Shl8(Xor(Byte32(w[2]), Shl8(Xor(Byte32(w[3]), Shl8(0))))))))
  {
    hide Xor, Shl8, Byte32;
    assert Pack(w[1..][1..][1..][1..]) == 0;
    assert Pack(w[1..][1..][1..]) == Xor(Byte32(w[3]), Shl8(0));
    assert Pack(w[1..][1..]) == Xor(Byte32(w[2]), Shl8(Pack(w[1..][1..][1..])));
    assert Pack(w[1..]) == Xor(Byte32(w[1]), Shl8(Pack(w[1..][1..])));
  }

  lemma {:induction false} Words8Linear(a: bv32, b: bv32, n: nat, poly: bv32)
    ensures Words8(Xor(a, b), n, poly) == Xor(Words8(a, n, poly), Words8(b, n, poly))
    decreases n
  {
    hide Step8, Xor;
    if n > 0 {
      Step8Linear(a, b, poly);
      Words8Linear(Step8(a, poly), Step8(b, poly), n - 1, poly);
    }
  }

  lemma LostInFourBytes()
    ensures Words8(LOST, 4, POLY_BE) == 0
  {
    hide Step;
    LostInOneStep();
    assert Step8(LOST, POLY_BE) == 0 && Step8(0, POLY_BE) == 0;
    assert Words8(0, 1, POLY_BE) == 0;
    assert Words8(0, 3, POLY_BE) == 0;
  }

  lemma FlipDiffers(x: bv8)
    ensures x ^ 0x6f != x
  {
  }

  /** With the polynomial whose top bit is clear, every four bytes of every string can be changed
      without changing the checksum. */
  lemma BigEndianMisses(c: bv32, p: seq<bv8>, w: seq<bv8>, q: seq<bv8>)
    requires |w| == 4
    ensures Flip(w) != w && Checksum(c, p + w + q, POLY_BE) == Checksum(c, p + Flip(w) + q, POLY_BE)
  {
    hide Checksum, Xor, Words8, Pack, Byte32, Shl8;
    FlipDiffers(w[0]);
    assert Flip(w)[0] != w[0];
    var c0 := Checksum(c, p, POLY_BE);
    ChecksumConcat(c, p, w, POLY_BE);
    ChecksumConcat(c, p, Flip(w), POLY_BE);
    ChecksumConcat(c, p + w, q, POLY_BE);
    ChecksumConcat(c, p + Flip(w), q, POLY_BE);
    WindowAtOnce(c0, w, POLY_BE);
    WindowAtOnce(c0, Flip(w), POLY_BE);
    PackOfFour(w);
    PackOfFour(Flip(w));
    PackFour(w[0], w[1], w[2], w[3]);
    XorAssoc(c0, Pack(w), LOST);
    Words8Linear(Xor(c0, Pack(w)), LOST, 4, POLY_BE);
    LostInFourBytes();
    XorZero(Words8(Xor(c0, Pack(w)), 4, POLY_BE));
  }
}
