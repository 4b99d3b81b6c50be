/** Every change inside 32 consecutive bits of a string, wherever they begin, changes its checksum. */
module CrcBurst {
  import opened Crc
  import opened CrcDetect

  // ---------- bit by bit ----------

  function HalfN(x: bv32, n: nat): bv32 {
    if n == 0 then x else HalfN(Half(x), n - 1)
  }

  predicate BitAt(x: bv32, j: nat) { !Even(HalfN(x, j)) }

  /** Bit i of a string, each byte from its lowest bit on, as the checksum takes them. */
  predicate Bit(s: seq<bv8>, i: nat)
    requires i < 8 * |s|
  {
    BitAt(Byte32(s[i / 8]), i % 8)
  }

  /** Mix in one bit, and step. */
  function Mix(c: bv32, bit: bool): bv32 {
    Step(if bit then Xor(c, 1) else c, POLY_LE)
  }

  function MixWord(c: bv32, x: bv32, n: nat): bv32 {
    if n == 0 then c else Mix(MixWord(c, x, n - 1), BitAt(x, n - 1))
  }

  function MixBits(c: bv32, s: seq<bv8>, n: nat): bv32
    requires n <= 8 * |s|
  {
    if n == 0 then c else Mix(MixBits(c, s, n - 1), Bit(s, n - 1))
  }

  lemma {:induction false} HalfNSnoc(x: bv32, n: nat)
    ensures HalfN(x, n + 1) == Half(HalfN(x, n))
    decreases n
  {
    hide Half;
    if n > 0 { HalfNSnoc(Half(x), n - 1); }
  }

  lemma {:induction false} StepsSnoc(c: bv32, n: nat, poly: bv32)
    ensures Steps(c, n + 1, poly) == Step(Steps(c, n, poly), poly)
    decreases n
  {
    hide Step;
    if n > 0 { StepsSnoc(Step(c, poly), n - 1, poly); }
  }

  lemma OneIsOdd()
    ensures Half(1) == 0 && !Even(1)
  {
  }

  lemma EvenOne(y: bv32)
    ensures Even(Xor(y, 1)) <==> !Even(y)
  {
    hide Xor, Even;
    OneIsOdd();
    EvenXor(y, 1);
  }

  lemma HalfOne(y: bv32)
    ensures Half(Xor(y, 1)) == Half(y)
  {
    hide Xor, Half;
    OneIsOdd();
    HalfXor(y, 1);
    XorZero(Half(y));
  }

  /** A step on a word mixed in at once is a step on its lowest bit, with the rest of the word behind it. */
  lemma StepMixes(m: bv32, y: bv32)
    ensures Step(Xor(m, y), POLY_LE) == Xor(Mix(m, !Even(y)), Half(y))
  {
    hide Xor, Half, Even;
    var y1 := if Even(y) then y else Xor(y, 1);
    var m1 := if Even(y) then m else Xor(m, 1);
    EvenOne(y);
    HalfOne(y);
    XorSwap(y, 1);
    XorAssoc(m, 1, Xor(1, y));
    XorAssoc(1, 1, y);
    XorSelf(1);
    XorSwap(0, y);
    XorZero(y);
    assert Xor(m, y) == Xor(m1, y1);
    StepLinear(m1, y1, POLY_LE);
  }

  lemma {:induction false} StepsMix(c: bv32, x: bv32, n: nat)
    ensures Steps(Xor(c, x), n, POLY_LE) == Xor(MixWord(c, x, n), HalfN(x, n))
    decreases n
  {
    hide Step, Xor, Half, Even, Mix;
    if n > 0 {
      StepsMix(c, x, n - 1);
      StepsSnoc(Xor(c, x), n - 1, POLY_LE);
      HalfNSnoc(x, n - 1);
      StepMixes(MixWord(c, x, n - 1), HalfN(x, n - 1));
    }
  }

  lemma HalfEight(x: bv32)
    ensures HalfN(x, 8) == ShiftByte(x)
  {
    hide Half, ShiftByte;
    Half8Shifts(x);
    HalfFour(x);
    HalfFour(HalfN(x, 4));
    HalfNAdd(x, 4, 4);
  }

  lemma HalfFour(x: bv32)
    ensures HalfN(x, 4) == Half(Half(Half(Half(x))))
  {
    hide Half;
    assert HalfN(Half(x), 3) == HalfN(Half(Half(x)), 2);
    assert HalfN(Half(Half(x)), 2) == HalfN(Half(Half(Half(x))), 1);
  }

  lemma {:induction false} HalfNAdd(x: bv32, m: nat, n: nat)
    ensures HalfN(x, m + n) == HalfN(HalfN(x, m), n)
    decreases m
  {
    hide Half;
    if m > 0 { HalfNAdd(Half(x), m - 1, n); }
  }

  lemma ByteIsShort(b: bv8)
    ensures ShiftByte(Byte32(b)) == 0
  {
  }

  lemma UpdateMixes(c: bv32, b: bv8)
    ensures Update(c, b, POLY_LE) == MixWord(c, Byte32(b), 8)
  {
    hide Xor, Byte32, HalfN, MixWord, Steps, ShiftByte, Update;
    UpdateIsSteps(c, b, POLY_LE);
    StepsMix(c, Byte32(b), 8);
    HalfEight(Byte32(b));
    ByteIsShort(b);
    XorZero(MixWord(c, Byte32(b), 8));
  }

  lemma {:induction false} MixByte(c: bv32, s: seq<bv8>, m: nat, j: nat)
    requires m < |s| && j <= 8
    ensures MixBits(c, s, 8 * m + j) == MixWord(MixBits(c, s, 8 * m), Byte32(s[m]), j)
    decreases j
  {
    hide Mix, BitAt, Byte32;
    if j > 0 {
      MixByte(c, s, m, j - 1);
      assert (8 * m + j - 1) / 8 == m && (8 * m + j - 1) % 8 == j - 1;
    }
  }

  /** The checksum of a string, bit by bit. */
  lemma {:induction false} ChecksumMixes(c: bv32, s: seq<bv8>, m: nat)
    requires m <= |s|
    ensures Checksum(c, s[..m], POLY_LE) == MixBits(c, s, 8 * m)
    decreases m
  {
    hide Update, MixWord, Byte32, Bit, Mix;
    if m > 0 {
      ChecksumMixes(c, s, m - 1);
      assert s[..m] == s[..m - 1] + [s[m - 1]];
      ChecksumSnoc(c, s[..m - 1], s[m - 1], POLY_LE);
      UpdateMixes(Checksum(c, s[..m - 1], POLY_LE), s[m - 1]);
      MixByte(c, s, m - 1, 8);
    }
  }

  // ---------- how long two running values stay apart ----------

  /** Some bit is set among the top one and the m below it. */
  predicate Reaches(d: bv32, m: nat)
    requires m <= 31
  {
    HalfN(d, 31 - m) != 0
  }

  lemma HalfNothing(x: bv32)
    ensures HalfN(x, 0) == x
  {
  }

  lemma HalfOfZero()
    ensures Half(0) == 0
  {
  }

  lemma {:induction false} ZeroStays(n: nat)
    ensures HalfN(0, n) == 0
    decreases n
  {
    hide Half;
    HalfOfZero();
    if n > 0 { ZeroStays(n - 1); }
  }

  lemma TopShifts(x: bv32)
    requires Top(x)
    ensures Half(Half(Half(Half(Half(Half(Half(ShiftByte(ShiftByte(ShiftByte(x)))))))))) != 0
  {
  }

  lemma HalfThree(x: bv32)
    ensures HalfN(x, 3) == Half(Half(Half(x)))
  {
    hide Half;
    assert HalfN(Half(x), 2) == HalfN(Half(Half(x)), 1);
  }

  /** The top bit is still there after up to 31 shifts. */
  lemma TopReaches(x: bv32, m: nat)
    requires Top(x) && m <= 31
    ensures Reaches(x, m)
  {
    hide Half, ShiftByte, Top, HalfN;
    TopShifts(x);
    var y := ShiftByte(ShiftByte(ShiftByte(x)));
    HalfEight(x);
    HalfEight(ShiftByte(x));
    HalfEight(ShiftByte(ShiftByte(x)));
    HalfNAdd(x, 8, 23);
    HalfNAdd(ShiftByte(x), 8, 15);
    HalfNAdd(ShiftByte(ShiftByte(x)), 8, 7);
    HalfFour(y);
    HalfNAdd(y, 4, 3);
    HalfThree(HalfN(y, 4));
    HalfNAdd(x, 31 - m, m);
    ZeroStays(m);
  }

  lemma ReachesSomething(d: bv32, m: nat)
    requires m <= 31 && Reaches(d, m)
    ensures d != 0
  {
    hide HalfN;
    ZeroStays(31 - m);
  }

  lemma MixInjective(a: bv32, b: bv32, bit: bool)
    requires Mix(a, bit) == Mix(b, bit)
    ensures a == b
  {
    hide Step, Xor;
    StepInjective(if bit then Xor(a, 1) else a, if bit then Xor(b, 1) else b);
    if bit { XorRightCancels(a, b, 1); }
  }

  lemma OneSteps()
    ensures Top(Step(1, POLY_LE))
  {
  }

  /** Two equal values that take in different bits differ in the top bit. */
  lemma BitsApart(a: bv32, bit: bool)
    ensures Reaches(Xor(Mix(a, bit), Mix(a, !bit)), 0)
  {
    hide Step, Xor, HalfN, Top;
    var x, y := if bit then Xor(a, 1) else a, if bit then a else Xor(a, 1);
    StepLinear(x, y, POLY_LE);
    OneApart(a);
    OneSteps();
    TopReaches(Step(1, POLY_LE), 0);
  }

  lemma OneApart(a: bv32)
    ensures Xor(Xor(a, 1), a) == 1 && Xor(a, Xor(a, 1)) == 1
  {
    hide Xor;
    XorSwap(a, 1);
    XorAssoc(1, a, a);
    XorSelf(a);
    XorZero(1);
    XorSwap(Xor(a, 1), a);
  }

  lemma HalfReaches(d: bv32, m: nat)
    requires m < 31 && Reaches(d, m)
    ensures Reaches(Half(d), m + 1)
  {
    hide Half;
  }

  /** A step brings a difference down by at most one place, whatever bits are mixed in. */
  lemma StepApart(d: bv32, bit: bool, m: nat)
    requires m < 31 && Reaches(d, m)
    ensures Reaches(Step(if bit then Xor(d, 1) else d, POLY_LE), m + 1)
  {
    hide Xor, Half, HalfN, Even, Top, Reaches;
    var e := if bit then Xor(d, 1) else d;
    HalfOne(d);
    if Even(e) {
      HalfReaches(d, m);
    } else {
      HalfHasNoTop(e);
      PolySetsTop(Half(e));
      TopReaches(Xor(Half(e), POLY_LE), m + 1);
    }
  }

  lemma MixApart(a: bv32, b: bv32, bit: bool, bit': bool, m: nat)
    requires m < 31 && Reaches(Xor(a, b), m)
    ensures Reaches(Xor(Mix(a, bit), Mix(b, bit')), m + 1)
  {
    hide Xor, Step, Reaches;
    var x, y := if bit then Xor(a, 1) else a, if bit' then Xor(b, 1) else b;
    StepLinear(x, y, POLY_LE);
    XorMoves(a, b, 1);
    XorAssoc(a, b, 1);
    XorTwice(a, b, 1);
    assert Xor(x, y) == if bit != bit' then Xor(Xor(a, b), 1) else Xor(a, b);
    StepApart(Xor(a, b), bit != bit', m);
  }

  // ---------- bursts ----------

  /** Equal outside 32 consecutive bits. */
  predicate AgreeOutside(s: seq<bv8>, t: seq<bv8>, k: nat) {
    |s| == |t| && forall i :: 0 <= i < 8 * |s| && (i < k || k + 32 <= i) ==> Bit(s, i) == Bit(t, i)
  }

  /** Two strings of equal length that differ, but only inside 32 consecutive bits. */
  predicate DifferInBurst(s: seq<bv8>, t: seq<bv8>, k: nat) {
    s != t && AgreeOutside(s, t, k)
  }

  lemma HalfLost(y: bv32)
    requires Half(y) == 0 && Even(y)
    ensures y == 0
  {
  }

  /** A word without bits from some place on has nothing there. */
  lemma {:induction false} NoBits(x: bv32, j: nat, n: nat)
    requires j <= n && HalfN(x, n) == 0 && forall i :: j <= i < n ==> !BitAt(x, i)
    ensures HalfN(x, j) == 0
    decreases n - j
  {
    hide Half, Even, HalfN;
    if j < n {
      NoBits(x, j + 1, n);
      HalfNSnoc(x, j);
      assert !BitAt(x, j);
      HalfLost(HalfN(x, j));
    }
  }

  lemma {:induction false} BitsXor(x: bv32, y: bv32, j: nat)
    ensures HalfN(Xor(x, y), j) == Xor(HalfN(x, j), HalfN(y, j))
    decreases j
  {
    hide Half, Xor;
    if j > 0 {
      HalfXor(x, y);
      BitsXor(Half(x), Half(y), j - 1);
    }
  }

  lemma ByteApart(a: bv8, b: bv8)
    requires Xor(Byte32(a), Byte32(b)) == 0
    ensures a == b
  {
  }

  /** Bytes with the same bits are the same. */
  lemma SameByte(a: bv8, b: bv8)
    requires forall j :: 0 <= j < 8 ==> BitAt(Byte32(a), j) == BitAt(Byte32(b), j)
    ensures a == b
  {
    hide Half, Even, Xor, Byte32, HalfN, ShiftByte;
    var x, y := Byte32(a), Byte32(b);
    forall j | 0 <= j < 8 ensures !BitAt(Xor(x, y), j) {
      BitsXor(x, y, j);
      assert BitAt(x, j) == BitAt(y, j);
      EvenXor(HalfN(x, j), HalfN(y, j));
    }
    BitsXor(x, y, 8);
    HalfEight(x);
    HalfEight(y);
    ByteIsShort(a);
    ByteIsShort(b);
    XorZero(0);
    NoBits(Xor(x, y), 0, 8);
    HalfNothing(Xor(x, y));
    ByteApart(a, b);
  }

  /** Strings of equal length that differ have a first bit in which they do. */
  lemma {:induction false} FirstBit(s: seq<bv8>, t: seq<bv8>, n: nat) returns (i: nat)
    requires |s| == |t| && n <= 8 * |s| && s != t
    requires forall j :: 0 <= j < n ==> Bit(s, j) == Bit(t, j)
    ensures i < 8 * |s| && Bit(s, i) != Bit(t, i) && forall j :: 0 <= j < i ==> Bit(s, j) == Bit(t, j)
    decreases 8 * |s| - n
  {
    hide BitAt, Byte32;
    if n == 8 * |s| {
      var m :| 0 <= m < |s| && s[m] != t[m];
      forall j | 0 <= j < 8 ensures BitAt(Byte32(s[m]), j) == BitAt(Byte32(t[m]), j) {
        assert (8 * m + j) / 8 == m && (8 * m + j) % 8 == j;
        assert Bit(s, 8 * m + j) == Bit(t, 8 * m + j);
      }
      SameByte(s[m], t[m]);
    } else if Bit(s, n) != Bit(t, n) {
      i := n;
    } else {
      i := FirstBit(s, t, n + 1);
    }
  }

  /** Behind the first bit in which they differ, two strings keep the running values apart: for 32 bits by the
      place of the difference, and from then on because nothing brings different values together. */
  lemma {:induction false} StayApart(c: bv32, s: seq<bv8>, t: seq<bv8>, i: nat, n: nat)
    requires |s| == |t| && n <= 8 * |s| && i < n
    requires forall j :: 0 <= j < i ==> Bit(s, j) == Bit(t, j)
    requires Bit(s, i) != Bit(t, i)
    requires forall j :: i + 32 <= j < 8 * |s| ==> Bit(s, j) == Bit(t, j)
    ensures n <= i + 32 ==> Reaches(Xor(MixBits(c, s, n), MixBits(c, t, n)), n - i - 1)
    ensures MixBits(c, s, n) != MixBits(c, t, n)
    decreases n
  {
    hide Xor, Mix, Bit, Reaches;
    var a, b := MixBits(c, s, n - 1), MixBits(c, t, n - 1);
    if n == i + 1 {
      SameSoFar(c, s, t, i);
      BitsApart(a, Bit(s, i));
    } else {
      StayApart(c, s, t, i, n - 1);
      if n <= i + 32 { MixApart(a, b, Bit(s, n - 1), Bit(t, n - 1), n - i - 2); }
    }
    if n <= i + 32 {
      ReachesSomething(Xor(MixBits(c, s, n), MixBits(c, t, n)), n - i - 1);
      XorSelf(MixBits(c, s, n));
    } else if MixBits(c, s, n) == MixBits(c, t, n) {
      MixInjective(a, b, Bit(s, n - 1));
    }
  }

  lemma {:induction false} SameSoFar(c: bv32, s: seq<bv8>, t: seq<bv8>, n: nat)
    requires |s| == |t| && n <= 8 * |s| && forall j :: 0 <= j < n ==> Bit(s, j) == Bit(t, j)
    ensures MixBits(c, s, n) == MixBits(c, t, n)
    decreases n
  {
    hide Mix, Bit;
    if n > 0 { SameSoFar(c, s, t, n - 1); }
  }

  /** Any change confined to 32 consecutive bits, which may reach into five bytes, changes the checksum. */
  lemma BurstDetected(c: bv32, s: seq<bv8>, t: seq<bv8>, k: nat)
    requires DifferInBurst(s, t, k)
    ensures Checksum(c, s, POLY_LE) != Checksum(c, t, POLY_LE)
  {
    hide Checksum, Bit, MixBits;
    var i := FirstBit(s, t, 0);
    StayApart(c, s, t, i, 8 * |s|);
    ChecksumMixes(c, s, |s|);
    ChecksumMixes(c, t, |t|);
    assert s[..|s|] == s && t[..|t|] == t;
  }

  /** Two strings of equal length that differ, but only inside four consecutive bytes. */
  predicate DifferInWindow(s: seq<bv8>, t: seq<bv8>, k: nat) {
    |s| == |t| && s != t &&
    forall i :: 0 <= i < |s| && (i < k || k + 4 <= i) ==> s[i] == t[i]
  }

  /** Four consecutive bytes are 32 consecutive bits. */
  lemma WindowIsBurst(s: seq<bv8>, t: seq<bv8>, k: nat)
    requires DifferInWindow(s, t, k)
    ensures DifferInBurst(s, t, 8 * k)
  {
    hide BitAt, Byte32;
  }
}
