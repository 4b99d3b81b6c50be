/** The bytes of both protocols on the wire, said without the functions that compute them. */
module PhoenixdWire {
  import opened Bytes
  import opened Framing
  import opened Phoenixd

  // ---------- the checksum ----------

  /** A message that ends where the length in its bytes 6 and 7 says. */
  predicate Whole(m: seq<byte>) {
    |m| >= 8 && (var low: nat, high: nat := m[6], m[7]; |m| == 8 + low + 256 * high)
  }

  /** The first two bytes of the message as it goes out. */
  function Sent(m: seq<byte>, seqno: nat): nat
    requires Whole(m) && seqno < 0x1_0000
  {
    var r := Prepared(m, seqno);
    var low: nat, high: nat := r[0], r[1];
    low + 256 * high
  }

  function ZeroBytes(n: nat): seq<byte> { seq(n, _ => 0) }

  lemma SumZeros(n: nat)
    ensures Sum(ZeroBytes(n)) == 0
    decreases n
  {
    if n > 0 {
      assert ZeroBytes(n)[..n - 1] == ZeroBytes(n - 1);
      SumZeros(n - 1);
    }
  }

  lemma {:induction false} SumConcat(s: seq<byte>, t: seq<byte>)
    ensures Sum(s + t) == Sum(s) + Sum(t)
    decreases |t|
  {
    if t == [] {
      assert s + t == s;
    } else {
      assert (s + t)[..|s + t| - 1] == s + t[..|t| - 1];
      SumConcat(s, t[..|t| - 1]);
    }
  }

  lemma {:induction false} SumUpdate(s: seq<byte>, k: nat, x: byte)
    requires k < |s|
    ensures Sum(s[k := x]) == Sum(s) - s[k] + x
    decreases |s|
  {
    var n := |s| - 1;
    if k < n {
      assert s[k := x][..n] == s[..n][k := x];
      SumUpdate(s[..n], k, x);
    } else {
      assert s[k := x][..n] == s[..n];
    }
  }

  lemma TwoBytes(v: nat)
    requires v < 0x1_0000
    ensures v / 256 < 256 && v % 256 + 256 * (v / 256) == v
  {
  }

  /** What goes out, by the sum of the bytes behind the checksum word and the number. */
  lemma SentIs(m: seq<byte>, seqno: nat)
    requires Whole(m) && seqno < 0x1_0000
    ensures Sent(m, seqno) == (Sum(m[4..]) + seqno) % 0x1_0000
  {
    hide Sum;
    var numbered := m[..2] + [seqno % 256, seqno / 256] + m[4..];
    TwoBytes(seqno);
    assert numbered[4..] == m[4..] && numbered[2] == seqno % 256 && numbered[3] == seqno / 256;
    assert numbered[4..HDRSZ + Len(numbered)] == m[4..];
    TwoBytes(Csum(numbered));
  }

  lemma AddOne(a: int, d: int)
    ensures (a % 0x1_0000 + d) % 0x1_0000 == (a + d) % 0x1_0000
  {
  }

  /** A message of zero bytes with number 0 goes out with checksum 0. */
  lemma SentZero()
    ensures Whole(ZeroBytes(8)) && Sent(ZeroBytes(8), 0) == 0
  {
    SentIs(ZeroBytes(8), 0);
    assert ZeroBytes(8)[4..] == ZeroBytes(4);
    SumZeros(4);
  }

  /** One more in the number is one more in the checksum. */
  lemma SentNumber(m: seq<byte>, seqno: nat)
    requires Whole(m) && seqno + 1 < 0x1_0000
    ensures Sent(m, seqno + 1) == (Sent(m, seqno) + 1) % 0x1_0000
  {
    hide Sent, Sum;
    SentIs(m, seqno);
    SentIs(m, seqno + 1);
    AddOne(Sum(m[4..]) + seqno, 1);
  }

  /** A type or payload byte that is d more is d more in the checksum. */
  lemma SentByte(m: seq<byte>, seqno: nat, k: nat, d: nat)
    requires Whole(m) && seqno < 0x1_0000 && 4 <= k < |m| && k != 6 && k != 7 && m[k] + d < 256
    ensures var x: nat := m[k] + d; Whole(m[k := x]) && Sent(m[k := x], seqno) == (Sent(m, seqno) + d) % 0x1_0000
  {
    hide Sent, Sum;
    var x: nat := m[k] + d;
    SentIs(m, seqno);
    SentIs(m[k := x], seqno);
    assert m[k := x][4..] == m[4..][k - 4 := x];
    SumUpdate(m[4..], k - 4, x);
    AddOne(Sum(m[4..]) + seqno, d);
  }

  /** So is a length byte, if as many zero bytes more make the message as long as it then says. */
  lemma SentLength(m: seq<byte>, seqno: nat, high: bool, d: nat)
    requires Whole(m) && seqno < 0x1_0000
    requires var k := if high then 7 else 6; m[k] + d < 256
    ensures var k := if high then 7 else 6; var x: nat := m[k] + d; var m' := m[k := x] + ZeroBytes(if high then 256 * d else d);
      Whole(m') && Sent(m', seqno) == (Sent(m, seqno) + d) % 0x1_0000
  {
    hide Sent, Sum;
    var k := if high then 7 else 6;
    var x: nat, zeros := m[k] + d, ZeroBytes(if high then 256 * d else d);
    var m' := m[k := x] + zeros;
    SentIs(m, seqno);
    SentIs(m', seqno);
    assert m'[4..] == m[4..][k - 4 := x] + zeros;
    SumConcat(m[4..][k - 4 := x], zeros);
    SumUpdate(m[4..], k - 4, x);
    SumZeros(|zeros|);
    AddOne(Sum(m[4..]) + seqno, d);
  }

  /** The bytes before offset 4 have no part in it. */
  lemma SentIgnores(m: seq<byte>, m': seq<byte>, seqno: nat)
    requires Whole(m) && Whole(m') && seqno < 0x1_0000 && m[4..] == m'[4..]
    ensures Sent(m, seqno) == Sent(m', seqno)
  {
    hide Sent, Sum;
    SentIs(m, seqno);
    SentIs(m', seqno);
  }

  /** Of the message that goes out, bytes 2 and 3 are the number, the low one first, and the rest is as it was. */
  lemma SentBytes(m: seq<byte>, seqno: nat)
    requires Whole(m) && seqno < 0x1_0000
    ensures var r := Prepared(m, seqno);
      |r| == |m| && r[4..] == m[4..] && r[2] == seqno % 256 && r[3] == seqno / 256
  {
    PreparedChecks(m, seqno);
    TwoBytes(seqno);
  }

  // ---------- stuffing ----------

  /** A message and the two bytes of its length. */
  lemma MessageBytes(m: seq<byte>)
    ensures IsMessage(m) <==> Whole(m) && |m| <= 520
  {
  }

  /** A frame is 7e and then the bytes of the message one after the other, 7e as 7d 5e and 7d as 7d 5d. */
  lemma FrameBytes(m: seq<byte>, x: byte)
    ensures Frame([]) == [0x7e]
    ensures Frame(m + [x]) == Frame(m) + if x == 0x7e then [0x7d, 0x5e] else if x == 0x7d then [0x7d, 0x5d] else [x]
  {
    StuffSnoc(m, x);
    assert [MARK] + (Stuff(m) + Escape(x)) == [MARK] + Stuff(m) + Escape(x);
  }

  /** What the receiver makes of a byte: 5e and 5d behind 7d stand for 7e and 7d, any other byte for itself, escaped or not. */
  lemma UnstuffBytes(s: seq<byte>, c: byte)
    ensures Unstuff(false, []) == ([], false)
    ensures c != 0x7d ==> Unstuff(false, [c] + s) == ([c] + Unstuff(false, s).0, Unstuff(false, s).1)
    ensures Unstuff(false, [0x7d, c] + s) ==
      ([if c == 0x5e then 0x7e else if c == 0x5d then 0x7d else c] + Unstuff(false, s).0, Unstuff(false, s).1)
  {
    assert ([c] + s)[1..] == s;
    assert ([0x7d, c] + s)[1..] == [c] + s;
  }
}
