/** Bytes in memory: little-endian words and framed access to parts of a buffer. */
module Bytes {

  type byte = x: int | 0 <= x < 256

  /** A C string: the bytes before the terminating NUL. */
  type cstring = s: seq<byte> | 0 !in s witness []

  /** The C library's strtoul: the value read and the number of bytes it consumed. */
  datatype Parsed = Parsed(value: nat, used: nat)

  function Pow256(w: nat): (p: nat)
    ensures p > 0
  {
    if w == 0 then 1 else 256 * Pow256(w - 1)
  }

  lemma Pow256Values()
    ensures Pow256(1) == 0x100
    ensures Pow256(4) == 0x1_0000_0000
    ensures Pow256(8) == 0x1_0000_0000_0000_0000
  {
    assert Pow256(2) == 0x1_0000;
    assert Pow256(6) == 256 * (256 * Pow256(4));
  }

  function LeValue(s: seq<byte>): nat {
    if s == [] then 0 else s[0] + 256 * LeValue(s[1..])
  }

  /** The w low bytes of v: storing a value in a field of w bytes truncates it. */
  function LeBytes(v: nat, w: nat): (s: seq<byte>)
    ensures |s| == w
  {
    if w == 0 then [] else [v % 256] + LeBytes(v / 256, w - 1)
  }

  lemma {:induction false} DivModMul(v: nat, p: nat)
    requires p > 0
    ensures v % (256 * p) == v % 256 + 256 * ((v / 256) % p)
  {
    var q, r := v / 256, v % 256;
    var q2, r2 := q / p, q % p;
    assert v == 256 * (p * q2 + r2) + r;
    assert v == (256 * p) * q2 + (256 * r2 + r);
    assert 256 * r2 + r < 256 * p;
    ModUnique(v, 256 * p, q2, 256 * r2 + r);
  }

  lemma MulGap(d: nat, q: nat, q': nat)
    requires q > q'
    ensures d * q >= d * q' + d
  {
    assert d * q == d * q' + d * (q - q');
    assert d * (q - q') == d * (q - q' - 1) + d;
  }

  lemma ModUnique(v: nat, d: nat, q: nat, r: nat)
    requires d > 0 && v == d * q + r && r < d
    ensures v % d == r
  {
    var q' := v / d;
    assert v == d * q' + v % d;
    if q > q' {
      MulGap(d, q, q');
    } else if q < q' {
      MulGap(d, q', q);
    }
  }

  lemma {:induction false} LeRoundTrip(v: nat, w: nat)
    ensures LeValue(LeBytes(v, w)) == v % Pow256(w)
  {
    if w > 0 {
      LeRoundTrip(v / 256, w - 1);
      DivModMul(v, Pow256(w - 1));
      assert LeBytes(v, w)[1..] == LeBytes(v / 256, w - 1);
    }
  }

  /** The n bytes of b at offset o. */
  function Slice(b: seq<byte>, o: nat, n: nat): (s: seq<byte>)
    requires o + n <= |b|
  {
    b[o..o + n]
  }

  function Word(b: seq<byte>, o: nat, w: nat): nat
    requires o + w <= |b|
  {
    LeValue(Slice(b, o, w))
  }

  /** What strcmp(name, b + o) == 0 means for a NUL-free name. */
  predicate NameAt(b: seq<byte>, o: nat, name: cstring) {
    o + |name| < |b| && Slice(b, o, |name|) == name && b[o + |name|] == 0
  }

  /** Two buffers agree on every byte outside [lo, hi). */
  ghost predicate SameOutside(b: seq<byte>, b': seq<byte>, lo: nat, hi: nat) {
    |b| == |b'| &&
    forall o: nat, n: nat {:trigger Slice(b', o, n)} | o + n <= |b| && (o + n <= lo || hi <= o) ::
      Slice(b', o, n) == Slice(b, o, n)
  }

  /** memcpy into the buffer. */
  method Store(buff: array<byte>, off: nat, s: seq<byte>)
    requires off + |s| <= buff.Length
    modifies buff
    ensures Slice(buff[..], off, |s|) == s
    ensures SameOutside(old(buff[..]), buff[..], off, off + |s|)
  {
    forall k | 0 <= k < |s| { buff[off + k] := s[k]; }
    ghost var b, b' := old(buff[..]), buff[..];
    forall o: nat, n: nat | o + n <= |b| && (o + n <= off || off + |s| <= o)
      ensures Slice(b', o, n) == Slice(b, o, n)
    {
    }
  }

  method StoreWord(buff: array<byte>, off: nat, w: nat, v: nat)
    requires off + w <= buff.Length
    modifies buff
    ensures Word(buff[..], off, w) == v % Pow256(w)
    ensures SameOutside(old(buff[..]), buff[..], off, off + w)
  {
    Store(buff, off, LeBytes(v, w));
    LeRoundTrip(v, w);
  }
}
