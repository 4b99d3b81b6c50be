/** The BSP framing of phoenixd: literal escapes, an end character, and a sum that skips the escaped bytes. */
module Bsp {
  import opened Bytes

  const HDRSZ: nat := 3
  const MSGSZ: nat := 1024
  const FRAMESZ: nat := 2 * MSGSZ + HDRSZ
  const ESCCHAR: byte := 0xaa
  const ENDCHAR: byte := 0xdd

  const ERR_NONE := 0
  const ERR_ARG := -1
  const ERR_SIZE := -3
  const ERR_BSP_FCS := -32

  predicate Special(x: byte) { x == ESCCHAR || x == ENDCHAR }

  /** What a byte adds to the sum: its value as a signed char, or nothing if it is escaped. */
  function Weight(x: byte): int {
    if Special(x) then 0 else if x < 0x80 then x else x - 0x100
  }

  function Weights(s: seq<byte>): int {
    if s == [] then 0 else Weights(s[..|s| - 1]) + Weight(s[|s| - 1])
  }

  /** The 16-bit frame check sequence of a type and a payload. */
  function Fcs(t: byte, s: seq<byte>): (fcs: nat)
    ensures fcs < 0x1_0000
  {
    (t + Weights(s)) % 0x1_0000
  }

  function Escape(x: byte): seq<byte> {
    if Special(x) then [ESCCHAR, x] else [x]
  }

  function Stuff(s: seq<byte>): seq<byte> {
    if s == [] then [] else Stuff(s[..|s| - 1]) + Escape(s[|s| - 1])
  }

  function Specials(s: seq<byte>): (n: nat)
    ensures n <= |s|
  {
    if s == [] then 0 else Specials(s[..|s| - 1]) + if Special(s[|s| - 1]) then 1 else 0
  }

  function Le16(v: nat): seq<byte>
    requires v < 0x1_0000
  {
    [v % 256, v / 256]
  }

  /** A frame with the given check sequence. */
  function FrameWith(t: byte, fcs: nat, s: seq<byte>): seq<byte>
    requires fcs < 0x1_0000
  {
    [t] + Le16(fcs) + Stuff(s) + [ENDCHAR]
  }

  lemma {:induction false} StuffLength(s: seq<byte>)
    ensures |Stuff(s)| == |s| + Specials(s)
  {
    if s != [] { StuffLength(s[..|s| - 1]); }
  }

  /** A payload that the sender accepts overruns its frame buffer in one case only: the longest
      payload, all of it escaped. */
  lemma FrameFits(t: byte, s: seq<byte>)
    requires |s| <= MSGSZ
    ensures |FrameWith(t, Fcs(t, s), s)| == 4 + |s| + Specials(s)
    ensures |FrameWith(t, Fcs(t, s), s)| <= FRAMESZ <==> !(|s| == MSGSZ && Specials(s) == MSGSZ)
  {
    StuffLength(s);
  }

  lemma {:induction false} AllEscaped(n: nat)
    ensures Specials(seq(n, _ => ESCCHAR)) == n
    decreases n
  {
    if n > 0 {
      var s := seq(n, _ => ESCCHAR);
      assert s[..n - 1] == seq(n - 1, _ => ESCCHAR) && s[n - 1] == ESCCHAR;
      AllEscaped(n - 1);
    }
  }

  /** The payload that overruns the sender's buffer, by one byte. */
  lemma FrameOverrun(t: byte)
    ensures var s := seq(MSGSZ, _ => ESCCHAR);
      |FrameWith(t, Fcs(t, s), s)| == FRAMESZ + 1
  {
    AllEscaped(MSGSZ);
    FrameFits(t, seq(MSGSZ, _ => ESCCHAR));
  }

  /** Send a payload: fill the frame byte by byte, the sum going into its header last. */
  method BspSend(t: byte, buffer: seq<byte>) returns (err: int, frame: array<byte>, size: nat)
    requires !(|buffer| == MSGSZ && Specials(buffer) == MSGSZ)
    ensures |buffer| > MSGSZ ==> err == ERR_ARG
    ensures |buffer| <= MSGSZ ==>
      err == ERR_NONE && size <= frame.Length && frame[..size] == FrameWith(t, Fcs(t, buffer), buffer)
  {
    hide Weight, Weights, Stuff, Escape, Special, Specials, Fcs;
    frame := new byte[FRAMESZ](_ => 0);
    size := 0;
    if |buffer| > MSGSZ { return ERR_ARG, frame, 0; }
    frame[0] := t;
    var fcs, i, k: nat := t, HDRSZ, 0;
    Nothing(t);
    assert buffer[..0] == [];
    while k < |buffer|
      invariant k <= |buffer| && frame[0] == t
      invariant fcs == Fcs(t, buffer[..k])
      invariant i == HDRSZ + |Stuff(buffer[..k])| && i < FRAMESZ
      invariant frame[HDRSZ..i] == Stuff(buffer[..k])
    {
      ghost var f := frame[HDRSZ..i];
      OneMore(t, buffer, k);
      RoomLeft(buffer, k);
      if !Special(buffer[k]) {
        fcs := (fcs + Weight(buffer[k])) % 0x1_0000;
      } else {
        frame[i] := ESCCHAR;
        i := i + 1;
      }
      frame[i] := buffer[k];
      i := i + 1;
      assert frame[HDRSZ..i] == f + Escape(buffer[k]);
      k := k + 1;
    }
    assert buffer[..k] == buffer;
    frame[i] := ENDCHAR;
    i := i + 1;
    frame[1], frame[2] := fcs % 256, fcs / 256;
    assert frame[..i] == [t] + Le16(fcs) + frame[HDRSZ..i - 1] + [ENDCHAR];
    return ERR_NONE, frame, i;
  }

  lemma Nothing(t: byte)
    ensures Fcs(t, []) == t && Stuff([]) == []
  {
  }

  /** What one more payload byte does to the sum and to the frame. */
  lemma OneMore(t: byte, s: seq<byte>, k: nat)
    requires k < |s|
    ensures Escape(s[k]) == if Special(s[k]) then [ESCCHAR, s[k]] else [s[k]]
    ensures Fcs(t, s[..k + 1]) == if Special(s[k]) then Fcs(t, s[..k]) else (Fcs(t, s[..k]) + Weight(s[k])) % 0x1_0000
    ensures Stuff(s[..k + 1]) == Stuff(s[..k]) + Escape(s[k])
  {
    hide Weight, Special;
    assert s[..k + 1][..k] == s[..k];
    ModSum(t + Weights(s[..k]), Weight(s[k]));
    SpecialWeighsNothing(s[k]);
  }

  /** Unless every byte is escaped, the frame buffer has room for the next one and for the end. */
  lemma RoomLeft(s: seq<byte>, k: nat)
    requires k < |s| <= MSGSZ && !(|s| == MSGSZ && Specials(s) == MSGSZ)
    ensures HDRSZ + |Stuff(s[..k])| + 2 <= FRAMESZ
    ensures HDRSZ + |Stuff(s[..k + 1])| < FRAMESZ
  {
    StuffLength(s[..k]);
    StuffLength(s[..k + 1]);
    assert s[..k + 1][..k] == s[..k];
    if k + 1 == MSGSZ { assert s[..k + 1] == s; }
  }

  // ---------- receiving ----------

  datatype RecvEnd = Got(t: byte, payload: seq<byte>, rest: seq<byte>) | Error(err: int) | Exhausted

  /** The loop over the payload: the running sum, a pending escape, and what is stored so far. */
  function RecvPayload(t: byte, sfcs: nat, fcs: nat, esc: bool, buf: seq<byte>, s: seq<byte>): RecvEnd
    decreases |s|
  {
    if s == [] then Exhausted
    else if |buf| == MSGSZ then Error(ERR_SIZE)
    else if esc then RecvPayload(t, sfcs, fcs, false, buf + [s[0]], s[1..])
    else if s[0] == ENDCHAR then (if sfcs != fcs then Error(ERR_BSP_FCS) else Got(t, buf, s[1..]))
    else if s[0] == ESCCHAR then RecvPayload(t, sfcs, fcs, true, buf, s[1..])
    else RecvPayload(t, sfcs, (fcs + Weight(s[0])) % 0x1_0000, false, buf + [s[0]], s[1..])
  }

  function Recv(s: seq<byte>): RecvEnd {
    if |s| < 3 then Exhausted
    else
      var low: nat, high: nat := s[1], s[2];
      RecvPayload(s[0], low + 256 * high, s[0], false, [], s[3..])
  }

  /** Receive a payload into a buffer of at least 1024 bytes. A read that fails has a status of its own. */
  method BspRecv(input: seq<byte>, buffer: array<byte>, readErr: int) returns (ret: int, t: byte, used: nat)
    requires readErr < 0
    modifies buffer
    ensures buffer.Length < MSGSZ ==> ret == ERR_ARG
    ensures buffer.Length >= MSGSZ ==> match Recv(input)
      case Got(t', payload, rest) =>
        ret == |payload| <= MSGSZ && t == t' && buffer[..ret] == payload && used <= |input| && input[used..] == rest
      case Error(err) => ret == err
      case Exhausted => ret == readErr
  {
    t, used := 0, 0;
    if buffer.Length < MSGSZ { return ERR_ARG, t, used; }
    if |input| < 3 { return readErr, t, used; }
    t := input[0];
    var low: nat, high: nat := input[1], input[2];
    var sfcs := low + 256 * high;
    var fcs: nat, i: nat, esc := t, 0, false;
    used := 3;
    while true
      invariant 3 <= used <= |input| && i <= MSGSZ
      invariant RecvPayload(t, sfcs, fcs, esc, buffer[..i], input[used..]) == Recv(input)
      decreases |input| - used
    {
      if used == |input| { return readErr, t, used; }
      var c := input[used];
      assert input[used..][1..] == input[used + 1..];
      used := used + 1;
      if i == MSGSZ { return ERR_SIZE, t, used; }
      ghost var b := buffer[..i];
      if esc {
        buffer[i] := c;
        i := i + 1;
        assert buffer[..i] == b + [c];
        esc := false;
      } else if c == ENDCHAR {
        if sfcs != fcs { return ERR_BSP_FCS, t, used; }
        return i, t, used;
      } else if c == ESCCHAR {
        esc := true;
      } else {
        buffer[i] := c;
        i := i + 1;
        assert buffer[..i] == b + [c];
        fcs := (fcs + Weight(c)) % 0x1_0000;
      }
    }
  }

  // ---------- what the receiver makes of a frame ----------

  lemma ModSum(a: int, w: int)
    ensures (a % 0x1_0000 + w) % 0x1_0000 == (a + w) % 0x1_0000
  {
  }

  lemma RecvEscaped(t: byte, sfcs: nat, fcs: nat, buf: seq<byte>, x: byte, rest: seq<byte>)
    requires |buf| < MSGSZ && rest != []
    ensures RecvPayload(t, sfcs, fcs, false, buf, Escape(x) + rest) ==
            RecvPayload(t, sfcs, if Special(x) then fcs else (fcs + Weight(x)) % 0x1_0000, false, buf + [x], rest)
  {
    if Special(x) {
      assert Escape(x) + rest == [ESCCHAR] + ([x] + rest);
      assert ([ESCCHAR] + ([x] + rest))[1..] == [x] + rest && ([x] + rest)[1..] == rest;
      assert RecvPayload(t, sfcs, fcs, true, buf, [x] + rest) == RecvPayload(t, sfcs, fcs, false, buf + [x], rest);
    } else {
      assert ([x] + rest)[1..] == rest;
    }
  }

  lemma {:induction false} RecvStuffed(t: byte, sfcs: nat, s: seq<byte>, rest: seq<byte>)
    requires |s| <= MSGSZ && rest != []
    ensures RecvPayload(t, sfcs, t, false, [], Stuff(s) + rest) == RecvPayload(t, sfcs, Fcs(t, s), false, s, rest)
    decreases |s|
  {
    hide RecvPayload, Escape, Weight;
    if s == [] {
      assert [] + rest == rest;
    } else {
      var n, x := |s| - 1, s[|s| - 1];
      assert Stuff(s) + rest == Stuff(s[..n]) + (Escape(x) + rest);
      RecvStuffed(t, sfcs, s[..n], Escape(x) + rest);
      RecvEscaped(t, sfcs, Fcs(t, s[..n]), s[..n], x, rest);
      ModSum(t + Weights(s[..n]), Weight(x));
      SpecialWeighsNothing(x);
      assert s[..n] + [x] == s;
    }
  }

  lemma SpecialWeighsNothing(x: byte)
    ensures Special(x) ==> Weight(x) == 0
  {
  }

  /** A frame is accepted exactly when its payload is short enough and its check sequence is right;
      a payload of 1024 bytes, which the sender accepts, is always refused. */
  lemma RecvFrame(t: byte, fcs: nat, s: seq<byte>, rest: seq<byte>)
    requires |s| <= MSGSZ && fcs < 0x1_0000
    ensures Recv(FrameWith(t, fcs, s) + rest) ==
      if |s| == MSGSZ then Error(ERR_SIZE)
      else if fcs != Fcs(t, s) then Error(ERR_BSP_FCS)
      else Got(t, s, rest)
  {
    hide Stuff, Fcs;
    var f := FrameWith(t, fcs, s) + rest;
    assert f == [t] + Le16(fcs) + (Stuff(s) + ([ENDCHAR] + rest));
    assert f[3..] == Stuff(s) + ([ENDCHAR] + rest);
    assert f[1] == fcs % 256 && f[2] == fcs / 256;
    RecvStuffed(t, fcs, s, [ENDCHAR] + rest);
    assert ([ENDCHAR] + rest)[1..] == rest;
  }

  /** Changing one payload byte under an unchanged check sequence is detected exactly when the two bytes
      weigh differently: always between ordinary bytes, never between the two escaped ones. */
  lemma OneByteChanged(t: byte, s: seq<byte>, k: nat, x: byte, rest: seq<byte>)
    requires |s| < MSGSZ && k < |s|
    ensures Recv(FrameWith(t, Fcs(t, s), s[k := x]) + rest) == Error(ERR_BSP_FCS) <==> Weight(s[k]) != Weight(x)
    ensures !Special(s[k]) && !Special(x) && s[k] != x ==> Weight(s[k]) != Weight(x)
  {
    RecvFrame(t, Fcs(t, s), s[k := x], rest);
    WeightsUpdate(s, k, x);
    ModApart(t + Weights(s), Weight(x) - Weight(s[k]));
  }

  lemma ModApart(a: int, d: int)
    requires -0x1_0000 < d < 0x1_0000
    ensures a % 0x1_0000 == (a + d) % 0x1_0000 <==> d == 0
  {
  }

  lemma {:induction false} WeightsUpdate(s: seq<byte>, k: nat, x: byte)
    requires k < |s|
    ensures Weights(s[k := x]) == Weights(s) - Weight(s[k]) + Weight(x)
    decreases |s|
  {
    hide Weight;
    var n := |s| - 1;
    if k < n {
      assert s[k := x][..n] == s[..n][k := x];
      WeightsUpdate(s[..n], k, x);
    } else {
      assert s[k := x][..n] == s[..n];
    }
  }

  // ---------- the check sequence and the frame byte by byte ----------

  /** The check sequence starts as the type. Each byte adds its own value, less 256 from 0x80 on, modulo 2 to the 16th;
      the two escaped bytes add nothing. */
  lemma FcsBytes(t: byte, s: seq<byte>, x: byte)
    ensures Fcs(t, []) == t
    ensures Fcs(t, s + [x]) ==
      if x == 0xaa || x == 0xdd then Fcs(t, s)
      else if x < 0x80 then (Fcs(t, s) + x) % 0x1_0000
      else (Fcs(t, s) + 0xff00 + x) % 0x1_0000
  {
    hide Fcs, Weight;
    Nothing(t);
    assert (s + [x])[..|s|] == s && (s + [x])[..|s| + 1] == s + [x];
    OneMore(t, s + [x], |s|);
    WeightIs(x);
    WholeTurn(Fcs(t, s) + x);
  }

  lemma WeightIs(x: byte)
    ensures Weight(x) == if x == 0xaa || x == 0xdd then 0 else if x < 0x80 then x else x - 0x100
  {
  }

  lemma WholeTurn(a: int)
    ensures (a - 0x100) % 0x1_0000 == (a + 0xff00) % 0x1_0000
  {
  }

  /** A frame is the type, the check sequence with its low byte first, the bytes of the payload one after the other, aa and
      dd behind an aa, and dd. */
  lemma FrameBytes(t: byte, fcs: nat, s: seq<byte>, x: byte)
    requires fcs < 0x1_0000
    ensures FrameWith(t, fcs, []) == [t, fcs % 256, fcs / 256, 0xdd]
    ensures var f := FrameWith(t, fcs, s);
      |f| > 0 && FrameWith(t, fcs, s + [x]) == f[..|f| - 1] + (if x == 0xaa || x == 0xdd then [0xaa, x] else [x]) + [0xdd]
  {
    assert (s + [x])[..|s|] == s && (s + [x])[|s|] == x;
    var head := [t] + Le16(fcs);
    assert FrameWith(t, fcs, s)[..|FrameWith(t, fcs, s)| - 1] == head + Stuff(s);
    assert head + (Stuff(s) + Escape(x)) == head + Stuff(s) + Escape(x);
  }
}
