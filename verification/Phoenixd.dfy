/** Sending and receiving BSP2 messages over a serial line or a TCP connection. */
module Phoenixd {
  import opened Bytes
  import opened Framing

  const ERR_MSG_IO := -48
  const ERR_MSG_ARG := -49
  const ERR_MSG_CLOSED := -50

  /** A byte stream with a peer at its other end. Reading past the last byte fails. */
  class Link {
    const input: seq<byte>
    var pos: nat
    var output: seq<byte>

    ghost predicate Valid()
      reads this
    {
      pos <= |input|
    }

    constructor (input: seq<byte>)
      ensures Valid() && this.input == input && pos == 0 && output == []
    {
      this.input := input;
      pos, output := 0, [];
    }

    function Unread(): seq<byte>
      requires Valid()
      reads this
    {
      input[pos..]
    }

    method Read() returns (ok: bool, c: byte)
      requires Valid()
      modifies this`pos
      ensures Valid()
      ensures ok == (old(Unread()) != [])
      ensures ok ==> c == old(Unread())[0] && Unread() == old(Unread())[1..]
      ensures !ok ==> Unread() == []
    {
      if pos == |input| { return false, 0; }
      c := input[pos];
      pos := pos + 1;
      ok := true;
    }

    method Write(s: seq<byte>)
      modifies this`output
      ensures output == old(output) + s
    {
      output := output + s;
    }
  }

  // ---------- headers ----------

  function Sum(s: seq<byte>): nat {
    if s == [] then 0 else Sum(s[..|s| - 1]) + s[|s| - 1]
  }

  /** The sequence number: the high half of the checksum word. */
  function Seq(m: seq<byte>): nat
    requires |m| >= HDRSZ
  {
    var low: nat, high: nat := m[2], m[3];
    low + 256 * high
  }

  /** The sum of every byte after the checksum word, and of the sequence number, in 16 bits. */
  function Csum(m: seq<byte>): nat
    requires |m| >= HDRSZ && |m| >= HDRSZ + Len(m)
  {
    (Sum(m[4..HDRSZ + Len(m)]) + Seq(m)) % 0x1_0000
  }

  function CsumField(m: seq<byte>): nat
    requires |m| >= HDRSZ
  {
    var low: nat, high: nat := m[0], m[1];
    low + 256 * high
  }

  /** The message with its sequence number and checksum filled in. */
  function Prepared(m: seq<byte>, seqno: nat): (r: seq<byte>)
    requires |m| >= HDRSZ && |m| >= HDRSZ + Len(m) && seqno < 0x1_0000
    ensures |r| == |m| && Len(r) == Len(m)
  {
    var numbered := m[..2] + [seqno % 256, seqno / 256] + m[4..];
    var cs := Csum(numbered);
    [cs % 256, cs / 256] + numbered[2..]
  }

  /** The checksum that goes out is the checksum of what goes out. */
  lemma PreparedChecks(m: seq<byte>, seqno: nat)
    requires |m| >= HDRSZ && |m| >= HDRSZ + Len(m) && seqno < 0x1_0000
    ensures var r := Prepared(m, seqno); CsumField(r) == Csum(r) && Seq(r) == seqno && r[4..] == m[4..]
  {
    var r, n := Prepared(m, seqno), HDRSZ + Len(m);
    var numbered := m[..2] + [seqno % 256, seqno / 256] + m[4..];
    assert numbered[4..] == m[4..];
    assert r[2..] == numbered[2..];
    assert r[4..] == r[2..][2..] == numbered[2..][2..] == numbered[4..];
    assert r[4..n] == r[4..][..n - 4] == numbered[4..][..n - 4] == numbered[4..n];
    assert Seq(r) == Seq(numbered);
  }

  lemma SumSnoc(m: seq<byte>, k: nat, csum: nat)
    requires 4 <= k < |m| && csum == Sum(m[4..k]) % 0x1_0000
    ensures (csum + m[k]) % 0x1_0000 == Sum(m[4..k + 1]) % 0x1_0000
  {
    var s := m[4..k + 1];
    assert s[..|s| - 1] == m[4..k] && s[|s| - 1] == m[k];
    AddMod(Sum(m[4..k]), m[k]);
  }

  lemma AddMod(a: nat, b: nat)
    ensures (a % 0x1_0000 + b) % 0x1_0000 == (a + b) % 0x1_0000
  {
  }

  lemma NothingSummed(m: seq<byte>)
    requires |m| >= 4
    ensures Sum(m[4..4]) == 0
  {
  }

  method MsgCsum(msg: array<byte>) returns (csum: nat)
    requires msg.Length >= HDRSZ && msg.Length >= HDRSZ + Len(msg[..])
    ensures csum == Csum(msg[..])
  {
    hide Sum;
    csum := 0;
    ghost var m := msg[..];
    NothingSummed(m);
    var n := HDRSZ + Len(msg[..]);
    var k := 0;
    while k < n
      invariant k <= n && csum == Sum(m[4..if k < 4 then 4 else k]) % 0x1_0000
    {
      if k >= 4 {
        SumSnoc(m, k, csum);
        csum := (csum + msg[k]) % 0x1_0000;
      }
      k := k + 1;
    }
    AddMod(Sum(m[4..n]), Seq(m));
    csum := (csum + Seq(msg[..])) % 0x1_0000;
  }

  /** Number and sum a message in place. */
  method Prepare(msg: array<byte>, seqno: nat)
    requires msg.Length >= HDRSZ && msg.Length >= HDRSZ + Len(msg[..]) && seqno < 0x1_0000
    modifies msg
    ensures msg[..] == Prepared(old(msg[..]), seqno)
  {
    ghost var m := msg[..];
    msg[2], msg[3] := seqno % 256, seqno / 256;
    assert msg[..] == m[..2] + [seqno % 256, seqno / 256] + m[4..];
    var cs := MsgCsum(msg);
    ghost var numbered := msg[..];
    msg[0], msg[1] := cs % 256, cs / 256;
    assert msg[..] == [cs % 256, cs / 256] + numbered[2..];
  }

  // ---------- sending ----------

  /** Stuff the first n bytes of a message into the buffer, after the mark. */
  method FillFrame(buff: array<byte>, msg: array<byte>, n: nat) returns (i: nat)
    requires msg.Length >= n && HDRSZ <= n && IsMessage(msg[..n]) && buff != msg
    requires buff.Length == 2 * MAXLEN + 2 * HDRSZ
    modifies buff
    ensures i <= buff.Length && buff[..i] == Frame(msg[..n])
  {
    hide IsMessage, Stuff, Escape;
    ghost var m := msg[..n];
    FrameFits(m);
    buff[0] := MARK;
    i := 1;
    var k := 0;
    assert Stuff(m[..0]) == [] by { assert m[..0] == []; EmptyStuffed(); }
    while k < n
      invariant k <= n && msg[..n] == m
      invariant i == 1 + |Stuff(m[..k])| && i <= buff.Length && buff[..i] == [MARK] + Stuff(m[..k])
    {
      StuffSnoc(m[..k], m[k]);
      assert m[..k + 1] == m[..k] + [m[k]];
      RoomLeft(m, k);
      Escapes(m[k]);
      ghost var done := buff[..i];
      if msg[k] == MARK || msg[k] == ESC {
        buff[i] := ESC;
        buff[i + 1] := if msg[k] == MARK then ESCMARK else ESCESC;
        i := i + 2;
      } else {
        buff[i] := msg[k];
        i := i + 1;
      }
      assert buff[..i] == done + Escape(m[k]);
      k := k + 1;
    }
    assert m[..n] == m;
  }

  lemma EmptyStuffed()
    ensures Stuff([]) == []
  {
  }

  lemma Escapes(x: byte)
    ensures Escape(x) == if x == MARK then [ESC, ESCMARK] else if x == ESC then [ESC, ESCESC] else [x]
  {
  }

  /** At every byte there is room for its stuffed form. */
  lemma RoomLeft(m: seq<byte>, k: nat)
    requires k < |m| && |Frame(m)| <= 2 * MAXLEN + 2 * HDRSZ
    ensures 1 + |Stuff(m[..k])| + |Escape(m[k])| <= 2 * MAXLEN + 2 * HDRSZ
  {
    assert m == (m[..k] + [m[k]]) + m[k + 1..];
    StuffConcat(m[..k] + [m[k]], m[k + 1..]);
    StuffSnoc(m[..k], m[k]);
  }

  /** Over a serial line. The header is written before the length is checked, as in the original. */
  method MsgSerialSend(link: Link, msg: array<byte>, seqno: nat) returns (ret: int)
    requires link.Valid() && seqno < 0x1_0000
    requires msg.Length >= HDRSZ && msg.Length >= HDRSZ + Len(msg[..])
    modifies link`output, msg
    ensures msg[..] == Prepared(old(msg[..]), seqno)
    ensures Len(msg[..]) > MAXLEN ==> ret == ERR_MSG_ARG && link.output == old(link.output)
    ensures Len(msg[..]) <= MAXLEN ==>
      && ret == HDRSZ + Len(msg[..]) && IsMessage(msg[..ret])
      && link.output == old(link.output) + Frame(msg[..ret])
  {
    hide Frame;
    Prepare(msg, seqno);
    var len := Len(msg[..]);
    if len > MAXLEN { return ERR_MSG_ARG; }
    var buff := new byte[2 * MAXLEN + 2 * HDRSZ];
    assert Len(msg[..HDRSZ + len]) == len;
    var i := FillFrame(buff, msg, HDRSZ + len);
    link.Write(buff[..i]);
    ret := HDRSZ + len;
  }

  /** Over TCP, where a message of the full 512 bytes is refused as well. */
  method MsgTcpSend(link: Link, msg: array<byte>, seqno: nat) returns (ret: int)
    requires link.Valid() && seqno < 0x1_0000
    requires msg.Length >= HDRSZ && msg.Length >= HDRSZ + Len(msg[..])
    modifies link`output, msg
    ensures msg[..] == Prepared(old(msg[..]), seqno)
    ensures Len(msg[..]) >= MAXLEN ==> ret == ERR_MSG_ARG && link.output == old(link.output)
    ensures Len(msg[..]) < MAXLEN ==>
      && ret == HDRSZ + Len(msg[..]) && IsMessage(msg[..ret])
      && link.output == old(link.output) + Frame(msg[..ret])
  {
    hide Frame;
    Prepare(msg, seqno);
    var len := Len(msg[..]);
    if len >= MAXLEN { return ERR_MSG_ARG; }
    var buff := new byte[2 * MAXLEN + 2 * HDRSZ];
    assert Len(msg[..HDRSZ + len]) == len;
    var i := FillFrame(buff, msg, HDRSZ + len);
    link.Write(buff[..i]);
    ret := HDRSZ + len;
  }

  // ---------- receiving ----------

  /** The loop of both receivers. It stores into the message in place, never past its 520 bytes. */
  method ReceiveLoop(link: Link, msg: array<byte>, frame: bool, atEnd: int) returns (ret: int, frame': bool)
    requires link.Valid() && msg.Length == HDRSZ + MAXLEN && atEnd < 0
    modifies link`pos, msg
    ensures link.Valid()
    ensures match Call(frame, old(link.Unread()))
      case Received(m, rest) =>
        ret == |m| && !frame' && IsMessage(m) && msg[..ret] == m && link.Unread() == rest
      case Broken(f, rest) => ret == ERR_MSG_IO && frame' == f && link.Unread() == rest
      case Exhausted => ret == atEnd && !frame' && link.Unread() == []
  {
    hide CallFrom, IsMessage;
    var l, esc := 0, false;
    frame' := frame;
    ghost var s0 := link.Unread();
    while true
      invariant link.Valid() && l <= HDRSZ + MAXLEN
      invariant RxOk(Rx(frame', esc, msg[..l])) && (!frame' ==> l == 0 && !esc)
      invariant CallFrom(Rx(frame', esc, msg[..l]), link.Unread()) == Call(frame, s0)
      decreases |link.Unread()|
    {
      ghost var rx, s := Rx(frame', esc, msg[..l]), link.Unread();
      CallStep(rx, s);
      var ok, c := link.Read();
      if !ok { return atEnd, false; }
      if frame' {
        if l == HDRSZ + MAXLEN { return ERR_MSG_IO, false; }
        if c == MARK { return ERR_MSG_IO, true; }
        if !esc && c == ESC {
          esc := true;
          continue;
        }
        var d := c;
        if esc {
          if c == ESCMARK { d := MARK; }
          if c == ESCESC { d := ESC; }
          esc := false;
        }
        msg[l] := d;
        l := l + 1;
        assert msg[..l] == rx.buf + [Unescape(rx.esc, c)];
        if l >= HDRSZ && l == Len(msg[..l]) + HDRSZ {
          StoredIsMessage(msg[..l]);
          return l, false;
        }
      } else if c == MARK {
        frame' := true;
      }
    }
  }

  lemma StoredIsMessage(m: seq<byte>)
    requires HDRSZ <= |m| <= HDRSZ + MAXLEN && |m| == Len(m) + HDRSZ
    ensures IsMessage(m)
  {
  }

  lemma CallStep(rx: Rx, s: seq<byte>)
    ensures CallFrom(rx, s) ==
      if s == [] then Exhausted else
      var (rx', out) := Accept(rx, s[0]);
      match out
      case More => CallFrom(rx', s[1..])
      case Done(m) => Received(m, s[1..])
      case Fail => Broken(rx'.frame, s[1..])
  {
    hide Accept;
  }

  method MsgSerialRecv(link: Link, msg: array<byte>, frame: bool) returns (ret: int, frame': bool)
    requires link.Valid() && msg.Length == HDRSZ + MAXLEN
    modifies link`pos, msg
    ensures link.Valid()
    ensures match Call(frame, old(link.Unread()))
      case Received(m, rest) =>
        ret == |m| && !frame' && IsMessage(m) && msg[..ret] == m && link.Unread() == rest
      case Broken(f, rest) => ret == ERR_MSG_IO && frame' == f && link.Unread() == rest
      case Exhausted => ret == ERR_MSG_IO && !frame' && link.Unread() == []
  {
    hide Call;
    ret, frame' := ReceiveLoop(link, msg, frame, ERR_MSG_IO);
  }

  /** A connection closed by the peer has a status of its own. */
  method MsgTcpRecv(link: Link, msg: array<byte>, frame: bool, closed: bool) returns (ret: int, frame': bool)
    requires link.Valid() && msg.Length == HDRSZ + MAXLEN
    modifies link`pos, msg
    ensures link.Valid()
    ensures match Call(frame, old(link.Unread()))
      case Received(m, rest) =>
        ret == |m| && !frame' && IsMessage(m) && msg[..ret] == m && link.Unread() == rest
      case Broken(f, rest) => ret == ERR_MSG_IO && frame' == f && link.Unread() == rest
      case Exhausted => ret == (if closed then ERR_MSG_CLOSED else ERR_MSG_IO) && !frame' && link.Unread() == []
  {
    hide Call;
    ret, frame' := ReceiveLoop(link, msg, frame, if closed then ERR_MSG_CLOSED else ERR_MSG_IO);
  }

  /** Receiving from a stream that holds one frame after some noise. */
  method ReceiveOne(noise: seq<byte>, m: seq<byte>, stream: seq<byte>) returns (got: int, copy: array<byte>)
    requires MARK !in noise && IsMessage(m) && stream == noise + Frame(m)
    ensures got == |m| <= copy.Length && copy[..got] == m
  {
    hide Frame, Call;
    var far := new Link(stream);
    copy := new byte[HDRSZ + MAXLEN];
    assert far.Unread() == noise + Frame(m) + [];
    CallOnFrame(noise, m, []);
    var state;
    got, state := MsgSerialRecv(far, copy, false);
  }

  /** A message's own bytes carry its sequence number and checksum. */
  lemma CutPrepared(m: seq<byte>, seqno: nat, r: seq<byte>, n: nat)
    requires |m| >= HDRSZ && |m| >= HDRSZ + Len(m) && seqno < 0x1_0000
    requires r == Prepared(m, seqno) && n == HDRSZ + Len(r)
    ensures CsumField(r[..n]) == Csum(r[..n]) && Seq(r[..n]) == seqno && r[4..] == m[4..]
  {
    hide Prepared;
    PreparedChecks(m, seqno);
    assert r[..n][4..n] == r[4..n];
  }

  /** What was sent is what arrives, whatever noise without marks comes before it: the same bytes, and
      the same count at both ends. */
  method SendThenReceive(wire: Link, msg: array<byte>, seqno: nat, noise: seq<byte>)
    returns (sent: int, got: int, copy: array<byte>)
    requires wire.Valid() && seqno < 0x1_0000 && MARK !in noise && wire.output == noise
    requires msg.Length >= HDRSZ && msg.Length >= HDRSZ + Len(msg[..]) && Len(msg[..]) <= MAXLEN
    modifies wire`output, msg
    ensures sent == got == HDRSZ + Len(msg[..])
    ensures copy.Length >= got && msg.Length >= got && copy[..got] == msg[..got]
    ensures CsumField(copy[..got]) == Csum(copy[..got]) && Seq(copy[..got]) == seqno
    ensures msg[4..] == old(msg[4..])
  {
    hide Frame, Csum, CsumField, Seq, Prepared, IsMessage;
    ghost var m0 := msg[..];
    PreparedSize(m0, seqno);
    sent := MsgSerialSend(wire, msg, seqno);
    ghost var r := msg[..];
    CutPrepared(m0, seqno, r, sent);
    got, copy := ReceiveOne(noise, msg[..sent], wire.output);
    assert old(msg[4..]) == m0[4..] && msg[4..] == r[4..];
    assert msg[..sent] == r[..sent];
  }

  lemma PreparedSize(m: seq<byte>, seqno: nat)
    requires |m| >= HDRSZ && |m| >= HDRSZ + Len(m) && seqno < 0x1_0000
    ensures |Prepared(m, seqno)| == |m| && Len(Prepared(m, seqno)) == Len(m)
  {
  }
}
