/** The BSP2 framing of phoenixd: byte stuffing, and the receiver as a machine over single bytes. */
module Framing {
  import opened Bytes

  // Byte values of section 4.2 of RFC 1662.
  const MARK: byte := 0x7e
  const ESC: byte := 0x7d
  const ESCMARK: byte := 0x5e
  const ESCESC: byte := 0x5d

  const HDRSZ: nat := 8
  const MAXLEN: nat := 512

  /** The length field: the high half of the little-endian type word. */
  function Len(m: seq<byte>): nat
    requires |m| >= HDRSZ
  {
    var low: nat, high: nat := m[6], m[7];
    low + 256 * high
  }

  /** A header and as many bytes as it announces, within the limit. */
  predicate IsMessage(m: seq<byte>) {
    |m| >= HDRSZ && |m| == HDRSZ + Len(m) && Len(m) <= MAXLEN
  }

  // ---------- the sender's encoding ----------

  function Escape(x: byte): seq<byte> {
    if x == MARK then [ESC, ESCMARK] else if x == ESC then [ESC, ESCESC] else [x]
  }

  function Stuff(s: seq<byte>): seq<byte> {
    if s == [] then [] else Escape(s[0]) + Stuff(s[1..])
  }

  function Frame(m: seq<byte>): seq<byte> {
    [MARK] + Stuff(m)
  }

  lemma {:induction false} StuffConcat(s: seq<byte>, t: seq<byte>)
    ensures Stuff(s + t) == Stuff(s) + Stuff(t)
  {
    if s == [] {
      assert s + t == t;
    } else {
      assert (s + t)[1..] == s[1..] + t;
      StuffConcat(s[1..], t);
    }
  }

  lemma StuffSnoc(s: seq<byte>, x: byte)
    ensures Stuff(s + [x]) == Stuff(s) + Escape(x)
  {
    StuffConcat(s, [x]);
    assert Stuff([x]) == Escape(x) + Stuff([x][1..]);
  }

  lemma {:induction false} StuffLength(s: seq<byte>)
    ensures |s| <= |Stuff(s)| <= 2 * |s|
    ensures MARK !in Stuff(s)
  {
    if s != [] { StuffLength(s[1..]); }
  }

  /** A frame fits the sender's buffer of 2 * 512 + 2 * 8 bytes, although a mark and twice 520 bytes
      would not: the byte that holds the high half of the length is at most 2, and never escaped. */
  lemma FrameFits(m: seq<byte>)
    requires IsMessage(m)
    ensures |Frame(m)| <= 2 * MAXLEN + 2 * HDRSZ
  {
    assert m == m[..7] + ([m[7]] + m[8..]);
    StuffConcat(m[..7], [m[7]] + m[8..]);
    StuffConcat([m[7]], m[8..]);
    assert Stuff([m[7]]) == Escape(m[7]) + Stuff([m[7]][1..]);
    assert m[7] <= 2;
    StuffLength(m[..7]);
    StuffLength(m[8..]);
  }

  // ---------- the receiver ----------

  /** Between two bytes: whether a mark has been seen, whether an escape is pending, what is stored. */
  datatype Rx = Rx(frame: bool, esc: bool, buf: seq<byte>)

  /** What a byte leads to: nothing yet, a complete message, or an error. */
  datatype Out = More | Done(msg: seq<byte>) | Fail

  /** The start of a receive call. */
  function Idle(frame: bool): Rx { Rx(frame, false, []) }

  function Unescape(esc: bool, c: byte): byte {
    if !esc then c else if c == ESCMARK then MARK else if c == ESCESC then ESC else c
  }

  function Accept(rx: Rx, c: byte): (Rx, Out) {
    if !rx.frame then (Idle(c == MARK), More)
    else if |rx.buf| == HDRSZ + MAXLEN then (Idle(false), Fail)
    else if c == MARK then (Idle(true), Fail)
    else if !rx.esc && c == ESC then (rx.(esc := true), More)
    else
      var buf := rx.buf + [Unescape(rx.esc, c)];
      if |buf| >= HDRSZ && |buf| == HDRSZ + Len(buf) then (Idle(false), Done(buf))
      else (Rx(true, false, buf), More)
  }

  /** The end of a receive call, the synchronisation state it leaves, and the unread input. */
  datatype CallEnd = Received(msg: seq<byte>, rest: seq<byte>)
                   | Broken(frame: bool, rest: seq<byte>)
                   | Exhausted

  function CallFrom(rx: Rx, s: seq<byte>): CallEnd
    decreases |s|
  {
    if s == [] then Exhausted
    else
      var (rx', out) := Accept(rx, s[0]);
      match out
      case More => CallFrom(rx', s[1..])
      case Done(m) => Received(m, s[1..])
      case Fail => Broken(rx'.frame, s[1..])
  }

  /** One receive call on the rest of the input. */
  function Call(frame: bool, s: seq<byte>): CallEnd {
    CallFrom(Idle(frame), s)
  }

  /** Receive calls one after the other, for as long as they end before the input does. */
  function Calls(frame: bool, s: seq<byte>): seq<Out>
    decreases |s|
  {
    if s == [] then []
    else
      CallShrinks(Idle(frame), s);
      match Call(frame, s)
      case Received(m, rest) => [Done(m)] + Calls(false, rest)
      case Broken(f, rest) => [Fail] + Calls(f, rest)
      case Exhausted => []
  }

  lemma {:induction false} CallShrinks(rx: Rx, s: seq<byte>)
    ensures CallFrom(rx, s).Received? ==> |CallFrom(rx, s).rest| < |s|
    ensures CallFrom(rx, s).Broken? ==> |CallFrom(rx, s).rest| < |s|
    decreases |s|
  {
    hide Accept;
    if s != [] && Accept(rx, s[0]).1.More? { CallShrinks(Accept(rx, s[0]).0, s[1..]); }
  }

  // ---------- the receiver over a whole stream ----------

  function Put(out: Out, outs: seq<Out>): seq<Out> {
    if out.More? then outs else [out] + outs
  }

  /** Every byte of the stream in turn: the state after it, and what came out. */
  function Feed(rx: Rx, s: seq<byte>): (Rx, seq<Out>)
    decreases |s|
  {
    if s == [] then (rx, [])
    else
      var (rx1, out) := Accept(rx, s[0]);
      var (rx2, outs) := Feed(rx1, s[1..]);
      (rx2, Put(out, outs))
  }

  lemma FeedStep(rx: Rx, s: seq<byte>)
    requires s != []
    ensures var (rx1, out) := Accept(rx, s[0]);
      Feed(rx, s) == (Feed(rx1, s[1..]).0, Put(out, Feed(rx1, s[1..]).1))
  {
    hide Accept;
  }

  lemma PutConcat(out: Out, a: seq<Out>, b: seq<Out>)
    ensures Put(out, a + b) == Put(out, a) + b
  {
    assert [out] + (a + b) == ([out] + a) + b;
  }

  lemma {:induction false} FeedConcat(rx: Rx, s: seq<byte>, t: seq<byte>)
    ensures var (rx1, outs1) := Feed(rx, s);
      var (rx2, outs2) := Feed(rx1, t);
      && Feed(rx, s + t) == (rx2, outs1 + outs2)
      && (outs1 == [] ==> outs1 + outs2 == outs2)
      && (outs2 == [] ==> outs1 + outs2 == outs1)
    decreases |s|
  {
    hide Accept, Put;
    if s == [] {
      assert s + t == t;
      assert [] + Feed(rx, t).1 == Feed(rx, t).1;
    } else {
      hide Feed;
      assert (s + t)[1..] == s[1..] + t;
      var (rx1, out) := Accept(rx, s[0]);
      FeedStep(rx, s);
      FeedStep(rx, s + t);
      FeedConcat(rx1, s[1..], t);
      PutConcat(out, Feed(rx1, s[1..]).1, Feed(Feed(rx1, s[1..]).0, t).1);
    }
  }

  lemma FeedOne(rx: Rx, c: byte)
    ensures Feed(rx, [c]) == (Accept(rx, c).0, if Accept(rx, c).1.More? then [] else [Accept(rx, c).1])
  {
    hide Accept;
    assert Feed(Accept(rx, c).0, [c][1..]) == (Accept(rx, c).0, []);
    assert [Accept(rx, c).1] + [] == [Accept(rx, c).1];
  }

  lemma OutEndsCall(rx: Rx, c: byte)
    ensures var (rx', out) := Accept(rx, c);
      (out.Done? ==> rx' == Idle(false)) && (out.Fail? ==> rx' == Idle(rx'.frame))
  {
  }

  /** A call that ends has fed the machine up to its end and nothing more. */
  lemma {:induction false} CallIsFeed(rx: Rx, s: seq<byte>)
    ensures match CallFrom(rx, s)
      case Received(m, rest) => Feed(rx, s).1 == [Done(m)] + Feed(Idle(false), rest).1
      case Broken(f, rest) => Feed(rx, s).1 == [Fail] + Feed(Idle(f), rest).1
      case Exhausted => Feed(rx, s).1 == []
    decreases |s|
  {
    hide Accept;
    if s != [] {
      OutEndsCall(rx, s[0]);
      var (rx', out) := Accept(rx, s[0]);
      if out.More? { CallIsFeed(rx', s[1..]); }
    }
  }

  /** Calls, however many bytes each takes, see what the byte-by-byte machine puts out. */
  lemma {:induction false} CallsAreFeed(frame: bool, s: seq<byte>)
    ensures Calls(frame, s) == Feed(Idle(frame), s).1
    decreases |s|
  {
    if s != [] {
      CallIsFeed(Idle(frame), s);
      CallShrinks(Idle(frame), s);
      match Call(frame, s)
      case Received(m, rest) => CallsAreFeed(false, rest);
      case Broken(f, rest) => CallsAreFeed(f, rest);
      case Exhausted =>
    }
  }

  // ---------- safety for every input ----------

  ghost predicate RxOk(rx: Rx) {
    |rx.buf| <= HDRSZ + MAXLEN && (|rx.buf| >= HDRSZ ==> |rx.buf| != HDRSZ + Len(rx.buf))
  }

  /** Whatever arrives, storage stays within 520 bytes, and what comes out is a message. */
  lemma {:induction false} FeedSafe(rx: Rx, s: seq<byte>)
    requires RxOk(rx)
    ensures RxOk(Feed(rx, s).0)
    ensures forall k :: 0 <= k < |Feed(rx, s).1| ==>
      Feed(rx, s).1[k].Fail? || (Feed(rx, s).1[k].Done? && IsMessage(Feed(rx, s).1[k].msg))
    decreases |s|
  {
    if s != [] {
      assert RxOk(Accept(rx, s[0]).0);
      FeedSafe(Accept(rx, s[0]).0, s[1..]);
    }
  }

  // ---------- round trip ----------

  /** A receiver that has stored a proper prefix of a message takes in the rest of it. */
  lemma {:induction false} FeedStuffed(m: seq<byte>, k: nat)
    requires IsMessage(m) && k < |m|
    ensures Feed(Rx(true, false, m[..k]), Stuff(m[k..])) == (Idle(false), [Done(m)])
    decreases |m| - k
  {
    hide IsMessage, Accept, Escape;
    var x, rx := m[k], Rx(true, false, m[..k]);
    assert m[k..] == [x] + m[k + 1..] && m[k..][1..] == m[k + 1..];
    assert Stuff(m[k..]) == Escape(x) + Stuff(m[k + 1..]);
    FeedConcat(rx, Escape(x), Stuff(m[k + 1..]));
    FeedEscaped(m, k);
    if k + 1 < |m| {
      FeedStuffed(m, k + 1);
    } else {
      assert m[k + 1..] == [];
    }
  }

  lemma FeedEscaped(m: seq<byte>, k: nat)
    requires IsMessage(m) && k < |m|
    ensures Feed(Rx(true, false, m[..k]), Escape(m[k])) ==
      if k + 1 < |m| then (Rx(true, false, m[..k + 1]), []) else (Idle(false), [Done(m)])
  {
    var x, rx := m[k], Rx(true, false, m[..k]);
    AcceptAtEnd(m, k);
    if x == MARK || x == ESC {
      var e := Escape(x)[1];
      assert Escape(x) == [ESC] + [e];
      FeedConcat(rx, [ESC], [e]);
      FeedOne(rx, ESC);
      assert Accept(rx, ESC) == (rx.(esc := true), More);
      FeedOne(rx.(esc := true), e);
    } else {
      FeedOne(rx, x);
    }
  }

  /** The last byte of a message completes it, and no earlier byte does. */
  lemma AcceptAtEnd(m: seq<byte>, k: nat)
    requires IsMessage(m) && k < |m|
    ensures var rx, end := Rx(true, false, m[..k]), if k + 1 < |m| then (Rx(true, false, m[..k + 1]), More) else (Idle(false), Done(m));
      && (m[k] == MARK ==> Accept(rx.(esc := true), ESCMARK) == end)
      && (m[k] == ESC ==> Accept(rx.(esc := true), ESCESC) == end)
      && (m[k] != MARK && m[k] != ESC ==> Accept(rx, m[k]) == end)
  {
    assert m[..k + 1] == m[..k] + [m[k]];
    if k + 1 == |m| { assert m[..k + 1] == m; }
    if k + 1 >= HDRSZ { assert Len(m[..k + 1]) == Len(m); }
  }

  lemma {:induction false} FeedNoise(noise: seq<byte>)
    requires MARK !in noise
    ensures Feed(Idle(false), noise) == (Idle(false), [])
    decreases |noise|
  {
    if noise != [] {
      assert noise[0] != MARK;
      FeedNoise(noise[1..]);
      assert Accept(Idle(false), noise[0]) == (Idle(false), More);
    }
  }

  /** The stream of a sender: each message in its frame, after some noise without marks. */
  function Stream(noise: seq<seq<byte>>, msgs: seq<seq<byte>>): seq<byte>
    requires |noise| == |msgs|
  {
    if msgs == [] then [] else noise[0] + Frame(msgs[0]) + Stream(noise[1..], msgs[1..])
  }

  lemma FeedFrame(m: seq<byte>)
    requires IsMessage(m)
    ensures Feed(Idle(false), Frame(m)) == (Idle(false), [Done(m)])
  {
    hide Stuff;
    FeedConcat(Idle(false), [MARK], Stuff(m));
    FeedOne(Idle(false), MARK);
    assert m[0..] == m && m[..0] == [];
    FeedStuffed(m, 0);
  }

  function Delivered(msgs: seq<seq<byte>>): seq<Out> {
    seq(|msgs|, k requires 0 <= k < |msgs| => Done(msgs[k]))
  }

  /** Every message sent is received, in order, and nothing else. */
  lemma {:induction false} RoundTrip(noise: seq<seq<byte>>, msgs: seq<seq<byte>>)
    requires |noise| == |msgs|
    requires forall k :: 0 <= k < |msgs| ==> IsMessage(msgs[k]) && MARK !in noise[k]
    ensures Feed(Idle(false), Stream(noise, msgs)) == (Idle(false), Delivered(msgs))
    ensures Calls(false, Stream(noise, msgs)) == Delivered(msgs)
    decreases |msgs|
  {
    hide Frame, Accept, IsMessage, Calls;
    CallsAreFeed(false, Stream(noise, msgs));
    if msgs != [] {
      var rest := Stream(noise[1..], msgs[1..]);
      RoundTrip(noise[1..], msgs[1..]);
      FeedConcat(Idle(false), noise[0] + Frame(msgs[0]), rest);
      FeedConcat(Idle(false), noise[0], Frame(msgs[0]));
      FeedNoise(noise[0]);
      FeedFrame(msgs[0]);
      assert Feed(Idle(false), noise[0] + Frame(msgs[0])) == (Idle(false), [Done(msgs[0])]);
      assert Feed(Idle(false), Stream(noise, msgs)) == (Idle(false), [Done(msgs[0])] + Delivered(msgs[1..]));
      assert [Done(msgs[0])] + Delivered(msgs[1..]) == Delivered(msgs);
    } else {
      assert Delivered(msgs) == [];
    }
  }

  /** Bytes that put nothing out leave a call going. */
  lemma {:induction false} CallQuiet(rx: Rx, s: seq<byte>, t: seq<byte>)
    requires Feed(rx, s).1 == []
    ensures CallFrom(rx, s + t) == CallFrom(Feed(rx, s).0, t)
    decreases |s|
  {
    hide Accept;
    if s == [] {
      assert s + t == t;
    } else {
      assert (s + t)[1..] == s[1..] + t;
      CallQuiet(Accept(rx, s[0]).0, s[1..], t);
    }
  }

  lemma CallLast(m: seq<byte>, rest: seq<byte>)
    requires IsMessage(m)
    ensures CallFrom(Rx(true, false, m[..|m| - 1]), Escape(m[|m| - 1]) + rest) == Received(m, rest)
  {
    var k := |m| - 1;
    var x, rx := m[k], Rx(true, false, m[..k]);
    assert m[..k] + [x] == m;
    if x == MARK || x == ESC {
      var e := Escape(x)[1];
      assert Escape(x) + rest == [ESC] + ([e] + rest);
      assert ([ESC] + ([e] + rest))[1..] == [e] + rest;
      assert Accept(rx, ESC) == (rx.(esc := true), More);
      assert ([e] + rest)[1..] == rest;
      assert Accept(rx.(esc := true), e) == (Idle(false), Done(m));
      assert CallFrom(rx.(esc := true), [e] + rest) == Received(m, rest);
    } else {
      assert Accept(rx, x) == (Idle(false), Done(m));
      assert ([x] + rest)[1..] == rest;
    }
  }

  lemma {:induction false} CallStuffed(m: seq<byte>, k: nat, rest: seq<byte>)
    requires IsMessage(m) && k < |m|
    ensures CallFrom(Rx(true, false, m[..k]), Stuff(m[k..]) + rest) == Received(m, rest)
    decreases |m| - k
  {
    hide IsMessage, Accept, Escape, CallFrom;
    assert m[k..] == [m[k]] + m[k + 1..] && m[k..][1..] == m[k + 1..];
    assert Stuff(m[k..]) + rest == Escape(m[k]) + (Stuff(m[k + 1..]) + rest);
    if k + 1 < |m| {
      FeedEscaped(m, k);
      CallQuiet(Rx(true, false, m[..k]), Escape(m[k]), Stuff(m[k + 1..]) + rest);
      CallStuffed(m, k + 1, rest);
    } else {
      assert m[k + 1..] == [] && Stuff([]) + rest == rest;
      CallLast(m, rest);
    }
  }

  /** One call takes one frame: exactly its bytes, and the message in it. */
  lemma CallOnFrame(noise: seq<byte>, m: seq<byte>, rest: seq<byte>)
    requires MARK !in noise && IsMessage(m)
    ensures Call(false, noise + Frame(m) + rest) == Received(m, rest)
  {
    hide IsMessage, CallFrom, Stuff;
    assert noise + Frame(m) + rest == noise + ([MARK] + (Stuff(m) + rest));
    FeedNoise(noise);
    CallQuiet(Idle(false), noise, [MARK] + (Stuff(m) + rest));
    FeedOne(Idle(false), MARK);
    CallQuiet(Idle(false), [MARK], Stuff(m) + rest);
    assert m[0..] == m && m[..0] == [];
    MessageSize(m);
    CallStuffed(m, 0, rest);
  }

  // ---------- resynchronisation ----------

  /** The receiver holds as many bytes as it can: it no longer looks at what comes next. */
  predicate Full(rx: Rx) {
    rx.frame && |rx.buf| == HDRSZ + MAXLEN
  }

  /** A frame that arrives after anything at all is delivered exactly when the receiver is not full at
      that point. If it is, the frame's mark is swallowed and its message lost; if it is only in the
      middle of another frame, that one is given up first. */
  lemma FrameAfterAnything(g: seq<byte>, frame: bool, m: seq<byte>)
    requires IsMessage(m)
    ensures var (rx, outs) := Feed(Idle(frame), g);
      Feed(Idle(frame), g + Frame(m)) == (Idle(false),
        outs + (if Full(rx) then [Fail] else if rx.frame then [Fail, Done(m)] else [Done(m)]))
  {
    hide Stuff, Feed, IsMessage;
    var (rx, outs) := Feed(Idle(frame), g);
    FeedIdle(frame, g);
    FeedConcat(Idle(frame), g, Frame(m));
    FeedConcat(rx, [MARK], Stuff(m));
    FeedOne(rx, MARK);
    MessageSize(m);
    if Full(rx) {
      assert Accept(rx, MARK) == (Idle(false), Fail);
      StuffLength(m);
      FeedNoise(Stuff(m));
    } else {
      assert Accept(rx, MARK) == (Idle(true), if rx.frame then Fail else More);
      assert m[0..] == m && m[..0] == [];
      FeedStuffed(m, 0);
      assert [Fail] + [Done(m)] == [Fail, Done(m)];
    }
  }

  ghost predicate RxIdle(rx: Rx) { !rx.frame ==> rx == Idle(false) }

  lemma {:induction false} FeedIdle(frame: bool, s: seq<byte>)
    ensures RxIdle(Feed(Idle(frame), s).0)
  {
    FeedKeepsIdle(Idle(frame), s);
  }

  lemma {:induction false} FeedKeepsIdle(rx: Rx, s: seq<byte>)
    requires RxIdle(rx)
    ensures RxIdle(Feed(rx, s).0)
    decreases |s|
  {
    if s != [] { FeedKeepsIdle(Accept(rx, s[0]).0, s[1..]); }
  }

  /** Bytes that announce a length no message has. */
  function Endless(n: nat): seq<byte> { seq(n, _ => 0xff) }

  lemma {:induction false} FeedEndless(n: nat)
    requires n <= HDRSZ + MAXLEN
    ensures Feed(Idle(true), Endless(n)) == (Rx(true, false, Endless(n)), [])
    decreases n
  {
    if n > 0 {
      FeedEndless(n - 1);
      assert Endless(n) == Endless(n - 1) + [0xff];
      FeedConcat(Idle(true), Endless(n - 1), [0xff]);
      var rx := Rx(true, false, Endless(n - 1));
      assert Accept(rx, 0xff) == (Rx(true, false, Endless(n)), More);
      FeedOne(rx, 0xff);
    } else {
      assert Endless(0) == [];
    }
  }

  /** The receiver does get full, and the whole frame behind is then lost. */
  lemma FrameLost(m: seq<byte>)
    requires IsMessage(m)
    ensures Full(Feed(Idle(false), [MARK] + Endless(HDRSZ + MAXLEN)).0)
    ensures Calls(false, [MARK] + Endless(HDRSZ + MAXLEN) + Frame(m)) == [Fail]
  {
    hide Feed, Frame, IsMessage, Calls;
    var g := [MARK] + Endless(HDRSZ + MAXLEN);
    MarkStarts();
    FeedOne(Idle(false), MARK);
    FeedConcat(Idle(false), [MARK], Endless(HDRSZ + MAXLEN));
    FeedEndless(HDRSZ + MAXLEN);
    FrameAfterAnything(g, false, m);
    CallsAreFeed(false, g + Frame(m));
  }

  /** A frame cut short before its end leaves a receiver that is in a frame and not full. */
  lemma {:induction false} CutFrame(m: seq<byte>, k: nat, p: seq<byte>)
    requires IsMessage(m) && k < |m| && p < Stuff(m[k..])
    ensures var (rx, outs) := Feed(Rx(true, false, m[..k]), p);
      outs == [] && rx.frame && |rx.buf| < |m|
    decreases |m| - k
  {
    hide IsMessage, Accept, Escape;
    var x, rx := m[k], Rx(true, false, m[..k]);
    assert m[k..] == [x] + m[k + 1..] && m[k..][1..] == m[k + 1..];
    assert Stuff(m[k..]) == Escape(x) + Stuff(m[k + 1..]);
    if k + 1 == |m| {
      assert m[k + 1..] == [] && Escape(x) + [] == Escape(x);
      CutEscape(m, k, p);
    } else if |p| < |Escape(x)| {
      CutEscape(m, k, p);
    } else {
      var p' := p[|Escape(x)|..];
      assert p == Escape(x) + p';
      FeedConcat(rx, Escape(x), p');
      FeedEscaped(m, k);
      CutFrame(m, k + 1, p');
    }
  }

  lemma CutEscape(m: seq<byte>, k: nat, p: seq<byte>)
    requires IsMessage(m) && k < |m| && p < Escape(m[k])
    ensures var (rx, outs) := Feed(Rx(true, false, m[..k]), p);
      outs == [] && rx.frame && |rx.buf| < |m|
  {
    if p != [] {
      assert p == [ESC];
      FeedOne(Rx(true, false, m[..k]), ESC);
    }
  }

  /** After a frame cut short and then a whole frame, the first call fails and the next delivers the
      second message. */
  lemma CutThenWhole(m0: seq<byte>, p: seq<byte>, m: seq<byte>)
    requires IsMessage(m0) && IsMessage(m) && p < Frame(m0) && p != []
    ensures Calls(false, p + Frame(m)) == [Fail, Done(m)]
  {
    hide Stuff, Feed, Accept, IsMessage, Calls;
    var q := p[1..];
    assert p[0] == Frame(m0)[0] == MARK && p == [MARK] + q;
    assert Frame(m0)[1..] == Stuff(m0) && q < Stuff(m0);
    assert m0[0..] == m0 && m0[..0] == [];
    FeedConcat(Idle(false), [MARK], q);
    FeedOne(Idle(false), MARK);
    MarkStarts();
    MessageSize(m0);
    CutFrame(m0, 0, q);
    FrameAfterAnything(p, false, m);
    CallsAreFeed(false, p + Frame(m));
  }

  lemma MarkStarts()
    ensures Accept(Idle(false), MARK) == (Rx(true, false, []), More)
  {
  }

  lemma MessageSize(m: seq<byte>)
    requires IsMessage(m)
    ensures HDRSZ <= |m| <= HDRSZ + MAXLEN
  {
  }

  // ---------- nothing but framed messages is received ----------

  /** The bytes a stuffed string stands for, and whether it ends in a pending escape. */
  function Unstuff(esc: bool, s: seq<byte>): (seq<byte>, bool)
    decreases |s|
  {
    if s == [] then ([], esc)
    else if !esc && s[0] == ESC then Unstuff(true, s[1..])
    else
      var (r, e) := Unstuff(false, s[1..]);
      ([Unescape(esc, s[0])] + r, e)
  }

  /** What a byte does to a call, in a frame, that will receive a message. */
  lemma ByteOfCall(rx: Rx, s: seq<byte>, m: seq<byte>, rest: seq<byte>)
    requires rx.frame && RxOk(rx) && CallFrom(rx, s) == Received(m, rest)
    ensures s != [] && s[0] != MARK
    ensures var (rx', out) := Accept(rx, s[0]);
      var more := rx.buf + [Unescape(rx.esc, s[0])];
      if out.Done? then (rx.esc || s[0] != ESC) && m == more && rest == s[1..] && IsMessage(m)
      else
        rx'.frame && RxOk(rx') && CallFrom(rx', s[1..]) == Received(m, rest) &&
        rx' == if rx.esc || s[0] != ESC then Rx(true, false, more) else rx.(esc := true)
  {
  }

  lemma {:induction false} BodyOf(rx: Rx, s: seq<byte>, m: seq<byte>, rest: seq<byte>) returns (body: seq<byte>)
    requires rx.frame && RxOk(rx) && CallFrom(rx, s) == Received(m, rest)
    ensures s == body + rest && MARK !in body && IsMessage(m)
    ensures m == rx.buf + Unstuff(rx.esc, body).0 && !Unstuff(rx.esc, body).1
    decreases |s|
  {
    hide Accept, CallFrom, RxOk, IsMessage, Unescape;
    ByteOfCall(rx, s, m, rest);
    var (rx', out) := Accept(rx, s[0]);
    assert s == [s[0]] + s[1..];
    if out.Done? {
      body := [s[0]];
      assert Unstuff(false, [s[0]][1..]) == ([], false);
      assert [Unescape(rx.esc, s[0])] + [] == [Unescape(rx.esc, s[0])];
      assert Unstuff(rx.esc, body) == ([Unescape(rx.esc, s[0])], false);
    } else {
      var tail := BodyOf(rx', s[1..], m, rest);
      body := [s[0]] + tail;
      assert body[1..] == tail;
      if rx.esc || s[0] != ESC {
        assert rx.buf + ([Unescape(rx.esc, s[0])] + Unstuff(false, tail).0) == rx'.buf + Unstuff(false, tail).0;
      }
    }
  }

  /** A message received from a receiver out of frame is what stands, stuffed and without marks,
      between the first mark of the input and where the call stopped. */
  lemma {:induction false} ReceivedIsFramed(s: seq<byte>, m: seq<byte>, rest: seq<byte>)
      returns (noise: seq<byte>, body: seq<byte>)
    requires Call(false, s) == Received(m, rest)
    ensures s == noise + [MARK] + body + rest && MARK !in noise && MARK !in body
    ensures IsMessage(m) && Unstuff(false, body) == (m, false)
    decreases |s|
  {
    assert s == [s[0]] + s[1..];
    if s[0] == MARK {
      noise := [];
      body := BodyOf(Rx(true, false, []), s[1..], m, rest);
      assert [] + Unstuff(false, body).0 == Unstuff(false, body).0;
    } else {
      var n;
      n, body := ReceivedIsFramed(s[1..], m, rest);
      noise := [s[0]] + n;
    }
  }
}
