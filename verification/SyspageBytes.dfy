/** The records of a syspage byte by byte, as the structures of both layouts have them. */
module SyspageBytes {
  import opened Basics
  import opened Bytes
  import opened SyspageSpec
  import opened SyspageImage
  import opened SyspageWords

  function Le8(b: seq<byte>, o: nat): nat
    requires o + 8 <= |b|
  {
    Le4(b, o) + 0x1_0000_0000 * Le4(b, o + 4)
  }

  /** An address of the target that points to offset o of the buffer. */
  function Ptr(c: Config, o: nat): nat { c.pkernel + c.offs + o }

  /** A NUL-terminated text at an offset. */
  predicate TextAt(b: seq<byte>, o: nat, text: cstring) {
    o + |text| < |b| && b[o..o + |text|] == text && b[o + |text|] == 0
  }

  predicate BytesAt(b: seq<byte>, o: nat, s: seq<byte>) {
    o + |s| <= |b| && b[o..o + |s|] == s
  }

  /** Neighbours in a ring of n. */
  function Next(k: nat, n: nat): (r: nat)
    requires k < n
    ensures r < n
  {
    if k == n - 1 then 0 else k + 1
  }

  function Prev(k: nat, n: nat): (r: nat)
    requires k < n
    ensures r < n
  {
    if k == 0 then n - 1 else k - 1
  }

  lemma RingNeighbours(k: nat, n: nat)
    requires k < n
    ensures Next(k, n) == Succ(k, n) && Prev(k, n) == Pred(k, n)
  {
  }

  ghost predicate Header32(c: Config, b: seq<byte>, mapOffs: seq<nat>, progOffs: seq<nat>, s: Syspage) {
    && |b| >= 24
    && Le4(b, 0) == s.imgsz && Le4(b, 4) == s.size && Le4(b, 8) == c.pkernel && Le4(b, 20) == s.console
    && Le4(b, 12) == (if mapOffs == [] then 0 else Ptr(c, mapOffs[0]))
    && Le4(b, 16) == (if progOffs == [] then 0 else Ptr(c, progOffs[0]))
  }

  ghost predicate Header64(c: Config, b: seq<byte>, mapOffs: seq<nat>, progOffs: seq<nat>, s: Syspage) {
    && |b| >= 40
    && Le4(b, 0) == s.imgsz && Le8(b, 4) == s.size && Le8(b, 12) == c.pkernel && Le4(b, 36) == s.console
    && Le8(b, 20) == (if mapOffs == [] then 0 else Ptr(c, mapOffs[0]))
    && Le8(b, 28) == (if progOffs == [] then 0 else Ptr(c, progOffs[0]))
  }

  /** Next, previous, entries, start, end, attributes, id and name of a map, packed. */
  ghost predicate Map32(c: Config, b: seq<byte>, o: nat, next: nat, prev: nat, m: MapEntry) {
    && o + 29 <= |b|
    && Le4(b, o) == Ptr(c, next) && Le4(b, o + 4) == Ptr(c, prev) && Le4(b, o + 8) == 0
    && Le4(b, o + 12) == m.start && Le4(b, o + 16) == m.end && Le4(b, o + 20) == m.attr && b[o + 24] == m.id
    && exists n: nat :: Le4(b, o + 25) == Ptr(c, n) && TextAt(b, n, m.name)
  }

  ghost predicate Map64(c: Config, b: seq<byte>, o: nat, next: nat, prev: nat, m: MapEntry) {
    && o + 53 <= |b|
    && Le8(b, o) == Ptr(c, next) && Le8(b, o + 8) == Ptr(c, prev) && Le8(b, o + 16) == 0
    && Le8(b, o + 24) == m.start && Le8(b, o + 32) == m.end && Le4(b, o + 40) == m.attr && b[o + 44] == m.id
    && exists n: nat :: Le8(b, o + 45) == Ptr(c, n) && TextAt(b, n, m.name)
  }

  /** Next, previous, start, end, argument text, code ids and data ids of a program. */
  ghost predicate Prog32(c: Config, b: seq<byte>, o: nat, next: nat, prev: nat, p: ProgEntry) {
    && o + 36 <= |b|
    && Le4(b, o) == Ptr(c, next) && Le4(b, o + 4) == Ptr(c, prev)
    && Le4(b, o + 8) == p.start && Le4(b, o + 12) == p.end
    && (exists n: nat :: Le4(b, o + 16) == Ptr(c, n) && TextAt(b, n, p.argv))
    && Le4(b, o + 20) == |p.imaps| && (exists n: nat :: Le4(b, o + 24) == Ptr(c, n) && BytesAt(b, n, p.imaps))
    && Le4(b, o + 28) == |p.dmaps| && (exists n: nat :: Le4(b, o + 32) == Ptr(c, n) && BytesAt(b, n, p.dmaps))
  }

  ghost predicate Prog64(c: Config, b: seq<byte>, o: nat, next: nat, prev: nat, p: ProgEntry) {
    && o + 72 <= |b|
    && Le8(b, o) == Ptr(c, next) && Le8(b, o + 8) == Ptr(c, prev)
    && Le8(b, o + 16) == p.start && Le8(b, o + 24) == p.end
    && (exists n: nat :: Le8(b, o + 32) == Ptr(c, n) && TextAt(b, n, p.argv))
    && Le8(b, o + 40) == |p.imaps| && (exists n: nat :: Le8(b, o + 48) == Ptr(c, n) && BytesAt(b, n, p.imaps))
    && Le8(b, o + 56) == |p.dmaps| && (exists n: nat :: Le8(b, o + 64) == Ptr(c, n) && BytesAt(b, n, p.dmaps))
  }

  lemma WordsAt(b: seq<byte>)
    ensures forall o: nat :: o + 4 <= |b| ==> Word(b, o, 4) == Le4(b, o)
    ensures forall o: nat :: o + 8 <= |b| ==> Word(b, o, 8) == Le8(b, o)
    ensures forall o: nat :: o + 1 <= |b| ==> Word(b, o, 1) == b[o]
  {
    hide Word, Le4;
    forall o: nat | o + 4 <= |b| ensures Word(b, o, 4) == Le4(b, o) { Word4(b, o); }
    forall o: nat | o + 8 <= |b| ensures Word(b, o, 8) == Le8(b, o) { Word8(b, o); }
    forall o: nat | o + 1 <= |b| ensures Word(b, o, 1) == b[o] { WordOne(b, o); }
  }

  lemma SliceText(b: seq<byte>, o: nat, text: cstring)
    requires o + |text| + 1 <= |b| && Slice(b, o, |text| + 1) == text + [0]
    ensures TextAt(b, o, text)
  {
    var s := Slice(b, o, |text| + 1);
    assert b[o..o + |text|] == s[..|text|] && b[o + |text|] == s[|text|];
  }

  lemma MapFits(a: Arch, m: MapEntry)
    ensures a.MapSize() <= Align8(a.MapSize()) && Align8(a.MapSize()) + |m.name| + 1 <= MapExtent(a, m)
  {
  }

  lemma MapBytes(c: Config, b: seq<byte>, o: nat, next: nat, prev: nat, m: MapEntry)
    requires MapBody(c, b, o, m) && o + c.arch.MapSize() <= |b|
    requires Word(b, o, c.arch.W()) == Ptr(c, next) && Word(b, o + c.arch.W(), c.arch.W()) == Ptr(c, prev)
    ensures if c.arch.Arch32? then Map32(c, b, o, next, prev, m) else Map64(c, b, o, next, prev, m)
  {
    hide Word, Le4, Le8, Slice, TextAt, Align8, MapExtent;
    WordsAt(b);
    MapFits(c.arch, m);
    var n := o + Align8(c.arch.MapSize());
    SliceText(b, n, m.name);
    if c.arch.Arch32? {
      assert Le4(b, o + 25) == Ptr(c, n);
    } else {
      assert Le8(b, o + 45) == Ptr(c, n);
    }
  }

  lemma ProgBytes(c: Config, b: seq<byte>, o: nat, next: nat, prev: nat, p: ProgEntry)
    requires ProgBody(c, b, o, p)
    requires Word(b, o, c.arch.W()) == Ptr(c, next) && Word(b, o + c.arch.W(), c.arch.W()) == Ptr(c, prev)
    ensures if c.arch.Arch32? then Prog32(c, b, o, next, prev, p) else Prog64(c, b, o, next, prev, p)
  {
    hide Word, Le4, Le8, Slice, TextAt, BytesAt, ProgExtent, DmapsOff, ImapsOff, ArgvOff;
    WordsAt(b);
    ProgParts(c.arch, o, p);
    var nd, ni := |p.dmaps|, |p.imaps|;
    var v, i, d := ArgvOff(c.arch, o, nd, ni), ImapsOff(c.arch, o, nd), DmapsOff(c.arch, o);
    SliceText(b, v, p.argv);
    SliceBytes(b, i, p.imaps);
    SliceBytes(b, d, p.dmaps);
    if c.arch.Arch32? {
      assert Le4(b, o + 16) == Ptr(c, v) && Le4(b, o + 24) == Ptr(c, i) && Le4(b, o + 32) == Ptr(c, d);
    } else {
      assert Le8(b, o + 32) == Ptr(c, v) && Le8(b, o + 48) == Ptr(c, i) && Le8(b, o + 64) == Ptr(c, d);
    }
  }

  lemma SliceBytes(b: seq<byte>, o: nat, s: seq<byte>)
    requires o + |s| <= |b| && Slice(b, o, |s|) == s
    ensures BytesAt(b, o, s)
  {
  }

  lemma HeaderBytes(c: Config, b: seq<byte>, mapOffs: seq<nat>, progOffs: seq<nat>, s: Syspage)
    requires Header(c, b, mapOffs, progOffs, s)
    ensures if c.arch.Arch32? then Header32(c, b, mapOffs, progOffs, s) else Header64(c, b, mapOffs, progOffs, s)
  {
    hide Word, Le4, Le8;
    WordsAt(b);
  }

  /** A buffer that holds a syspage holds, byte for byte, its header and the records of its maps and programs, each linked
      to its neighbours in the ring. */
  lemma SyspageBytes(c: Config, b: seq<byte>, mapOffs: seq<nat>, progOffs: seq<nat>, s: Syspage)
    requires Encodes(c, b, mapOffs, progOffs, s)
    ensures if c.arch.Arch32? then Header32(c, b, mapOffs, progOffs, s) else Header64(c, b, mapOffs, progOffs, s)
    ensures |mapOffs| == |s.maps| && |progOffs| == |s.progs|
    ensures var n := |mapOffs|; forall k :: 0 <= k < n ==>
      var o, next, prev := mapOffs[k], mapOffs[Next(k, n)], mapOffs[Prev(k, n)];
      if c.arch.Arch32? then Map32(c, b, o, next, prev, s.maps[k]) else Map64(c, b, o, next, prev, s.maps[k])
    ensures var n := |progOffs|; forall k :: 0 <= k < n ==>
      var o, next, prev := progOffs[k], progOffs[Next(k, n)], progOffs[Prev(k, n)];
      if c.arch.Arch32? then Prog32(c, b, o, next, prev, s.progs[k]) else Prog64(c, b, o, next, prev, s.progs[k])
  {
    hide Word, MapBody, ProgBody, Header, Placed, Map32, Map64, Prog32, Prog64, Header32, Header64, Next, Prev, Succ, Pred;
    HeaderBytes(c, b, mapOffs, progOffs, s);
    forall k | 0 <= k < |mapOffs|
      ensures var o, next, prev := mapOffs[k], mapOffs[Next(k, |mapOffs|)], mapOffs[Prev(k, |mapOffs|)];
        if c.arch.Arch32? then Map32(c, b, o, next, prev, s.maps[k]) else Map64(c, b, o, next, prev, s.maps[k])
    {
      RingNeighbours(k, |mapOffs|);
      BodyFits(c, b, mapOffs[k], s.maps[k]);
      MapBytes(c, b, mapOffs[k], mapOffs[Next(k, |mapOffs|)], mapOffs[Prev(k, |mapOffs|)], s.maps[k]);
    }
    forall k | 0 <= k < |progOffs|
      ensures var o, next, prev := progOffs[k], progOffs[Next(k, |progOffs|)], progOffs[Prev(k, |progOffs|)];
        if c.arch.Arch32? then Prog32(c, b, o, next, prev, s.progs[k]) else Prog64(c, b, o, next, prev, s.progs[k])
    {
      RingNeighbours(k, |progOffs|);
      ProgBytes(c, b, progOffs[k], progOffs[Next(k, |progOffs|)], progOffs[Prev(k, |progOffs|)], s.progs[k]);
    }
  }

  lemma BodyFits(c: Config, b: seq<byte>, o: nat, m: MapEntry)
    requires MapBody(c, b, o, m)
    ensures o + c.arch.MapSize() <= |b|
  {
    hide Word, Slice;
  }
}
