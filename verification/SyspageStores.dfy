/** Stores, walks and fills on the raw buffer, each with what it does to the bytes around it. */
module SyspageStores {
  import opened Basics
  import opened Bytes
  import opened SyspageSpec
  import opened SyspageImage
  import opened SyspageAppend
  import opened SyspageNames

  /** Offsets and addresses inside the buffer are not truncated. */
  lemma AddressesFit(c: Config, n: nat)
    requires c.Valid() && n < c.maxsz
    ensures Pow256(c.arch.W()) == c.arch.Limit() && Pow256(4) == U32 && Pow256(1) == 256
    ensures (c.Base() + n) % c.arch.Limit() == c.Base() + n && n % c.arch.Limit() == n
    ensures c.pkernel % c.arch.Limit() == c.pkernel
  {
    Pow256Values();
  }

  lemma SameWord(b: seq<byte>, b': seq<byte>, lo: nat, hi: nat, o: nat, w: nat)
    requires SameOutside(b, b', lo, hi) && o + w <= |b| && (o + w <= lo || hi <= o)
    ensures Word(b', o, w) == Word(b, o, w)
  {
  }

  lemma RingEnds(c: Config, b: seq<byte>, offs: seq<nat>)
    requires Ring(c, b, offs) && offs != []
    ensures offs[0] + 2 * c.arch.W() <= |b|
    ensures Word(b, offs[0] + c.arch.W(), c.arch.W()) == c.Base() + offs[|offs| - 1]
  {
    assert Pred(0, |offs|) == |offs| - 1;
  }

  lemma FirstLinked(c: Config, b0: seq<byte>, b1: seq<byte>, b2: seq<byte>, b3: seq<byte>, headOff: nat, off: nat)
    requires var w, ptr := c.arch.W(), c.Base() + off;
      && headOff + w <= off && off + 2 * w <= |b0|
      && SameOutside(b0, b1, off, off + w) && Word(b1, off, w) == ptr
      && SameOutside(b1, b2, off + w, off + w + w) && Word(b2, off + w, w) == ptr
      && SameOutside(b2, b3, headOff, headOff + w)
    ensures Ring(c, b3, [off]) && SameButLinks(c, b0, b3, headOff, [off])
  {
    var w := c.arch.W();
    SameWord(b1, b2, off + w, off + w + w, off, w);
    SameWord(b2, b3, headOff, headOff + w, off, w);
    SameWord(b2, b3, headOff, headOff + w, off + w, w);
    assert [off][0] == off;
  }

  ghost predicate Ascending(c: Config, headOff: nat, offs: seq<nat>, off: nat) {
    var w := c.arch.W();
    && headOff + w <= off && 0 < off
    && (forall k :: 0 <= k < |offs| ==> headOff + w <= offs[k] && offs[k] + 2 * w <= off)
    && (forall k, l :: 0 <= k < l < |offs| ==> offs[k] + 2 * w <= offs[l])
  }

  /** The four stores that link a record after the tail of a list: the record's prev, the tail's
      next, the record's next, the head's prev. */
  ghost predicate FourStores(c: Config, b0: seq<byte>, b1: seq<byte>, b2: seq<byte>, b3: seq<byte>, b4: seq<byte>,
                             headOff: nat, offs: seq<nat>, off: nat)
  {
    var w, n, ptr := c.arch.W(), |offs|, c.Base() + off;
    && n > 0 && off + 2 * w <= |b0| == |b1| == |b2| == |b3| == |b4|
    && Ascending(c, headOff, offs, off)
    && SameOutside(b0, b1, off + w, off + w + w) && Word(b1, off + w, w) == c.Base() + offs[n - 1]
    && SameOutside(b1, b2, offs[n - 1], offs[n - 1] + w) && Word(b2, offs[n - 1], w) == ptr
    && SameOutside(b2, b3, off, off + w) && Word(b3, off, w) == c.Base() + offs[0]
    && SameOutside(b3, b4, offs[0] + w, offs[0] + w + w) && Word(b4, offs[0] + w, w) == ptr
  }

  lemma FourStored(c: Config, b0: seq<byte>, b1: seq<byte>, b2: seq<byte>, b3: seq<byte>, b4: seq<byte>,
                   headOff: nat, offs: seq<nat>, off: nat)
    requires Ascending(c, headOff, offs, off) && |offs| > 0 && off + 2 * c.arch.W() <= |b0|
    requires |b0| == |b1| == |b2| == |b3| == |b4|
    requires var w, n, ptr := c.arch.W(), |offs|, c.Base() + off;
      && SameOutside(b0, b1, off + w, off + w + w) && Word(b1, off + w, w) == c.Base() + offs[n - 1]
      && SameOutside(b1, b2, offs[n - 1], offs[n - 1] + w) && Word(b2, offs[n - 1], w) == ptr
      && SameOutside(b2, b3, off, off + w) && Word(b3, off, w) == c.Base() + offs[0]
      && SameOutside(b3, b4, offs[0] + w, offs[0] + w + w) && Word(b4, offs[0] + w, w) == ptr
    ensures FourStores(c, b0, b1, b2, b3, b4, headOff, offs, off)
  {
    hide Word, SameOutside;
  }

  lemma LinkedFrame(c: Config, b0: seq<byte>, b1: seq<byte>, b2: seq<byte>, b3: seq<byte>, b4: seq<byte>,
                    headOff: nat, offs: seq<nat>, off: nat)
    requires FourStores(c, b0, b1, b2, b3, b4, headOff, offs, off)
    ensures SameButLinks(c, b0, b4, headOff, offs + [off])
  {
    hide Word, LeValue;
    var n := |offs|;
    var offs' := offs + [off];
    assert offs'[n] == off && offs'[n - 1] == offs[n - 1] && offs'[0] == offs[0];
  }

  lemma LinkedNext(c: Config, b0: seq<byte>, b1: seq<byte>, b2: seq<byte>, b3: seq<byte>, b4: seq<byte>,
                   headOff: nat, offs: seq<nat>, off: nat, i: nat)
    requires FourStores(c, b0, b1, b2, b3, b4, headOff, offs, off) && i <= |offs|
    requires i < |offs| - 1 ==> Word(b0, offs[i], c.arch.W()) == c.Base() + offs[i + 1]
    ensures Word(b4, (offs + [off])[i], c.arch.W()) == c.Base() + (offs + [off])[Succ(i, |offs| + 1)]
  {
    hide Word, LeValue, SameOutside;
    var w, n := c.arch.W(), |offs|;
    if i == n {
      SameWord(b3, b4, offs[0] + w, offs[0] + w + w, off, w);
    } else {
      if i < n - 1 {
        SameWord(b0, b1, off + w, off + w + w, offs[i], w);
        SameWord(b1, b2, offs[n - 1], offs[n - 1] + w, offs[i], w);
      }
      SameWord(b2, b3, off, off + w, offs[i], w);
      SameWord(b3, b4, offs[0] + w, offs[0] + w + w, offs[i], w);
    }
  }

  lemma LinkedPrev(c: Config, b0: seq<byte>, b1: seq<byte>, b2: seq<byte>, b3: seq<byte>, b4: seq<byte>,
                   headOff: nat, offs: seq<nat>, off: nat, i: nat)
    requires FourStores(c, b0, b1, b2, b3, b4, headOff, offs, off) && i <= |offs|
    requires 0 < i < |offs| ==> Word(b0, offs[i] + c.arch.W(), c.arch.W()) == c.Base() + offs[i - 1]
    ensures Word(b4, (offs + [off])[i] + c.arch.W(), c.arch.W()) == c.Base() + (offs + [off])[Pred(i, |offs| + 1)]
  {
    hide Word, LeValue, SameOutside;
    var w, n := c.arch.W(), |offs|;
    if i > 0 {
      var o := (offs + [off])[i] + w;
      if i < n { SameWord(b0, b1, off + w, off + w + w, o, w); }
      SameWord(b1, b2, offs[n - 1], offs[n - 1] + w, o, w);
      SameWord(b2, b3, off, off + w, o, w);
      SameWord(b3, b4, offs[0] + w, offs[0] + w + w, o, w);
    }
  }

  lemma LinkedHead(c: Config, b0: seq<byte>, b1: seq<byte>, b2: seq<byte>, b3: seq<byte>, b4: seq<byte>,
                   headOff: nat, offs: seq<nat>, off: nat)
    requires FourStores(c, b0, b1, b2, b3, b4, headOff, offs, off)
    ensures Word(b4, headOff, c.arch.W()) == Word(b0, headOff, c.arch.W())
  {
    hide Word, LeValue, SameOutside;
    var w, n := c.arch.W(), |offs|;
    SameWord(b0, b1, off + w, off + w + w, headOff, w);
    SameWord(b1, b2, offs[n - 1], offs[n - 1] + w, headOff, w);
    SameWord(b2, b3, off, off + w, headOff, w);
    SameWord(b3, b4, offs[0] + w, offs[0] + w + w, headOff, w);
  }

  lemma LinkedAt(c: Config, b0: seq<byte>, b1: seq<byte>, b2: seq<byte>, b3: seq<byte>, b4: seq<byte>,
                 headOff: nat, offs: seq<nat>, off: nat, i: nat)
    requires FourStores(c, b0, b1, b2, b3, b4, headOff, offs, off) && Ring(c, b0, offs) && i <= |offs|
    ensures var w, offs' := c.arch.W(), offs + [off];
      && offs'[i] + 2 * w <= |b4|
      && Word(b4, offs'[i], w) == c.Base() + offs'[Succ(i, |offs| + 1)]
      && Word(b4, offs'[i] + w, w) == c.Base() + offs'[Pred(i, |offs| + 1)]
  {
    hide Word, LeValue, SameOutside;
    var w, n := c.arch.W(), |offs|;
    if i < n {
      assert Word(b0, offs[i], w) == c.Base() + offs[Succ(i, n)];
      assert Word(b0, offs[i] + w, w) == c.Base() + offs[Pred(i, n)];
    }
    LinkedNext(c, b0, b1, b2, b3, b4, headOff, offs, off, i);
    LinkedPrev(c, b0, b1, b2, b3, b4, headOff, offs, off, i);
  }

  lemma LinkedRing(c: Config, b0: seq<byte>, b1: seq<byte>, b2: seq<byte>, b3: seq<byte>, b4: seq<byte>,
                   headOff: nat, offs: seq<nat>, off: nat)
    requires FourStores(c, b0, b1, b2, b3, b4, headOff, offs, off) && Ring(c, b0, offs)
    ensures Ring(c, b4, offs + [off])
  {
    hide Word, FourStores;
    var w, offs' := c.arch.W(), offs + [off];
    forall i | 0 <= i < |offs'|
      ensures offs'[i] + 2 * w <= |b4|
      ensures Word(b4, offs'[i], w) == c.Base() + offs'[Succ(i, |offs'|)]
      ensures Word(b4, offs'[i] + w, w) == c.Base() + offs'[Pred(i, |offs'|)]
    {
      LinkedAt(c, b0, b1, b2, b3, b4, headOff, offs, off, i);
    }
  }

  lemma LastLinked(c: Config, b0: seq<byte>, b1: seq<byte>, b2: seq<byte>, b3: seq<byte>, b4: seq<byte>,
                   headOff: nat, offs: seq<nat>, off: nat)
    requires FourStores(c, b0, b1, b2, b3, b4, headOff, offs, off)
    requires Ring(c, b0, offs) && Word(b0, headOff, c.arch.W()) == HeadPtr(c, offs)
    ensures Ring(c, b4, offs + [off]) && Word(b4, headOff, c.arch.W()) == HeadPtr(c, offs + [off])
    ensures SameButLinks(c, b0, b4, headOff, offs + [off])
  {
    hide Ring, SameButLinks, Word, SameOutside;
    LinkedFrame(c, b0, b1, b2, b3, b4, headOff, offs, off);
    LinkedHead(c, b0, b1, b2, b3, b4, headOff, offs, off);
    LinkedRing(c, b0, b1, b2, b3, b4, headOff, offs, off);
  }

  lemma NameAtIff(b: seq<byte>, off: nat, stored: cstring, name: cstring)
    requires off + |stored| + 1 <= |b| && Slice(b, off, |stored| + 1) == stored + [0]
    ensures NameAt(b, off, name) <==> stored == name
  {
    assert Slice(b, off, |stored|) == Slice(b, off, |stored| + 1)[..|stored|] == stored;
    assert b[off + |stored|] == (stored + [0])[|stored|] == 0;
  }

  /** The maps as a walk over the ring sees them. */
  ghost predicate MapRing(c: Config, b: seq<byte>, offs: seq<nat>, maps: seq<MapEntry>) {
    && |offs| == |maps| && Ring(c, b, offs)
    && (forall k :: 0 <= k < |offs| ==> MapBody(c, b, offs[k], maps[k]))
    && (forall k, l :: 0 <= k < l < |offs| ==> offs[k] < offs[l])
  }

  /** What the walk finds in the i-th record: the map, its name, and where to go next. */
  lemma MapFacts(c: Config, b: seq<byte>, offs: seq<nat>, maps: seq<MapEntry>, i: nat, name: cstring)
    requires MapRing(c, b, offs, maps) && i < |offs|
    ensures var w, off := c.arch.W(), offs[i];
      && off + c.arch.MapSize() <= |b|
      && Word(b, off + 3 * w, w) == maps[i].start && Word(b, off + 4 * w, w) == maps[i].end
      && Word(b, off + 5 * w + 4, 1) == maps[i].id
      && NameOff(c, b, off) >= 0 && (NameAt(b, NameOff(c, b, off), name) <==> maps[i].name == name)
      && if i + 1 == |offs| then Word(b, off, w) == c.Base() + offs[0]
         else Word(b, off, w) == c.Base() + offs[i + 1] && offs[i + 1] != offs[0]
  {
    hide LeValue;
    assert MapBody(c, b, offs[i], maps[i]);
    NameAtIff(b, NameOff(c, b, offs[i]), maps[i].name, name);
    assert offs[Succ(i, |offs|)] == if i + 1 == |offs| then offs[0] else offs[i + 1];
    if i + 1 < |offs| { assert offs[0] < offs[i + 1]; }
  }

  /** What the last record's prev link leads to. */
  lemma LastFacts(c: Config, b: seq<byte>, offs: seq<nat>, maps: seq<MapEntry>)
    requires MapRing(c, b, offs, maps) && offs != []
    ensures var w, n := c.arch.W(), |offs|;
      && offs[n - 1] + c.arch.MapSize() <= |b|
      && (n > 1 ==>
        && Word(b, offs[n - 1] + w, w) == c.Base() + offs[n - 2]
        && offs[n - 2] + c.arch.MapSize() <= |b|
        && Word(b, offs[n - 2] + 5 * w + 4, 1) == maps[n - 2].id)
  {
    hide LeValue;
    var n := |offs|;
    assert MapBody(c, b, offs[n - 1], maps[n - 1]);
    if n > 1 {
      assert Pred(n - 1, n) == n - 2;
      assert MapBody(c, b, offs[n - 2], maps[n - 2]);
    }
  }

  lemma {:induction false} LookupFirst(maps: seq<MapEntry>, name: seq<byte>, i: nat)
    requires i < |maps| && maps[i].name == name
    requires forall k :: 0 <= k < i ==> maps[k].name != name
    ensures Lookup(maps, name) == Some(i)
  {
    if i > 0 { LookupFirst(maps[1..], name, i - 1); }
  }

  /** Walk the ring of maps and look for one that overlaps the range or has the name. */
  method WalkOverlapping(c: Config, mem: seq<byte>, ghost offs: seq<nat>, ghost maps: seq<MapEntry>,
                         name: cstring, start: nat, end: nat)
    returns (conflict: bool)
    requires MapRing(c, mem, offs, maps) && c.arch.HeaderSize() <= |mem| && (offs != [] ==> offs[0] > 0)
    requires Word(mem, MapsOff(c.arch), c.arch.W()) == HeadPtr(c, offs) && |offs| == |maps|
    ensures conflict == Conflicts(maps, name, start, end)
  {
    hide Pow256, LeValue, Word, Align8, MapRing, NameAt;
    var w := c.arch.W();
    var head := Word(mem, MapsOff(c.arch), w);
    if head == 0 { return false; }
    var ptr := head;
    ghost var i := 0;
    while true
      invariant 0 <= i < |offs| == |maps| && ptr == c.Base() + offs[i]
      invariant forall k :: 0 <= k < i ==> !Overlaps(maps[k], start, end) && maps[k].name != name
      decreases |offs| - i
    {
      var off := ptr - c.Base();
      MapFacts(c, mem, offs, maps, i, name);
      if (Word(mem, off + 3 * w, w) < end && Word(mem, off + 4 * w, w) > start) ||
         NameAt(mem, NameOff(c, mem, off), name)
      {
        return true;
      }
      ptr := Word(mem, off, w);
      if ptr == head { break; }
      i := i + 1;
    }
    return false;
  }

  /** Walk the ring of maps for the first with that name. */
  method WalkResolve(c: Config, mem: seq<byte>, ghost offs: seq<nat>, ghost maps: seq<MapEntry>, name: cstring)
    returns (found: bool, id: byte)
    requires MapRing(c, mem, offs, maps) && c.arch.HeaderSize() <= |mem| && (offs != [] ==> offs[0] > 0)
    requires Word(mem, MapsOff(c.arch), c.arch.W()) == HeadPtr(c, offs) && |offs| == |maps|
    ensures found == Lookup(maps, name).Some?
    ensures found ==> id == maps[Lookup(maps, name).value].id
  {
    hide Pow256, LeValue, Word, Align8, MapRing, NameAt, Lookup;
    var w := c.arch.W();
    var head := Word(mem, MapsOff(c.arch), w);
    if head == 0 { return false, 0; }
    var ptr := head;
    ghost var i := 0;
    while true
      invariant 0 <= i < |offs| == |maps| && ptr == c.Base() + offs[i]
      invariant forall k :: 0 <= k < i ==> maps[k].name != name
      decreases |offs| - i
    {
      var off := ptr - c.Base();
      MapFacts(c, mem, offs, maps, i, name);
      if NameAt(mem, NameOff(c, mem, off), name) {
        LookupFirst(maps, name, i);
        return true, Word(mem, off + 5 * w + 4, 1);
      }
      ptr := Word(mem, off, w);
      if ptr == head { break; }
      i := i + 1;
    }
    return false, 0;
  }

  lemma AllocFacts(c: Config, size: nat, sz: nat)
    ensures var (z, ok) := Alloc(c, size, sz);
      && size <= z && (ok ==> z < c.maxsz && z % 8 == 0)
      && (ok && size % 8 == 0 ==> z == size + Align8(sz))
      && (!ok ==> z == size)
  {
    if size % 8 == 0 { assert (size + sz + 7) / 8 == size / 8 + (sz + 7) / 8; }
  }

  lemma Widen(b: seq<byte>, b': seq<byte>, lo: nat, hi: nat, lo': nat, hi': nat)
    requires SameOutside(b, b', lo, hi) && lo' <= lo && hi <= hi'
    ensures SameOutside(b, b', lo', hi')
  {
  }

  /** Two writes change nothing outside a range that holds both. */
  lemma Both(b: seq<byte>, b': seq<byte>, b'': seq<byte>, lo: nat, hi: nat, lo': nat, hi': nat, l: nat, h: nat)
    requires SameOutside(b, b', lo, hi) && SameOutside(b', b'', lo', hi')
    requires l <= lo && hi <= h && l <= lo' && hi' <= h
    ensures SameOutside(b, b'', l, h)
  {
  }

  lemma SameSlice(b: seq<byte>, b': seq<byte>, lo: nat, hi: nat, o: nat, n: nat)
    requires SameOutside(b, b', lo, hi) && o + n <= |b| && (o + n <= lo || hi <= o)
    ensures Slice(b', o, n) == Slice(b, o, n)
  {
  }

  /** Four fields stored one after the other, of which none overwrites another. */
  method StoreFields(buff: array<byte>, off: nat, w: nat, v0: nat, v1: nat, v2: nat, v3: nat, w3: nat)
    requires off + 3 * w + w3 <= buff.Length
    modifies buff
    ensures Word(buff[..], off, w) == v0 % Pow256(w) && Word(buff[..], off + w, w) == v1 % Pow256(w)
    ensures Word(buff[..], off + 2 * w, w) == v2 % Pow256(w) && Word(buff[..], off + 3 * w, w3) == v3 % Pow256(w3)
    ensures SameOutside(old(buff[..]), buff[..], off, off + 3 * w + w3)
  {
    hide LeValue, Pow256, LeBytes, SameOutside, Word;
    ghost var b0 := buff[..];
    StoreWord(buff, off, w, v0);
    ghost var b1 := buff[..];
    StoreWord(buff, off + w, w, v1);
    ghost var b2 := buff[..];
    StoreWord(buff, off + 2 * w, w, v2);
    ghost var b3 := buff[..];
    StoreWord(buff, off + 3 * w, w3, v3);
    Both(b2, b3, buff[..], off + 2 * w, off + 3 * w, off + 3 * w, off + 3 * w + w3, off + 2 * w, off + 3 * w + w3);
    Both(b1, b2, buff[..], off + w, off + 2 * w, off + 2 * w, off + 3 * w + w3, off + w, off + 3 * w + w3);
    Both(b0, b1, buff[..], off, off + w, off + w, off + 3 * w + w3, off, off + 3 * w + w3);
    SameWord(b1, buff[..], off + w, off + 3 * w + w3, off, w);
    SameWord(b2, buff[..], off + 2 * w, off + 3 * w + w3, off + w, w);
    SameWord(b3, buff[..], off + 3 * w, off + 3 * w + w3, off + 2 * w, w);
  }

  lemma MapRoom(a: Arch, m: MapEntry)
    ensures MapExtent(a, m) == Align8(a.MapSize()) + Align8(|m.name| + 1)
    ensures 6 * a.W() + 5 <= Align8(a.MapSize())
  {
  }

  /** What the id field holds before it is set. */
  ghost function IdAt(c: Config, b: seq<byte>, off: nat): byte {
    if off + c.arch.MapSize() <= |b| then b[off + 5 * c.arch.W() + 4] else 0
  }

  lemma MapFieldsBody(c: Config, b: seq<byte>, off: nat, m: MapEntry)
    requires MapFields(c, b, off, m)
    ensures MapBody(c, b, off, m.(id := IdAt(c, b, off)))
  {
    hide LeValue, Word;
    WordOne(b, off + 5 * c.arch.W() + 4);
  }

  /** Fill in a map record whose name pointer is set, and the name it points to. */
  method FillMap(c: Config, buff: array<byte>, off: nat, m: MapEntry)
    requires c.Valid() && buff.Length == c.maxsz && off + MapExtent(c.arch, m) <= buff.Length
    requires NameOff(c, buff[..], off) == off + Align8(c.arch.MapSize())
    requires m.start < c.arch.Limit() && m.end < c.arch.Limit() && m.attr < U32
    modifies buff
    ensures MapFields(c, buff[..], off, m)
    ensures SameOutside(old(buff[..]), buff[..], off, off + MapExtent(c.arch, m))
  {
    hide LeValue, Pow256, LeBytes, SameOutside, Word, Slice;
    AddressesFit(c, 0);
    var w := c.arch.W();
    var nameOff := NameOff(c, buff[..], off);
    ghost var b0 := buff[..];
    Store(buff, nameOff, m.name + [0]);
    ghost var b1 := buff[..];
    StoreFields(buff, off + 2 * w, w, 0, m.start, m.end, m.attr, 4);
    Both(b0, b1, buff[..], nameOff, nameOff + |m.name| + 1, off + 2 * w, off + 5 * w + 4, off, off + MapExtent(c.arch, m));
    SameWord(b0, b1, nameOff, nameOff + |m.name| + 1, off + 5 * w + 5, w);
    SameWord(b1, buff[..], off + 2 * w, off + 5 * w + 4, off + 5 * w + 5, w);
    SameSlice(b1, buff[..], off + 2 * w, off + 5 * w + 4, nameOff, |m.name| + 1);
  }

  /** The id after the predecessor's, found through the record's prev link. */
  method ReadNextId(c: Config, mem: seq<byte>, ghost offs: seq<nat>, ghost maps: seq<MapEntry>, off: nat, first: bool)
    returns (id: byte)
    requires |offs| == |maps| && MapRing(c, mem, offs, maps) && offs != []
    requires off == offs[|offs| - 1] && first == (|offs| == 1)
    ensures id == NextId(maps[..|maps| - 1]) && off + c.arch.MapSize() <= |mem|
  {
    hide LeValue, Word, MapRing;
    LastFacts(c, mem, offs, maps);
    if first { return 0; }
    var w := c.arch.W();
    id := (Word(mem, Word(mem, off + w, w) - c.Base() + 5 * w + 4, 1) + 1) % 256;
  }

  lemma RecordRoom(a: Arch)
    ensures 9 * a.W() <= Align8(a.ProgSize())
  {
  }

  /** Two stores into fields of a record, none of which touches another field. */
  method StoreTwo(buff: array<byte>, off: nat, w: nat, at: nat, v: nat, at': nat, v': nat)
    requires off <= at && at + w <= at' && at' + w <= off + 9 * w <= buff.Length
    modifies buff
    ensures Word(buff[..], at, w) == v % Pow256(w) && Word(buff[..], at', w) == v' % Pow256(w)
    ensures SameOutside(old(buff[..]), buff[..], off, off + 9 * w)
    ensures forall o: nat {:trigger Word(buff[..], o, w)} | o + w <= buff.Length && Apart(o, at, w) && Apart(o, at', w) ::
      Word(buff[..], o, w) == Word(old(buff[..]), o, w)
  {
    hide LeValue, Pow256, LeBytes, SameOutside, Word;
    ghost var b0 := buff[..];
    StoreWord(buff, at, w, v);
    ghost var b1 := buff[..];
    StoreWord(buff, at', w, v');
    ghost var b2 := buff[..];
    SameWord(b1, b2, at', at' + w, at, w);
    Both(b0, b1, b2, at, at + w, at', at' + w, off, off + 9 * w);
    forall o: nat | o + w <= buff.Length && Apart(o, at, w) && Apart(o, at', w) ensures Word(b2, o, w) == Word(b0, o, w) {
      SameWord(b0, b1, at, at + w, o, w);
      SameWord(b1, b2, at', at' + w, o, w);
    }
  }

  /** Two fields that do not overlap. */
  predicate Apart(o: nat, at: nat, w: nat) { o + w <= at || at + w <= o }

  /** The sizes and the range of a record: four of its nine fields, the others untouched. */
  method FillNumbers(buff: array<byte>, off: nat, w: nat, ni: nat, nd: nat, start: nat, end: nat)
    requires off + 9 * w <= buff.Length
    modifies buff
    ensures Word(buff[..], off + 5 * w, w) == ni % Pow256(w) && Word(buff[..], off + 7 * w, w) == nd % Pow256(w)
    ensures Word(buff[..], off + 2 * w, w) == start % Pow256(w) && Word(buff[..], off + 3 * w, w) == end % Pow256(w)
    ensures Word(buff[..], off + 4 * w, w) == Word(old(buff[..]), off + 4 * w, w)
    ensures Word(buff[..], off + 6 * w, w) == Word(old(buff[..]), off + 6 * w, w)
    ensures Word(buff[..], off + 8 * w, w) == Word(old(buff[..]), off + 8 * w, w)
    ensures SameOutside(old(buff[..]), buff[..], off, off + 9 * w)
  {
    hide LeValue, Pow256, LeBytes, SameOutside, Word;
    ghost var b0 := buff[..];
    StoreTwo(buff, off, w, off + 5 * w, ni, off + 7 * w, nd);
    ghost var b1 := buff[..];
    StoreTwo(buff, off, w, off + 2 * w, start, off + 3 * w, end);
    Both(b0, b1, buff[..], off, off + 9 * w, off, off + 9 * w, off, off + 9 * w);
    assert Word(b1, off + 4 * w, w) == Word(b0, off + 4 * w, w);
    assert Word(b1, off + 6 * w, w) == Word(b0, off + 6 * w, w);
    assert Word(b1, off + 8 * w, w) == Word(b0, off + 8 * w, w);
  }

  /** A store behind a record touches none of its fields. */
  lemma FieldsKept(b: seq<byte>, b': seq<byte>, off: nat, w: nat, lo: nat, hi: nat)
    requires SameOutside(b, b', lo, hi) && off + 9 * w <= lo <= hi <= |b|
    ensures |b'| == |b|
    ensures Word(b', off + 2 * w, w) == Word(b, off + 2 * w, w) && Word(b', off + 3 * w, w) == Word(b, off + 3 * w, w)
    ensures Word(b', off + 4 * w, w) == Word(b, off + 4 * w, w) && Word(b', off + 5 * w, w) == Word(b, off + 5 * w, w)
    ensures Word(b', off + 6 * w, w) == Word(b, off + 6 * w, w) && Word(b', off + 7 * w, w) == Word(b, off + 7 * w, w)
    ensures Word(b', off + 8 * w, w) == Word(b, off + 8 * w, w)
  {
    hide LeValue, Word;
    SameWord(b, b', lo, hi, off + 2 * w, w);
    SameWord(b, b', lo, hi, off + 3 * w, w);
    SameWord(b, b', lo, hi, off + 4 * w, w);
    SameWord(b, b', lo, hi, off + 5 * w, w);
    SameWord(b, b', lo, hi, off + 6 * w, w);
    SameWord(b, b', lo, hi, off + 7 * w, w);
    SameWord(b, b', lo, hi, off + 8 * w, w);
  }

  lemma ProgStored(c: Config, b: seq<byte>, off: nat, p: ProgEntry)
    requires off + ProgExtent(c.arch, p) <= |b| && off + 9 * c.arch.W() <= |b|
    requires ArgvOff(c.arch, off, |p.dmaps|, |p.imaps|) + |p.argv| + 1 <= |b|
    requires Word(b, off + 4 * c.arch.W(), c.arch.W()) == c.Base() + ArgvOff(c.arch, off, |p.dmaps|, |p.imaps|)
    requires Word(b, off + 6 * c.arch.W(), c.arch.W()) == c.Base() + ImapsOff(c.arch, off, |p.dmaps|)
    requires Word(b, off + 8 * c.arch.W(), c.arch.W()) == c.Base() + DmapsOff(c.arch, off)
    requires Word(b, off + 5 * c.arch.W(), c.arch.W()) == |p.imaps|
    requires Word(b, off + 7 * c.arch.W(), c.arch.W()) == |p.dmaps|
    requires Word(b, off + 2 * c.arch.W(), c.arch.W()) == p.start
    requires Word(b, off + 3 * c.arch.W(), c.arch.W()) == p.end
    requires Slice(b, ArgvOff(c.arch, off, |p.dmaps|, |p.imaps|), |p.argv| + 1) == p.argv + [0]
    ensures ProgFields(c, b, off, p)
  {
    hide LeValue, Align8, Word, Slice;
  }

  /** The sizes, the range and the arguments of a record whose pointers are set. */
  method FillProg(c: Config, buff: array<byte>, off: nat, ghost p: ProgEntry, start: nat, end: nat, argv: cstring,
                  nd: nat, ni: nat)
    requires c.Valid() && buff.Length == c.maxsz && off + 9 * c.arch.W() <= buff.Length
    requires off + ProgExtent(c.arch, p) <= buff.Length
    requires p.start == start < c.arch.Limit() && p.end == end < c.arch.Limit() && p.argv == argv
    requires |p.dmaps| == nd && |p.imaps| == ni
    requires Word(buff[..], off + 4 * c.arch.W(), c.arch.W()) == c.Base() + ArgvOff(c.arch, off, nd, ni)
    requires Word(buff[..], off + 6 * c.arch.W(), c.arch.W()) == c.Base() + ImapsOff(c.arch, off, nd)
    requires Word(buff[..], off + 8 * c.arch.W(), c.arch.W()) == c.Base() + DmapsOff(c.arch, off)
    modifies buff
    ensures ProgFields(c, buff[..], off, p)
    ensures SameOutside(old(buff[..]), buff[..], off, off + ProgExtent(c.arch, p))
  {
    hide LeValue, Pow256, LeBytes, SameOutside, Word, Slice, ProgFields, ProgExtent, ArgvOff, ImapsOff, DmapsOff;
    ProgParts(c.arch, off, p);
    AddressesFit(c, ni);
    AddressesFit(c, nd);
    var w, aOff := c.arch.W(), ArgvOff(c.arch, off, nd, ni);
    ghost var b0, extent := buff[..], ProgExtent(c.arch, p);
    FillNumbers(buff, off, w, ni, nd, start, end);
    ghost var b1 := buff[..];
    Store(buff, aOff, argv + [0]);
    FieldsKept(b1, buff[..], off, w, aOff, aOff + |argv| + 1);
    Both(b0, b1, buff[..], off, off + 9 * w, aOff, aOff + |argv| + 1, off, off + extent);
    ProgStored(c, buff[..], off, p);
  }

  lemma ProgFieldsIds(c: Config, b: seq<byte>, off: nat, p: ProgEntry, p': ProgEntry)
    requires ProgFields(c, b, off, p)
    requires p' == p.(imaps := p'.imaps, dmaps := p'.dmaps) && |p'.imaps| == |p.imaps| && |p'.dmaps| == |p.dmaps|
    ensures ProgFields(c, b, off, p')
  {
    hide LeValue, Word;
  }

  /** Writing the id arrays leaves the rest of a program record as it is. */
  lemma ProgFieldsFrame(c: Config, b: seq<byte>, b': seq<byte>, off: nat, p: ProgEntry, lo: nat, hi: nat)
    requires ProgFields(c, b, off, p) && SameOutside(b, b', lo, hi)
    requires DmapsOff(c.arch, off) <= lo && hi <= ArgvOff(c.arch, off, |p.dmaps|, |p.imaps|)
    ensures ProgFields(c, b', off, p)
  {
    hide LeValue;
  }

  lemma NothingWritten(b: seq<byte>, lo: nat, hi: nat)
    ensures SameOutside(b, b, lo, hi)
  {
  }

  lemma NothingRead(maps: seq<MapEntry>, b: seq<byte>, o: nat)
    requires o <= |b|
    ensures Join([]) == [] && Resolve(maps, []) == Some(Slice(b, o, 0))
  {
    assert Slice(b, o, 0) == [];
  }

  /** One byte written right after n others of a fresh array. */
  lemma ByteWritten(b: seq<byte>, b': seq<byte>, at: nat, x: byte, lo: nat, n: nat)
    requires at < |b| && b' == b[at := x] && at == lo + n
    ensures SameOutside(b, b', at, at + 1)
    ensures Slice(b', lo, n + 1) == Slice(b, lo, n) + [x]
  {
  }

  /** Storing the image size or the console leaves every other header field alone. */
  lemma HeaderFieldSet(c: Config, b: seq<byte>, b': seq<byte>, mapOffs: seq<nat>, progOffs: seq<nat>, s: Syspage,
                       s': Syspage, at: nat)
    requires Header(c, b, mapOffs, progOffs, s) && at + 4 <= |b| && SameOutside(b, b', at, at + 4)
    requires s' == s.(imgsz := s'.imgsz, console := s'.console, aliases := s'.aliases)
    requires (at == IMGSZ_OFF && Word(b', at, 4) == s'.imgsz && s'.console == s.console) ||
             (at == ConsoleOff(c.arch) && Word(b', at, 4) == s'.console && s'.imgsz == s.imgsz)
    ensures Header(c, b', mapOffs, progOffs, s')
  {
    hide LeValue, HeadPtr;
  }

  /** Set a bit of the mask, as |= does. */
  function OrBit(mask: nat, bit: nat): nat
    requires bit > 0
  {
    if mask / bit % 2 == 1 then mask else mask + bit
  }

  /** Setting one of six bits of a mask. */
  lemma OrBits(a: nat, b: nat, c: nat, d: nat, e: nat, f: nat)
    requires a <= 1 && b <= 1 && c <= 1 && d <= 1 && e <= 1 && f <= 1
    ensures var m := a + 2 * b + 4 * c + 8 * d + 16 * e + 32 * f;
      && OrBit(m, 1) == m + (1 - a) && OrBit(m, 2) == m + 2 * (1 - b) && OrBit(m, 4) == m + 4 * (1 - c)
      && OrBit(m, 8) == m + 8 * (1 - d) && OrBit(m, 16) == m + 16 * (1 - e) && OrBit(m, 32) == m + 32 * (1 - f)
  {
    hide OrBit;
    var m := a + 2 * b + 4 * c + 8 * d + 16 * e + 32 * f;
    OrBit1(m, b + 2 * c + 4 * d + 8 * e + 16 * f, a);
    OrBit2(m, c + 2 * d + 4 * e + 8 * f, b, a);
    OrBit4(m, d + 2 * e + 4 * f, c, a + 2 * b);
    OrBit8(m, e + 2 * f, d, a + 2 * b + 4 * c);
    OrBit16(m, f, e, a + 2 * b + 4 * c + 8 * d);
    OrBit32(m, f, a + 2 * b + 4 * c + 8 * d + 16 * e);
  }

  lemma OrBit1(m: nat, high: nat, x: nat)
    requires x <= 1 && m == 2 * high + x
    ensures OrBit(m, 1) == m + (1 - x)
  {
  }

  lemma OrBit2(m: nat, high: nat, x: nat, low: nat)
    requires x <= 1 && low < 2 && m == 4 * high + 2 * x + low
    ensures OrBit(m, 2) == m + 2 * (1 - x)
  {
  }

  lemma OrBit4(m: nat, high: nat, x: nat, low: nat)
    requires x <= 1 && low < 4 && m == 8 * high + 4 * x + low
    ensures OrBit(m, 4) == m + 4 * (1 - x)
  {
  }

  lemma OrBit8(m: nat, high: nat, x: nat, low: nat)
    requires x <= 1 && low < 8 && m == 16 * high + 8 * x + low
    ensures OrBit(m, 8) == m + 8 * (1 - x)
  {
  }

  lemma OrBit16(m: nat, high: nat, x: nat, low: nat)
    requires x <= 1 && low < 16 && m == 32 * high + 16 * x + low
    ensures OrBit(m, 16) == m + 16 * (1 - x)
  {
  }

  lemma OrBit32(m: nat, x: nat, low: nat)
    requires x <= 1 && low < 32 && m == 32 * x + low
    ensures OrBit(m, 32) == m + 32 * (1 - x)
  {
  }

  lemma AttrSnoc(s: cstring, x: byte, s': cstring)
    requires s' == s + [x] && x in ATTRS
    ensures x == ATTRS[0] ==> AttrMask(s') == OrBit(AttrMask(s), 1)
    ensures x == ATTRS[1] ==> AttrMask(s') == OrBit(AttrMask(s), 2)
    ensures x == ATTRS[2] ==> AttrMask(s') == OrBit(AttrMask(s), 4)
    ensures x == ATTRS[3] ==> AttrMask(s') == OrBit(AttrMask(s), 8)
    ensures x == ATTRS[4] ==> AttrMask(s') == OrBit(AttrMask(s), 16)
    ensures x == ATTRS[5] ==> AttrMask(s') == OrBit(AttrMask(s), 32)
  {
    hide OrBit;
    OrBits(AttrBit(s, 0), AttrBit(s, 1), AttrBit(s, 2), AttrBit(s, 3), AttrBit(s, 4), AttrBit(s, 5));
    forall i: nat | i < 6 ensures AttrBit(s', i) == if ATTRS[i] == x then 1 else AttrBit(s, i) {
      assert ATTRS[i] in s' <==> ATTRS[i] in s || ATTRS[i] == x;
    }
  }

  method StrAttr2ui(str: cstring) returns (ok: bool, attr: nat)
    ensures StrAttr(str) == if ok then Some(attr) else None
    ensures attr < U32
  {
    hide AttrMask, OrBit;
    attr := 0;
    assert AttrMask(str[..0]) == 0 by { NoAttrs(); assert str[..0] == []; }
    for i := 0 to |str|
      invariant attr == AttrMask(str[..i]) && forall k :: 0 <= k < i ==> str[k] in ATTRS
    {
      var x := str[i];
      if x !in ATTRS { AttrMaskBound(str[..i]); return false, attr; }
      AttrSnoc(str[..i], x, str[..i + 1]);
      attr := if x == ATTRS[0] then OrBit(attr, 1)
              else if x == ATTRS[1] then OrBit(attr, 2)
              else if x == ATTRS[2] then OrBit(attr, 4)
              else if x == ATTRS[3] then OrBit(attr, 8)
              else if x == ATTRS[4] then OrBit(attr, 16)
              else OrBit(attr, 32);
    }
    assert str[..|str|] == str;
    AttrMaskBound(str);
    ok := true;
  }

  lemma NoAttrs()
    ensures AttrMask([]) == 0
  {
  }

  lemma AttrMaskBound(s: cstring)
    ensures AttrMask(s) < 64
  {
  }

  /** A word of the command line, in its own NUL-terminated buffer. */
  method CopyWord(s: cstring) returns (a: array<byte>)
    ensures fresh(a) && a.Length == |s| + 1 && a[..|s|] == s && a[|s|] == 0
  {
    a := new byte[|s| + 1](i requires 0 <= i <= |s| => if i < |s| then s[i] else 0);
  }

  /** The program's name: its argument string up to the first semicolon. */
  method NameOfProg(s: cstring) returns (name: cstring)
    ensures name == ProgName(s)
  {
    var pos := 0;
    while pos < |s| && s[pos] != SEMICOLON
      invariant 0 <= pos <= |s| && s[..pos] + ProgName(s[pos..]) == ProgName(s)
    {
      assert s[..pos + 1] == s[..pos] + [s[pos]];
      pos := pos + 1;
    }
    name := s[..pos];
  }

  lemma {:induction false} ZeroWord(b: seq<byte>, o: nat, w: nat)
    requires o + w <= |b| && forall k :: 0 <= k < |b| ==> b[k] == 0
    ensures Word(b, o, w) == 0
    decreases w
  {
    if w > 0 {
      ZeroWord(b, o + 1, w - 1);
      assert Slice(b, o, w)[1..] == Slice(b, o + 1, w - 1);
    }
  }

  lemma HeaderFits(a: Arch)
    ensures a.HeaderSize() <= Align8(a.HeaderSize())
  {
  }

  lemma FreshPage(c: Config, b: seq<byte>, b1: seq<byte>, b2: seq<byte>)
    requires c.Valid() && |b| == c.maxsz && forall k :: 0 <= k < |b| ==> b[k] == 0
    requires c.arch.HeaderSize() <= |b1| == |b| == |b2|
    requires SameOutside(b, b1, SIZE_OFF, SIZE_OFF + c.arch.W())
    requires Word(b1, SIZE_OFF, c.arch.W()) == Align8(c.arch.HeaderSize())
    requires SameOutside(b1, b2, PkernelOff(c.arch), PkernelOff(c.arch) + c.arch.W())
    requires Word(b2, PkernelOff(c.arch), c.arch.W()) == c.pkernel
    ensures Encodes(c, b2, [], [], Initial(c))
  {
    hide LeValue, Slice, Word, SameOutside, Align8;
    var a, w := c.arch, c.arch.W();
    HeaderFits(a);
    SameWord(b1, b2, PkernelOff(a), PkernelOff(a) + w, SIZE_OFF, w);
    ZeroWord(b, IMGSZ_OFF, 4);
    SameWord(b, b1, SIZE_OFF, SIZE_OFF + w, IMGSZ_OFF, 4);
    SameWord(b1, b2, PkernelOff(a), PkernelOff(a) + w, IMGSZ_OFF, 4);
    ZeroWord(b, MapsOff(a), w);
    SameWord(b, b1, SIZE_OFF, SIZE_OFF + w, MapsOff(a), w);
    SameWord(b1, b2, PkernelOff(a), PkernelOff(a) + w, MapsOff(a), w);
    ZeroWord(b, ProgsOff(a), w);
    SameWord(b, b1, SIZE_OFF, SIZE_OFF + w, ProgsOff(a), w);
    SameWord(b1, b2, PkernelOff(a), PkernelOff(a) + w, ProgsOff(a), w);
    ZeroWord(b, ConsoleOff(a), 4);
    SameWord(b, b1, SIZE_OFF, SIZE_OFF + w, ConsoleOff(a), 4);
    SameWord(b1, b2, PkernelOff(a), PkernelOff(a) + w, ConsoleOff(a), 4);
  }

  /** Three pointers stored downwards, none of which touches another. */
  lemma PointersKept(b0: seq<byte>, b1: seq<byte>, b2: seq<byte>, b3: seq<byte>, off: nat, w: nat, hi: nat)
    requires off + 9 * w <= hi <= |b0|
    requires SameOutside(b0, b1, off + 8 * w, off + 9 * w) && SameOutside(b1, b2, off + 6 * w, off + 7 * w)
    requires SameOutside(b2, b3, off + 4 * w, off + 5 * w)
    ensures |b3| == |b2| == |b1| == |b0|
    ensures Word(b3, off + 8 * w, w) == Word(b1, off + 8 * w, w) && Word(b3, off + 6 * w, w) == Word(b2, off + 6 * w, w)
    ensures SameOutside(b0, b3, off, hi)
  {
    hide LeValue;
  }
}
