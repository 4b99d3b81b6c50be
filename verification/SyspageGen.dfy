/** The generator itself: the commands of syspagen working in place on one buffer. */
module SyspageGen {
  import opened Basics
  import opened Bytes
  import opened SyspageSpec
  import opened SyspageRuns
  import opened SyspageImage
  import opened SyspageAppend
  import opened SyspageNames
  import opened SyspageStores

  class Generator {
    const c: Config
    const buff: array<byte>
    var aliases: seq<Alias>

    /** What the buffer holds, and where its records lie. */
    ghost var page: Syspage
    ghost var mapOffs: seq<nat>
    ghost var progOffs: seq<nat>

    ghost predicate Valid()
      reads this, buff
    {
      && c.Valid()
      && Encodes(c, buff[..], mapOffs, progOffs, page)
      && page.aliases == aliases
    }

    /** A zeroed buffer, with the size of the header and the kernel's address in it. */
    constructor (c: Config)
      requires c.Valid()
      ensures this.c == c && Valid() && page == Initial(c) && fresh(buff)
    {
      hide LeValue, Word, SameOutside, Align8, Pow256;
      var a, z := c.arch, Align8(c.arch.HeaderSize());
      this.c := c;
      buff := new byte[c.maxsz](_ => 0);
      aliases := [];
      page := Initial(c);
      mapOffs, progOffs := [], [];
      new;
      AddressesFit(c, 0);
      AddressesFit(c, z);
      ghost var b := buff[..];
      StoreWord(buff, SIZE_OFF, a.W(), z);
      ghost var b' := buff[..];
      StoreWord(buff, PkernelOff(a), a.W(), c.pkernel);
      FreshPage(c, b, b', buff[..]);
    }

    /** No record reaches past this offset. */
    ghost predicate Free(lo: nat)
      reads this
    {
      c.arch.HeaderSize() <= lo && Placed(c.arch, mapOffs, progOffs, page, lo)
    }

    /** A field of the header or of a record. */
    function Load(off: nat, w: nat): (v: nat)
      requires off + w <= buff.Length
      reads buff
    {
      Word(buff[..], off, w)
    }

    /** The head fields are null exactly when the lists are empty. */
    lemma HeadFacts()
      requires Valid()
      ensures c.arch.HeaderSize() <= buff.Length
      ensures Load(MapsOff(c.arch), c.arch.W()) == HeadPtr(c, mapOffs)
      ensures mapOffs != [] ==> mapOffs[0] > 0
      ensures Load(ProgsOff(c.arch), c.arch.W()) == HeadPtr(c, progOffs)
      ensures progOffs != [] ==> progOffs[0] > 0
    {
      hide Pow256, LeValue, Word, Bodies, Ring;
    }

    /** Room past the end of the syspage; what lies below `lo` stays below it. */
    method BuffAlloc(sz: nat, ghost lo: nat) returns (ptr: nat)
      requires Valid() && Free(lo)
      modifies this, buff
      ensures Valid() && Free(lo)
      ensures mapOffs == old(mapOffs) && progOffs == old(progOffs) && aliases == old(aliases)
      ensures var (z, ok) := Alloc(c, old(page.size), sz);
        page == old(page).(size := z) && ptr == if ok then c.Base() + old(page.size) else 0
      ensures SameOutside(old(buff[..]), buff[..], SIZE_OFF, SIZE_OFF + c.arch.W())
    {
      hide Bodies, Ring, Placed, Align8, Pow256, Word;
      var a := c.arch;
      var size := Load(SIZE_OFF, a.W());
      var newSz := Align8(size + sz);
      if newSz >= c.maxsz { return 0; }
      AddressesFit(c, size);
      AddressesFit(c, newSz);
      ptr := (c.Base() + size) % a.Limit();
      StoreWord(buff, SIZE_OFF, a.W(), newSz);
      SizeFrame(c, old(buff[..]), buff[..], mapOffs, progOffs, page, newSz);
      page := page.(size := newSz);
      PlacedHigher(a, mapOffs, progOffs, old(page), page, lo, lo);
    }

    ghost predicate CanLink(headOff: nat, offs: seq<nat>, off: nat)
      reads buff
    {
      && c.Valid() && buff.Length == c.maxsz && off + 2 * c.arch.W() <= c.maxsz
      && Ascending(c, headOff, offs, off)
      && Ring(c, buff[..], offs) && Load(headOff, c.arch.W()) == HeadPtr(c, offs)
    }

    method LinkFirst(headOff: nat, off: nat)
      requires CanLink(headOff, [], off)
      modifies buff
      ensures Ring(c, buff[..], [off]) && Load(headOff, c.arch.W()) == HeadPtr(c, [off])
      ensures SameButLinks(c, old(buff[..]), buff[..], headOff, [off])
    {
      hide Pow256, LeValue, Word, Ring, SameOutside, SameButLinks, LeBytes;
      AddressesFit(c, off);
      var w := c.arch.W();
      var ptr := c.Base() + off;
      ghost var b0 := buff[..];
      StoreWord(buff, off, w, ptr);
      ghost var b1 := buff[..];
      StoreWord(buff, off + w, w, ptr);
      ghost var b2 := buff[..];
      StoreWord(buff, headOff, w, ptr);
      FirstLinked(c, b0, b1, b2, buff[..], headOff, off);
    }

    method LinkLast(headOff: nat, ghost offs: seq<nat>, off: nat)
      requires CanLink(headOff, offs, off) && offs != []
      modifies buff
      ensures Ring(c, buff[..], offs + [off]) && Load(headOff, c.arch.W()) == HeadPtr(c, offs + [off])
      ensures SameButLinks(c, old(buff[..]), buff[..], headOff, offs + [off])
    {
      hide Pow256, LeValue, Word, Ring, SameOutside, SameButLinks, LeBytes, FourStores;
      var w := c.arch.W();
      ghost var b0, n := buff[..], |offs|;
      AddressesFit(c, off);
      AddressesFit(c, offs[0]);
      AddressesFit(c, offs[n - 1]);
      RingEnds(c, b0, offs);
      var head := Load(headOff, w);
      var prev := head - c.Base() + w;
      StoreWord(buff, off + w, w, Load(prev, w));
      ghost var b1 := buff[..];
      SameWord(b0, b1, off + w, off + 2 * w, prev, w);
      StoreWord(buff, Load(prev, w) - c.Base(), w, c.Base() + off);
      ghost var b2 := buff[..];
      StoreWord(buff, off, w, head);
      ghost var b3 := buff[..];
      StoreWord(buff, prev, w, c.Base() + off);
      FourStored(c, b0, b1, b2, b3, buff[..], headOff, offs, off);
      LastLinked(c, b0, b1, b2, b3, buff[..], headOff, offs, off);
    }

    /** Link a new record at the tail of a circular list whose head field is at headOff. */
    method AppendRing(headOff: nat, ghost offs: seq<nat>, off: nat)
      requires CanLink(headOff, offs, off)
      modifies buff
      ensures Ring(c, buff[..], offs + [off]) && Load(headOff, c.arch.W()) == HeadPtr(c, offs + [off])
      ensures SameButLinks(c, old(buff[..]), buff[..], headOff, offs + [off])
    {
      hide Pow256, LeValue, Word, Ring, SameOutside, SameButLinks;
      if Load(headOff, c.arch.W()) == 0 {
        assert offs == [] && offs + [off] == [off];
        LinkFirst(headOff, off);
      } else {
        LinkLast(headOff, offs, off);
      }
    }

    lemma MapsForWalk()
      requires Valid()
      ensures MapRing(c, buff[..], mapOffs, page.maps) && |mapOffs| == |page.maps|
    {
      hide LeValue, MapBody, ProgBody, Header, Ring, Word;
    }

    method MapOverlapping(name: cstring, start: nat, end: nat) returns (conflict: bool)
      requires Valid()
      ensures conflict == Conflicts(page.maps, name, start, end)
    {
      hide Pow256, LeValue, Align8, MapRing, Encodes, Conflicts;
      HeadFacts();
      MapsForWalk();
      conflict := WalkOverlapping(c, buff[..], mapOffs, page.maps, name, start, end);
    }

    method MapNameResolve(name: cstring) returns (found: bool, id: byte)
      requires Valid()
      ensures found == Lookup(page.maps, name).Some?
      ensures found ==> id == page.maps[Lookup(page.maps, name).value].id
    {
      hide Pow256, LeValue, Align8, MapRing, Encodes;
      HeadFacts();
      MapsForWalk();
      found, id := WalkResolve(c, buff[..], mapOffs, page.maps, name);
    }

    /** Bytes written past every record leave the syspage as it is. */
    lemma WrittenFresh(b: seq<byte>, lo: nat, hi: nat)
      requires c.Valid() && Encodes(c, b, mapOffs, progOffs, page) && page.aliases == aliases
      requires Free(lo) && lo <= hi && SameOutside(b, buff[..], lo, hi)
      ensures Valid()
    {
      hide Encodes, Placed, SameOutside;
      FreshFrame(c, b, buff[..], mapOffs, progOffs, page, lo, hi);
    }

    lemma MapsLinkable(off: nat)
      requires Valid() && Free(off) && off + 2 * c.arch.W() <= c.maxsz
      ensures CanLink(MapsOff(c.arch), mapOffs, off)
    {
      hide Word, LeValue, MapBody, ProgBody, Ring, Align8;
      forall i | 0 <= i < |mapOffs| ensures 2 * c.arch.W() <= MapExtent(c.arch, page.maps[i]) {
        ExtentHoldsLinks(c.arch, page.maps[i]);
      }
    }

    lemma ProgsLinkable(off: nat)
      requires Valid() && Free(off) && off + 2 * c.arch.W() <= c.maxsz
      ensures CanLink(ProgsOff(c.arch), progOffs, off)
    {
      hide Word, LeValue, MapBody, ProgBody, Ring, Align8;
      forall i | 0 <= i < |progOffs| ensures 2 * c.arch.W() <= ProgExtent(c.arch, page.progs[i]) {
        ExtentsHoldLinks(c.arch, page.progs[i]);
      }
    }

    /** Link a filled map record at the tail of the list. */
    method LinkMap(off: nat, ghost m: MapEntry)
      requires Valid() && Free(off) && off % 8 == 0 && off + MapExtent(c.arch, m) <= page.size
      requires MapBody(c, buff[..], off, m)
      modifies this, buff
      ensures Valid()
      ensures mapOffs == old(mapOffs) + [off] && progOffs == old(progOffs) && aliases == old(aliases)
      ensures page == old(page).(maps := old(page.maps) + [m])
    {
      hide Word, LeValue, MapBody, Bodies, Ring, Header, SameButLinks, Align8, Pow256, Placed, MapExtent;
      ghost var b := buff[..];
      ExtentHoldsLinks(c.arch, m);
      MapsLinkable(off);
      AppendRing(MapsOff(c.arch), mapOffs, off);
      MapAppended(c, b, buff[..], mapOffs, progOffs, page, off, m);
      mapOffs := mapOffs + [off];
      page := page.(maps := page.maps + [m]);
    }

    method LinkProg(off: nat, ghost p: ProgEntry)
      requires Valid() && Free(off) && off % 8 == 0 && off + ProgExtent(c.arch, p) <= page.size
      requires ProgBody(c, buff[..], off, p)
      modifies this, buff
      ensures Valid()
      ensures mapOffs == old(mapOffs) && progOffs == old(progOffs) + [off] && aliases == old(aliases)
      ensures page == old(page).(progs := old(page.progs) + [p])
    {
      hide Word, LeValue, ProgBody, Bodies, Ring, Header, SameButLinks, Align8, Pow256, Placed, ProgExtent;
      ghost var b := buff[..];
      ExtentsHoldLinks(c.arch, p);
      ProgsLinkable(off);
      AppendRing(ProgsOff(c.arch), progOffs, off);
      ProgAppended(c, b, buff[..], mapOffs, progOffs, page, off, p);
      progOffs := progOffs + [off];
      page := page.(progs := page.progs + [p]);
    }

    /** Number the last map after its predecessor. */
    method NumberMap(off: nat, first: bool)
      requires Valid() && mapOffs != [] && off == mapOffs[|mapOffs| - 1] && first == (|mapOffs| == 1)
      modifies this, buff
      ensures Valid()
      ensures mapOffs == old(mapOffs) && progOffs == old(progOffs) && aliases == old(aliases)
      ensures old(page.maps) != [] &&
        page == WithLastId(old(page), NextId(old(page.maps)[..|old(page.maps)| - 1]))
    {
      hide LeValue, MapBody, Encodes, Align8, MapRing, Word;
      MapsForWalk();
      assert page.maps != [];
      var id := ReadNextId(c, buff[..], mapOffs, page.maps, off, first);
      ghost var b := buff[..];
      AddressesFit(c, 0);
      StoreWord(buff, off + 5 * c.arch.W() + 4, 1, id);
      IdFrame(c, b, buff[..], mapOffs, progOffs, page, id);
      page := WithLastId(page, id);
    }

    lemma Bounds()
      requires Valid()
      ensures buff.Length == c.maxsz && c.arch.HeaderSize() <= page.size < c.maxsz && page.size % 8 == 0
      ensures Free(page.size) && |mapOffs| == |page.maps| && |progOffs| == |page.progs|
    {
      hide LeValue, Word, Bodies, Ring, Placed, Header;
    }

    /** The fresh record: its name pointer, then everything else but the id. */
    method FillFresh(off: nat, m: MapEntry, namePtr: nat)
      requires Valid() && Free(off) && off + MapExtent(c.arch, m) <= page.size
      requires namePtr == c.Base() + off + Align8(c.arch.MapSize())
      requires m.start < c.arch.Limit() && m.end < c.arch.Limit() && m.attr < U32
      modifies buff
      ensures Valid() && MapFields(c, buff[..], off, m)
    {
      hide LeValue, Encodes, MapFields, Align8, Word, Placed, SameOutside;
      Bounds();
      MapRoom(c.arch, m);
      var w := c.arch.W();
      AddressesFit(c, off + Align8(c.arch.MapSize()));
      ghost var b := buff[..];
      StoreWord(buff, off + 5 * w + 5, w, namePtr);
      ghost var b' := buff[..];
      FillMap(c, buff, off, m);
      Both(b, b', buff[..], off + 5 * w + 5, off + 6 * w + 5, off, off + MapExtent(c.arch, m), off, page.size);
      WrittenFresh(b, off, page.size);
    }

    /** Fill a fresh record, link it at the tail and number it. */
    method FinishMap(off: nat, m: MapEntry, namePtr: nat)
      requires Valid() && Free(off) && off % 8 == 0 && off + MapExtent(c.arch, m) <= page.size
      requires namePtr == c.Base() + off + Align8(c.arch.MapSize())
      requires m.start < c.arch.Limit() && m.end < c.arch.Limit() && m.attr < U32
      modifies this, buff
      ensures Valid() && aliases == old(aliases)
      ensures page == old(page).(maps := old(page.maps) + [m.(id := NextId(old(page.maps)))])
    {
      hide LeValue, Encodes, MapFields, Align8, Word, Placed, Alloc, NextId, SameOutside;
      FillFresh(off, m, namePtr);
      MapRoom(c.arch, m);
      Bounds();
      HeadFacts();
      var first := Load(MapsOff(c.arch), c.arch.W()) == 0;
      ghost var m0 := m.(id := IdAt(c, buff[..], off));
      MapFieldsBody(c, buff[..], off, m);
      LinkMap(off, m0);
      NumberMap(off, first);
      assert old(page.maps) + [m0] == page.maps[..|page.maps| - 1] + [m0];
    }

    method MapAdd(name: cstring, start: nat, end: nat, attr: nat) returns (ok: bool)
      requires Valid() && start < c.arch.Limit() && end < c.arch.Limit() && attr < U32
      modifies this, buff
      ensures Valid() && aliases == old(aliases)
      ensures (page, ok) == AddMap(c, old(page), name, start, end, attr)
    {
      hide LeValue, Encodes, MapFields, Align8, Word, Placed, Alloc, NextId, SameOutside;
      Bounds();
      var a, w := c.arch, c.arch.W();
      ghost var s0 := page;
      AllocFacts(c, s0.size, a.MapSize());
      var ptr := BuffAlloc(a.MapSize(), s0.size);
      if ptr == 0 { return false; }
      ghost var s1 := page;
      AllocFacts(c, s1.size, |name| + 1);
      var namePtr := BuffAlloc(|name| + 1, s0.size);
      var off := ptr - c.Base();
      var m := MapEntry(name, start, end, attr, 0);
      MapRoom(a, m);
      if namePtr == 0 {
        ghost var b := buff[..];
        StoreWord(buff, off + 5 * w + 5, w, namePtr);
        Widen(b, buff[..], off + 5 * w + 5, off + 6 * w + 5, off, page.size);
        WrittenFresh(b, off, page.size);
        return false;
      }
      FinishMap(off, m, namePtr);
      ok := true;
    }

    /** Write the ids of the named maps into a fresh array, walking over the NUL-separated names. */
    method MapsAdd2Prog(idsOff: nat, nb: nat, names: array<byte>, ghost pieces: seq<seq<byte>>) returns (ok: bool)
      requires Valid() && Free(idsOff) && idsOff + nb <= page.size && names != buff
      requires nb == |pieces| && Join(pieces) <= names[..]
      requires forall k :: 0 <= k < nb ==> 0 !in pieces[k]
      modifies buff
      ensures Valid() && SameOutside(old(buff[..]), buff[..], idsOff, idsOff + nb)
      ensures ok == Resolve(page.maps, pieces).Some?
      ensures ok ==> Slice(buff[..], idsOff, nb) == Resolve(page.maps, pieces).value
    {
      hide LeValue, Encodes, Placed, Word, SameOutside, Resolve, Join, Lookup, CStrAt;
      Bounds();
      NothingWritten(buff[..], idsOff, idsOff + nb);
      assert pieces[..0] == [];
      NothingRead(page.maps, buff[..], idsOff);
      var pos := 0;
      for i := 0 to nb
        invariant Valid() && Free(idsOff) && SameOutside(old(buff[..]), buff[..], idsOff, idsOff + nb)
        invariant pos == |Join(pieces[..i])|
        invariant Resolve(page.maps, pieces[..i]) == Some(Slice(buff[..], idsOff, i))
      {
        PieceAt(names[..], pieces, i);
        assert Slice(names[..], pos, |pieces[i]| + 1) == pieces[i] + [0];
        CStrReads(names[..], pos, pieces[i]);
        assert pieces[..i + 1] == pieces[..i] + [pieces[i]];
        ResolveSnoc(page.maps, pieces[..i], pieces[i]);
        var name := CStrAt(names[..], pos);
        var found, id := MapNameResolve(name);
        if !found {
          ResolveFails(page.maps, pieces, i);
          return false;
        }
        ghost var b := buff[..];
        buff[idsOff + i] := id;
        ByteWritten(b, buff[..], idsOff + i, id, idsOff, i);
        Both(old(buff[..]), b, buff[..], idsOff, idsOff + nb, idsOff + i, idsOff + i + 1, idsOff, idsOff + nb);
        Widen(b, buff[..], idsOff + i, idsOff + i + 1, idsOff, idsOff + nb);
        WrittenFresh(b, idsOff, idsOff + nb);
        pos := pos + |name| + 1;
      }
      assert pieces[..nb] == pieces;
      ok := true;
    }

    /** The most recent alias with that name. */
    method AliasFind(name: cstring) returns (alias: Option<Alias>)
      ensures alias == FindAlias(aliases, name)
    {
      var i := 0;
      while i < |aliases|
        invariant 0 <= i <= |aliases| && FindAlias(aliases[i..], name) == FindAlias(aliases, name)
      {
        if aliases[i].name == name { return Some(aliases[i]); }
        i := i + 1;
      }
      return None;
    }

    /** The three pointers of a fresh program record, null where there was no room. */
    method StorePointers(off: nat, dp: nat, ip: nat, ap: nat)
      requires Valid() && Free(off) && off + 9 * c.arch.W() <= page.size
      requires dp < c.arch.Limit() && ip < c.arch.Limit() && ap < c.arch.Limit()
      modifies buff
      ensures Valid() && page.size < buff.Length
      ensures Load(off + 4 * c.arch.W(), c.arch.W()) == ap
      ensures Load(off + 6 * c.arch.W(), c.arch.W()) == ip
      ensures Load(off + 8 * c.arch.W(), c.arch.W()) == dp
    {
      hide LeValue, Pow256, Encodes, Word, Placed, SameOutside;
      Bounds();
      AddressesFit(c, 0);
      var w := c.arch.W();
      ghost var b0 := buff[..];
      StoreWord(buff, off + 8 * w, w, dp);
      ghost var b1 := buff[..];
      StoreWord(buff, off + 6 * w, w, ip);
      ghost var b2 := buff[..];
      StoreWord(buff, off + 4 * w, w, ap);
      PointersKept(b0, b1, b2, buff[..], off, w, page.size);
      WrittenFresh(b0, off, page.size);
    }

    /** Room for a program record and its arrays; the pointers go into the record even when null. */
    method AllocRecord(nd: nat, ni: nat, na: nat) returns (ok: bool, off: nat)
      requires Valid()
      modifies this, buff
      ensures Valid() && mapOffs == old(mapOffs) && progOffs == old(progOffs) && aliases == old(aliases)
      ensures var (z, done) := AllocProg(c, old(page.size), nd, ni, na); page == old(page).(size := z) && ok == done
      ensures ok ==> var w := c.arch.W();
        && off == old(page.size) && Free(off) && off % 8 == 0
        && ArgvOff(c.arch, off, nd, ni) + Align8(na + 1) <= page.size && off + 9 * w <= page.size < buff.Length
        && Load(off + 4 * w, w) == c.Base() + ArgvOff(c.arch, off, nd, ni)
        && Load(off + 6 * w, w) == c.Base() + ImapsOff(c.arch, off, nd)
        && Load(off + 8 * w, w) == c.Base() + DmapsOff(c.arch, off)
    {
      hide LeValue, Pow256, Encodes, Align8, Word, Placed, Alloc, SameOutside;
      Bounds();
      RecordRoom(c.arch);
      AllocFacts(c, page.size, c.arch.ProgSize());
      ghost var lo := page.size;
      var ptr := BuffAlloc(c.arch.ProgSize(), lo);
      if ptr == 0 { return false, 0; }
      off := ptr - c.Base();
      AllocFacts(c, page.size, nd);
      var dp := BuffAlloc(nd, lo);
      AllocFacts(c, page.size, ni);
      var ip := BuffAlloc(ni, lo);
      AllocFacts(c, page.size, na + 1);
      var ap := BuffAlloc(na + 1, lo);
      Bounds();
      StorePointers(off, dp, ip, ap);
      ok := dp != 0 && ip != 0 && ap != 0;
    }

    /** Fill in the fresh record, all but the id arrays. */
    method FillRecord(off: nat, ghost p: ProgEntry, start: nat, end: nat, argv: cstring, nd: nat, ni: nat)
      requires Valid() && Free(off) && off + ProgExtent(c.arch, p) <= page.size < buff.Length
      requires off + 9 * c.arch.W() <= page.size
      requires Load(off + 4 * c.arch.W(), c.arch.W()) == c.Base() + ArgvOff(c.arch, off, nd, ni)
      requires Load(off + 6 * c.arch.W(), c.arch.W()) == c.Base() + ImapsOff(c.arch, off, nd)
      requires Load(off + 8 * c.arch.W(), c.arch.W()) == c.Base() + DmapsOff(c.arch, off)
      requires p.start == start < c.arch.Limit() && p.end == end < c.arch.Limit() && p.argv == argv
      requires |p.dmaps| == nd && |p.imaps| == ni
      modifies buff
      ensures Valid() && ProgFields(c, buff[..], off, p)
    {
      hide LeValue, Encodes, ProgFields, Align8, Word, Placed, SameOutside, ProgExtent;
      Bounds();
      ghost var b := buff[..];
      FillProg(c, buff, off, p, start, end, argv, nd, ni);
      Widen(b, buff[..], off, off + ProgExtent(c.arch, p), off, page.size);
      WrittenFresh(b, off, page.size);
    }

    /** Fill the two id arrays of a record. The code maps come first, so a name unknown among them
        leaves the data maps unresolved. */
    method FillIds(off: nat, ghost p: ProgEntry, nd: nat, ni: nat, imaps: array<byte>, dmaps: array<byte>,
                   ghost inames: seq<seq<byte>>, ghost dnames: seq<seq<byte>>)
      returns (ok: bool)
      requires Valid() && Free(off) && off + ProgExtent(c.arch, p) <= page.size
      requires ProgFields(c, buff[..], off, p)
      requires |p.dmaps| == nd == |dnames| && |p.imaps| == ni == |inames|
      requires imaps != buff && dmaps != buff && Join(inames) <= imaps[..] && Join(dnames) <= dmaps[..]
      requires forall k :: 0 <= k < ni ==> 0 !in inames[k]
      requires forall k :: 0 <= k < nd ==> 0 !in dnames[k]
      modifies buff
      ensures Valid()
      ensures ok == (Resolve(page.maps, inames).Some? && Resolve(page.maps, dnames).Some?)
      ensures ok ==> ProgBody(c, buff[..], off,
        p.(imaps := Resolve(page.maps, inames).value, dmaps := Resolve(page.maps, dnames).value))
    {
      hide LeValue, Encodes, ProgFields, Align8, Word, Placed, SameOutside, Resolve, Join;
      Bounds();
      ProgParts(c.arch, off, p);
      PlacedHigher(c.arch, mapOffs, progOffs, page, page, off, ImapsOff(c.arch, off, nd));
      PlacedHigher(c.arch, mapOffs, progOffs, page, page, off, DmapsOff(c.arch, off));
      ghost var b0 := buff[..];
      ok := MapsAdd2Prog(ImapsOff(c.arch, off, nd), ni, imaps, inames);
      if !ok { return; }
      ghost var b1 := buff[..];
      ok := MapsAdd2Prog(DmapsOff(c.arch, off), nd, dmaps, dnames);
      if !ok { return; }
      ResolveLength(page.maps, inames);
      ResolveLength(page.maps, dnames);
      ProgFieldsFrame(c, b0, b1, off, p, ImapsOff(c.arch, off, nd), ImapsOff(c.arch, off, nd) + ni);
      ProgFieldsFrame(c, b1, buff[..], off, p, DmapsOff(c.arch, off), DmapsOff(c.arch, off) + nd);
      SameSlice(b1, buff[..], DmapsOff(c.arch, off), DmapsOff(c.arch, off) + nd, ImapsOff(c.arch, off, nd), ni);
      ProgFieldsIds(c, buff[..], off, p,
        p.(imaps := Resolve(page.maps, inames).value, dmaps := Resolve(page.maps, dnames).value));
    }

    method AppAdd(name: cstring, imaps: array<byte>, dmaps: array<byte>, appArgv: cstring, exec: bool, ghost a: AppArgs)
      returns (ok: bool)
      requires Valid() && imaps != dmaps && imaps != buff && dmaps != buff
      requires a.argv == appArgv && a.exec == exec
      requires |a.imaps| < imaps.Length && imaps[..|a.imaps|] == a.imaps && imaps[|a.imaps|] == 0
      requires |a.dmaps| < dmaps.Length && dmaps[..|a.dmaps|] == a.dmaps && dmaps[|a.dmaps|] == 0
      modifies this, buff, imaps, dmaps
      ensures Valid() && aliases == old(aliases)
      ensures (page, ok) == AddProg(c, old(page), name, a)
    {
      hide LeValue, Encodes, ProgFields, ProgBody, Align8, Word, Placed, SameOutside, Resolve, Join, Split, AllocProg;
      var alias := AliasFind(name);
      if alias.None? { return false; }
      ghost var inames, dnames := Split(a.imaps, SEMICOLON), Split(a.dmaps, SEMICOLON);
      PiecesAreNames(a.imaps, SEMICOLON);
      PiecesAreNames(a.dmaps, SEMICOLON);
      var ni := MapsParse(imaps, SEMICOLON, a.imaps);
      var nd := MapsParse(dmaps, SEMICOLON, a.dmaps);
      var argv := ExecArgv(appArgv, exec);
      var off;
      ok, off := AllocRecord(nd, ni, |argv|);
      if !ok { return; }
      var start, end := alias.value.addr % c.arch.Limit(), (alias.value.addr + alias.value.size) % U64 % c.arch.Limit();
      ghost var p := ProgEntry(argv, start, end, seq(ni, _ => 0), seq(nd, _ => 0));
      FillRecord(off, p, start, end, argv, nd, ni);
      ok := FillIds(off, p, nd, ni, imaps, dmaps, inames, dnames);
      if !ok { return; }
      ResolveLength(page.maps, inames);
      ResolveLength(page.maps, dnames);
      p := p.(imaps := Resolve(page.maps, inames).value, dmaps := Resolve(page.maps, dnames).value);
      LinkProg(off, p);
    }

    lemma HeaderRoom()
      requires Valid()
      ensures c.arch.HeaderSize() <= buff.Length && Load(IMGSZ_OFF, 4) == page.imgsz && Header(c, buff[..], mapOffs, progOffs, page)
    {
      hide LeValue, Word, Bodies, Ring, Placed;
    }

    method CmdAlias(argv: seq<cstring>) returns (ok: bool)
      requires Valid()
      modifies this, buff
      ensures Valid() && (page, ok) == SyspageSpec.CmdAlias(c, old(page), argv)
    {
      hide LeValue, Encodes, Word, SameOutside, Header;
      HeaderRoom();
      if |argv| != 4 { return false; }
      var addr, size := c.Number(argv[2]), c.Number(argv[3]);
      if addr.None? || size.None? { return false; }
      var top := (addr.value + size.value) % U64;
      aliases := [Alias(Truncate(argv[1], 31), (addr.value + c.pkernel) % U64, size.value)] + aliases;
      ghost var s' := page.(aliases := aliases);
      ghost var b := buff[..];
      if Load(IMGSZ_OFF, 4) < top {
        AddressesFit(c, 0);
        StoreWord(buff, IMGSZ_OFF, 4, top);
        s' := s'.(imgsz := top % U32);
      } else {
        NothingWritten(b, IMGSZ_OFF, IMGSZ_OFF + 4);
      }
      HeaderFieldSet(c, b, buff[..], mapOffs, progOffs, page, s', IMGSZ_OFF);
      HeaderFieldFrame(c, b, buff[..], mapOffs, progOffs, page, s', IMGSZ_OFF, IMGSZ_OFF + 4);
      page := s';
      return true;
    }

    method CmdConsole(argv: seq<cstring>) returns (ok: bool)
      requires Valid()
      modifies this, buff
      ensures Valid() && (page, ok) == SyspageSpec.CmdConsole(c, old(page), argv)
    {
      hide LeValue, Encodes, Word, SameOutside, Header;
      HeaderRoom();
      if |argv| != 2 { return false; }
      var major := c.Strtoul(argv[1]);
      if major.used == |argv[1]| || argv[1][major.used] != DOT { return false; }
      var minor := c.Number(argv[1][major.used + 1..]);
      if minor.None? { return false; }
      ghost var b := buff[..];
      AddressesFit(c, 0);
      StoreWord(buff, ConsoleOff(c.arch), 4, minor.value);
      ghost var s' := page.(console := minor.value % U32);
      HeaderFieldSet(c, b, buff[..], mapOffs, progOffs, page, s', ConsoleOff(c.arch));
      HeaderFieldFrame(c, b, buff[..], mapOffs, progOffs, page, s', ConsoleOff(c.arch), ConsoleOff(c.arch) + 4);
      page := s';
      return true;
    }

    method CmdMap(argv: seq<cstring>) returns (ok: bool)
      requires Valid()
      modifies this, buff
      ensures Valid() && (page, ok) == SyspageSpec.CmdMap(c, old(page), argv)
    {
      hide LeValue, Encodes, StrAttr, Conflicts, AddMap, AttrMask;
      if |argv| != 5 { return false; }
      var start := c.Number(argv[2]);
      if start.None? { return false; }
      var end := c.Number(argv[3]);
      if end.None? { return false; }
      var good, attr := StrAttr2ui(argv[4]);
      if !good { return false; }
      var lo, hi := start.value % c.arch.Limit(), end.value % c.arch.Limit();
      var conflict := MapOverlapping(argv[1], lo, hi);
      if conflict { return false; }
      ok := MapAdd(argv[1], lo, hi, attr);
    }

    method CmdApp(argv: seq<cstring>) returns (ok: bool)
      requires Valid()
      modifies this, buff
      ensures Valid() && (page, ok) == SyspageSpec.CmdApp(c, old(page), argv)
    {
      hide LeValue, Encodes, AddProg, ProgName;
      if |argv| < 5 || |argv| > 6 { return false; }
      var first, exec := 2, false;
      if argv[2] != [] && argv[2][0] == DASH {
        if !IsExecFlag(argv[2]) { return false; }
        first, exec := 3, true;
      }
      if first != |argv| - 3 { return false; }
      var name := NameOfProg(argv[first]);
      var imaps := CopyWord(argv[first + 1]);
      var dmaps := CopyWord(argv[first + 2]);
      ok := AppAdd(name, imaps, dmaps, argv[first], exec,
                   AppArgs(argv[first], argv[first + 1], argv[first + 2], exec));
    }

    /** One line of a script: the commands are looked up by their first word. */
    method ExecLine(argv: seq<cstring>) returns (ok: bool)
      requires Valid()
      modifies this, buff
      ensures Valid() && (page, ok) == Exec(c, old(page), argv)
    {
      hide Encodes, SyspageSpec.CmdAlias, SyspageSpec.CmdMap, SyspageSpec.CmdApp, SyspageSpec.CmdConsole;
      ok := true;
      if argv == [] { return; }
      if argv[0] == CMD_ALIAS {
        ok := CmdAlias(argv);
      } else if argv[0] == CMD_MAP {
        ok := CmdMap(argv);
      } else if argv[0] == CMD_APP {
        ok := CmdApp(argv);
      } else if argv[0] == CMD_CONSOLE {
        ok := CmdConsole(argv);
      }
    }

    /** A whole script. Whether it succeeds or not, reading the raw buffer back, by following its
        pointers, gives exactly the maps and programs that the script means. */
    method ParseScript(script: seq<seq<cstring>>) returns (ok: bool)
      requires Valid()
      modifies this, buff
      ensures Valid() && (page, ok) == Run(c, old(page), script)
      ensures ReadMaps(c, buff[..]) == Some(page.maps) && ReadProgs(c, buff[..]) == Some(page.progs)
    {
      hide Encodes, Exec, ReadMaps, ReadProgs;
      var i := 0;
      while i < |script|
        invariant 0 <= i <= |script| && Valid()
        invariant Run(c, page, script[i..]) == Run(c, old(page), script)
      {
        ok := ExecLine(script[i]);
        if !ok {
          EncodedReads(c, buff[..], mapOffs, progOffs, page);
          return;
        }
        i := i + 1;
      }
      ok := true;
      EncodedReads(c, buff[..], mapOffs, progOffs, page);
    }
  }

  /** The two builders on raw buffers: if every address fits in 32 bits and the 64-bit run succeeds, both
      buffers decode to the same maps and programs, and their console and image size fields are equal. */
  lemma BuffersAgree(c: Config, script: seq<seq<cstring>>,
                     b32: seq<byte>, maps32: seq<nat>, progs32: seq<nat>, b64: seq<byte>, maps64: seq<nat>, progs64: seq<nat>)
    requires forall i :: 0 <= i < |script| ==> LineFits32(c, script[i])
    requires var c32, c64 := c.(arch := Arch32), c.(arch := Arch64);
      && Run(c64, Initial(c64), script).1
      && Encodes(c32, b32, maps32, progs32, Run(c32, Initial(c32), script).0)
      && Encodes(c64, b64, maps64, progs64, Run(c64, Initial(c64), script).0)
    ensures var c32, c64 := c.(arch := Arch32), c.(arch := Arch64);
      && ReadMaps(c32, b32) == ReadMaps(c64, b64) && ReadMaps(c64, b64).Some?
      && ReadProgs(c32, b32) == ReadProgs(c64, b64) && ReadProgs(c64, b64).Some?
      && |b32| >= Arch32.HeaderSize() && |b64| >= Arch64.HeaderSize()
      && Word(b32, IMGSZ_OFF, 4) == Word(b64, IMGSZ_OFF, 4)
      && Word(b32, ConsoleOff(Arch32), 4) == Word(b64, ConsoleOff(Arch64), 4)
  {
    hide Word, Ring, Bodies, Placed, Run, ReadMaps, ReadProgs, LineFits32;
    var c32, c64 := c.(arch := Arch32), c.(arch := Arch64);
    BuildersAgree(c, script);
    EncodedReads(c32, b32, maps32, progs32, Run(c32, Initial(c32), script).0);
    EncodedReads(c64, b64, maps64, progs64, Run(c64, Initial(c64), script).0);
  }

  /** Both builders run the same script. */
  method BuildBoth(c: Config, script: seq<seq<cstring>>) returns (g32: Generator, ok32: bool, g64: Generator, ok64: bool)
    requires c.(arch := Arch32).Valid() && c.(arch := Arch64).Valid()
    requires forall i :: 0 <= i < |script| ==> LineFits32(c, script[i])
    ensures ok64 ==> ok32
    ensures ok64 ==>
      && ReadMaps(g32.c, g32.buff[..]) == ReadMaps(g64.c, g64.buff[..]) && ReadMaps(g64.c, g64.buff[..]).Some?
      && ReadProgs(g32.c, g32.buff[..]) == ReadProgs(g64.c, g64.buff[..]) && ReadProgs(g64.c, g64.buff[..]).Some?
  {
    hide Encodes, LineFits32, ReadMaps, ReadProgs, Run;
    g32 := new Generator(c.(arch := Arch32));
    ok32 := g32.ParseScript(script);
    g64 := new Generator(c.(arch := Arch64));
    ok64 := g64.ParseScript(script);
    if ok64 { BuildersAgree(c, script); }
  }
}
