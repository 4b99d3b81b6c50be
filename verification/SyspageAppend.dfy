/** Why linking a freshly filled record appends exactly one entry to what the buffer encodes. */
module SyspageAppend {
  import opened Bytes
  import opened SyspageSpec
  import opened SyspageImage

  lemma PlacedAppendMap(a: Arch, mapOffs: seq<nat>, progOffs: seq<nat>, s: Syspage, off: nat, m: MapEntry, bound: nat)
    requires Placed(a, mapOffs, progOffs, s, off)
    requires a.HeaderSize() <= off && off % 8 == 0 && off + MapExtent(a, m) <= bound
    ensures Placed(a, mapOffs + [off], progOffs, s.(maps := s.maps + [m]), bound)
  {
    hide MapExtent, ProgExtent;
  }

  lemma PlacedAppendProg(a: Arch, mapOffs: seq<nat>, progOffs: seq<nat>, s: Syspage, off: nat, p: ProgEntry, bound: nat)
    requires Placed(a, mapOffs, progOffs, s, off)
    requires a.HeaderSize() <= off && off % 8 == 0 && off + ProgExtent(a, p) <= bound
    ensures Placed(a, mapOffs, progOffs + [off], s.(progs := s.progs + [p]), bound)
  {
    hide MapExtent, ProgExtent;
  }

  /** Relinking one list, seen from anything that is not a link of that list. */
  lemma LinksWithin(c: Config, b: seq<byte>, b': seq<byte>, headOff: nat, offs: seq<nat>, lo: nat, hi: nat)
    requires SameButLinks(c, b, b', headOff, offs)
    requires hi <= headOff || headOff + c.arch.W() <= lo
    requires forall k :: 0 <= k < |offs| ==> hi <= offs[k] || offs[k] + 2 * c.arch.W() <= lo
    ensures SameWithin(b, b', lo, hi)
  {
  }

  lemma MapHeader(c: Config, b: seq<byte>, b': seq<byte>, mapOffs: seq<nat>, progOffs: seq<nat>, s: Syspage,
                  mapOffs': seq<nat>, m: MapEntry)
    requires Header(c, b, mapOffs, progOffs, s)
    requires SameButLinks(c, b, b', MapsOff(c.arch), mapOffs')
    requires forall k :: 0 <= k < |mapOffs'| ==> c.arch.HeaderSize() <= mapOffs'[k]
    requires Word(b', MapsOff(c.arch), c.arch.W()) == HeadPtr(c, mapOffs')
    ensures Header(c, b', mapOffs', progOffs, s.(maps := s.maps + [m]))
  {
    hide LeValue, HeadPtr;
  }

  lemma ProgHeader(c: Config, b: seq<byte>, b': seq<byte>, mapOffs: seq<nat>, progOffs: seq<nat>, s: Syspage,
                   progOffs': seq<nat>, p: ProgEntry)
    requires Header(c, b, mapOffs, progOffs, s)
    requires SameButLinks(c, b, b', ProgsOff(c.arch), progOffs')
    requires forall k :: 0 <= k < |progOffs'| ==> c.arch.HeaderSize() <= progOffs'[k]
    requires Word(b', ProgsOff(c.arch), c.arch.W()) == HeadPtr(c, progOffs')
    ensures Header(c, b', mapOffs, progOffs', s.(progs := s.progs + [p]))
  {
    hide LeValue, HeadPtr;
  }

  /** Records, and what they own, keep their distance from the links of the map list. */
  lemma MapLinksApart(c: Config, b: seq<byte>, b': seq<byte>, mapOffs: seq<nat>, progOffs: seq<nat>, s: Syspage, bound: nat)
    requires Placed(c.arch, mapOffs, progOffs, s, bound)
    requires SameButLinks(c, b, b', MapsOff(c.arch), mapOffs)
    ensures forall i :: 0 <= i < |mapOffs| ==>
      SameWithin(b, b', mapOffs[i] + 2 * c.arch.W(), mapOffs[i] + MapExtent(c.arch, s.maps[i]))
    ensures forall i :: 0 <= i < |progOffs| ==>
      SameWithin(b, b', progOffs[i], progOffs[i] + ProgExtent(c.arch, s.progs[i]))
  {
    hide SameButLinks, SameWithin;
    forall i | 0 <= i < |mapOffs|
      ensures SameWithin(b, b', mapOffs[i] + 2 * c.arch.W(), mapOffs[i] + MapExtent(c.arch, s.maps[i]))
    {
      LinksWithin(c, b, b', MapsOff(c.arch), mapOffs, mapOffs[i] + 2 * c.arch.W(), mapOffs[i] + MapExtent(c.arch, s.maps[i]));
    }
    forall i | 0 <= i < |progOffs|
      ensures SameWithin(b, b', progOffs[i], progOffs[i] + ProgExtent(c.arch, s.progs[i]))
    {
      LinksWithin(c, b, b', MapsOff(c.arch), mapOffs, progOffs[i], progOffs[i] + ProgExtent(c.arch, s.progs[i]));
    }
  }

  lemma ProgLinksApart(c: Config, b: seq<byte>, b': seq<byte>, mapOffs: seq<nat>, progOffs: seq<nat>, s: Syspage, bound: nat)
    requires Placed(c.arch, mapOffs, progOffs, s, bound)
    requires SameButLinks(c, b, b', ProgsOff(c.arch), progOffs)
    ensures forall i :: 0 <= i < |mapOffs| ==>
      SameWithin(b, b', mapOffs[i], mapOffs[i] + MapExtent(c.arch, s.maps[i]))
    ensures forall i :: 0 <= i < |progOffs| ==>
      SameWithin(b, b', progOffs[i] + 2 * c.arch.W(), progOffs[i] + ProgExtent(c.arch, s.progs[i]))
  {
    hide SameButLinks, SameWithin;
    forall i | 0 <= i < |mapOffs|
      ensures SameWithin(b, b', mapOffs[i], mapOffs[i] + MapExtent(c.arch, s.maps[i]))
    {
      LinksWithin(c, b, b', ProgsOff(c.arch), progOffs, mapOffs[i], mapOffs[i] + MapExtent(c.arch, s.maps[i]));
    }
    forall i | 0 <= i < |progOffs|
      ensures SameWithin(b, b', progOffs[i] + 2 * c.arch.W(), progOffs[i] + ProgExtent(c.arch, s.progs[i]))
    {
      LinksWithin(c, b, b', ProgsOff(c.arch), progOffs, progOffs[i] + 2 * c.arch.W(), progOffs[i] + ProgExtent(c.arch, s.progs[i]));
    }
  }

  /** From filled to linked: the buffer now encodes one map more, and nothing else has changed. */
  lemma MapAppended(c: Config, b: seq<byte>, b': seq<byte>, mapOffs: seq<nat>, progOffs: seq<nat>, s: Syspage,
                    off: nat, m: MapEntry)
    requires Encodes(c, b, mapOffs, progOffs, s) && Placed(c.arch, mapOffs, progOffs, s, off)
    requires c.arch.HeaderSize() <= off && off % 8 == 0 && off + MapExtent(c.arch, m) <= s.size
    requires MapBody(c, b, off, m)
    requires SameButLinks(c, b, b', MapsOff(c.arch), mapOffs + [off])
    requires Ring(c, b', mapOffs + [off]) && Word(b', MapsOff(c.arch), c.arch.W()) == HeadPtr(c, mapOffs + [off])
    ensures Encodes(c, b', mapOffs + [off], progOffs, s.(maps := s.maps + [m]))
  {
    hide MapBody, ProgBody, Ring, Header, SameButLinks, Word, MapExtent, ProgExtent, SameWithin, Align8;
    var offs', s' := mapOffs + [off], s.(maps := s.maps + [m]);
    PlacedAppendMap(c.arch, mapOffs, progOffs, s, off, m, s.size);
    MapLinksApart(c, b, b', offs', progOffs, s', s.size);
    MapHeader(c, b, b', mapOffs, progOffs, s, offs', m);
    forall i | 0 <= i < |offs'| ensures MapBody(c, b', offs'[i], s'.maps[i]) {
      MapBodyFrame(c, b, b', offs'[i], s'.maps[i]);
    }
    forall i | 0 <= i < |progOffs| ensures ProgBody(c, b', progOffs[i], s'.progs[i]) {
      SameWithinPart(b, b', progOffs[i], progOffs[i] + ProgExtent(c.arch, s.progs[i]), progOffs[i] + 2 * c.arch.W());
      ProgBodyFrame(c, b, b', progOffs[i], s'.progs[i]);
    }
    forall i | 0 <= i < |progOffs| ensures SameWithin(b, b', progOffs[i], progOffs[i] + 2 * c.arch.W()) {
      ExtentsHoldLinks(c.arch, s'.progs[i]);
      SameWithinPrefix(b, b', progOffs[i], progOffs[i] + ProgExtent(c.arch, s.progs[i]), progOffs[i] + 2 * c.arch.W());
    }
    LinksLength(c, b, b', MapsOff(c.arch), offs');
    RingFrame(c, b, b', progOffs);
  }

  lemma ProgAppended(c: Config, b: seq<byte>, b': seq<byte>, mapOffs: seq<nat>, progOffs: seq<nat>, s: Syspage,
                     off: nat, p: ProgEntry)
    requires Encodes(c, b, mapOffs, progOffs, s) && Placed(c.arch, mapOffs, progOffs, s, off)
    requires c.arch.HeaderSize() <= off && off % 8 == 0 && off + ProgExtent(c.arch, p) <= s.size
    requires ProgBody(c, b, off, p)
    requires SameButLinks(c, b, b', ProgsOff(c.arch), progOffs + [off])
    requires Ring(c, b', progOffs + [off]) && Word(b', ProgsOff(c.arch), c.arch.W()) == HeadPtr(c, progOffs + [off])
    ensures Encodes(c, b', mapOffs, progOffs + [off], s.(progs := s.progs + [p]))
  {
    hide MapBody, ProgBody, Ring, Header, SameButLinks, Word, MapExtent, ProgExtent, SameWithin, Align8;
    var offs', s' := progOffs + [off], s.(progs := s.progs + [p]);
    PlacedAppendProg(c.arch, mapOffs, progOffs, s, off, p, s.size);
    ProgLinksApart(c, b, b', mapOffs, offs', s', s.size);
    ProgHeader(c, b, b', mapOffs, progOffs, s, offs', p);
    forall i | 0 <= i < |offs'| ensures ProgBody(c, b', offs'[i], s'.progs[i]) {
      ProgBodyFrame(c, b, b', offs'[i], s'.progs[i]);
    }
    forall i | 0 <= i < |mapOffs| ensures MapBody(c, b', mapOffs[i], s'.maps[i]) {
      SameWithinPart(b, b', mapOffs[i], mapOffs[i] + MapExtent(c.arch, s.maps[i]), mapOffs[i] + 2 * c.arch.W());
      MapBodyFrame(c, b, b', mapOffs[i], s'.maps[i]);
    }
    forall i | 0 <= i < |mapOffs| ensures SameWithin(b, b', mapOffs[i], mapOffs[i] + 2 * c.arch.W()) {
      ExtentHoldsLinks(c.arch, s'.maps[i]);
      SameWithinPrefix(b, b', mapOffs[i], mapOffs[i] + MapExtent(c.arch, s.maps[i]), mapOffs[i] + 2 * c.arch.W());
    }
    LinksLength(c, b, b', ProgsOff(c.arch), offs');
    RingFrame(c, b, b', mapOffs);
  }

  lemma LinksLength(c: Config, b: seq<byte>, b': seq<byte>, headOff: nat, offs: seq<nat>)
    requires SameButLinks(c, b, b', headOff, offs)
    ensures |b| == |b'|
  {
  }

  lemma SameWithinPart(b: seq<byte>, b': seq<byte>, lo: nat, hi: nat, lo': nat)
    requires SameWithin(b, b', lo, hi) && lo <= lo'
    ensures SameWithin(b, b', lo', hi)
  {
  }

  lemma SameWithinPrefix(b: seq<byte>, b': seq<byte>, lo: nat, hi: nat, hi': nat)
    requires SameWithin(b, b', lo, hi) && hi' <= hi <= |b|
    ensures SameWithin(b, b', lo, hi')
  {
  }

  lemma ExtentHoldsLinks(a: Arch, m: MapEntry)
    ensures 2 * a.W() <= MapExtent(a, m)
  {
  }

  lemma ExtentsHoldLinks(a: Arch, p: ProgEntry)
    ensures 2 * a.W() <= ProgExtent(a, p)
  {
  }

  function WithLastId(s: Syspage, id: byte): Syspage
    requires s.maps != []
  {
    var n := |s.maps| - 1;
    s.(maps := s.maps[..n] + [s.maps[n].(id := id)])
  }

  lemma IdMapBodies(c: Config, b: seq<byte>, b': seq<byte>, mapOffs: seq<nat>, progOffs: seq<nat>, s: Syspage, id: byte,
                    i: nat)
    requires i < |mapOffs| && s.maps != []
    requires var at := mapOffs[|mapOffs| - 1] + 5 * c.arch.W() + 4;
      at + 1 <= |b| && SameOutside(b, b', at, at + 1) && Word(b', at, 1) == id
    requires Placed(c.arch, mapOffs, progOffs, s, s.size) && MapBody(c, b, mapOffs[i], s.maps[i])
    ensures MapBody(c, b', mapOffs[i], WithLastId(s, id).maps[i])
  {
    hide Word, Align8, SameOutside, MapBody, MapExtent, ProgExtent;
    var n := |mapOffs| - 1;
    var at := mapOffs[n] + 5 * c.arch.W() + 4;
    if i < n {
      OutsideWithin(b, b', at, at + 1, mapOffs[i] + 2 * c.arch.W(), mapOffs[i] + MapExtent(c.arch, s.maps[i]));
      MapBodyFrame(c, b, b', mapOffs[i], s.maps[i]);
    } else {
      LastBody(c, b, b', mapOffs[n], s.maps[n], id);
    }
  }

  lemma IdApart(c: Config, b: seq<byte>, b': seq<byte>, mapOffs: seq<nat>, progOffs: seq<nat>, s: Syspage)
    requires mapOffs != [] && s.maps != []
    requires var at := mapOffs[|mapOffs| - 1] + 5 * c.arch.W() + 4; at + 1 <= |b| && SameOutside(b, b', at, at + 1)
    requires Placed(c.arch, mapOffs, progOffs, s, s.size)
    ensures |b| == |b'| && SameWithin(b, b', 0, c.arch.HeaderSize())
    ensures forall i :: 0 <= i < |mapOffs| ==> SameWithin(b, b', mapOffs[i], mapOffs[i] + 2 * c.arch.W())
    ensures forall i :: 0 <= i < |progOffs| ==> SameWithin(b, b', progOffs[i], progOffs[i] + ProgExtent(c.arch, s.progs[i]))
  {
    hide Align8, SameOutside, MapExtent, ProgExtent, SameWithin;
    var n := |mapOffs| - 1;
    var at := mapOffs[n] + 5 * c.arch.W() + 4;
    IdWithin(c.arch, s.maps[n]);
    OutsideLength(b, b', at, at + 1);
    OutsideWithin(b, b', at, at + 1, 0, c.arch.HeaderSize());
    forall i | 0 <= i < |mapOffs| ensures SameWithin(b, b', mapOffs[i], mapOffs[i] + 2 * c.arch.W()) {
      ExtentHoldsLinks(c.arch, s.maps[i]);
      OutsideWithin(b, b', at, at + 1, mapOffs[i], mapOffs[i] + 2 * c.arch.W());
    }
    forall i | 0 <= i < |progOffs|
      ensures SameWithin(b, b', progOffs[i], progOffs[i] + ProgExtent(c.arch, s.progs[i]))
    {
      OutsideWithin(b, b', at, at + 1, progOffs[i], progOffs[i] + ProgExtent(c.arch, s.progs[i]));
    }
  }

  /** Numbering the last map changes its id and nothing else. */
  lemma IdFrame(c: Config, b: seq<byte>, b': seq<byte>, mapOffs: seq<nat>, progOffs: seq<nat>, s: Syspage, id: byte)
    requires mapOffs != [] && s.maps != []
    requires var at := mapOffs[|mapOffs| - 1] + 5 * c.arch.W() + 4;
      at + 1 <= |b| && SameOutside(b, b', at, at + 1) && Word(b', at, 1) == id
    requires Encodes(c, b, mapOffs, progOffs, s)
    ensures Encodes(c, b', mapOffs, progOffs, WithLastId(s, id))
  {
    hide Word, ProgBody, Ring, Header, SameWithin, Align8, SameOutside, MapBody, MapExtent, ProgExtent, Placed;
    IdApart(c, b, b', mapOffs, progOffs, s);
    HeaderFrame(c, b, b', mapOffs, progOffs, s);
    HeaderMaps(c, b', mapOffs, progOffs, s, WithLastId(s, id));
    forall i | 0 <= i < |mapOffs| ensures MapBody(c, b', mapOffs[i], WithLastId(s, id).maps[i]) {
      IdMapBodies(c, b, b', mapOffs, progOffs, s, id, i);
    }
    forall i | 0 <= i < |progOffs|
      ensures ProgBody(c, b', progOffs[i], s.progs[i]) && SameWithin(b, b', progOffs[i], progOffs[i] + 2 * c.arch.W())
    {
      KeptProg(c, b, b', progOffs[i], s.progs[i]);
    }
    RingFrame(c, b, b', mapOffs);
    RingFrame(c, b, b', progOffs);
    PlacedIds(c.arch, mapOffs, progOffs, s, WithLastId(s, id));
  }

  lemma KeptProg(c: Config, b: seq<byte>, b': seq<byte>, off: nat, p: ProgEntry)
    requires ProgBody(c, b, off, p) && SameWithin(b, b', off, off + ProgExtent(c.arch, p))
    ensures ProgBody(c, b', off, p) && SameWithin(b, b', off, off + 2 * c.arch.W())
  {
    hide Word, SameWithin, Align8;
    ExtentsHoldLinks(c.arch, p);
    SameWithinPart(b, b', off, off + ProgExtent(c.arch, p), off + 2 * c.arch.W());
    ProgBodyFrame(c, b, b', off, p);
    SameWithinPrefix(b, b', off, off + ProgExtent(c.arch, p), off + 2 * c.arch.W());
  }

  lemma OutsideLength(b: seq<byte>, b': seq<byte>, lo: nat, hi: nat)
    requires SameOutside(b, b', lo, hi)
    ensures |b| == |b'|
  {
  }

  lemma OutsideWithin(b: seq<byte>, b': seq<byte>, lo: nat, hi: nat, lo': nat, hi': nat)
    requires SameOutside(b, b', lo, hi) && (hi' <= lo || hi <= lo')
    ensures SameWithin(b, b', lo', hi')
  {
  }

  lemma IdWithin(a: Arch, m: MapEntry)
    ensures 5 * a.W() + 5 <= MapExtent(a, m)
  {
  }

  lemma HeaderMaps(c: Config, b: seq<byte>, mapOffs: seq<nat>, progOffs: seq<nat>, s: Syspage, s': Syspage)
    requires Header(c, b, mapOffs, progOffs, s) && s' == s.(maps := s'.maps)
    ensures Header(c, b, mapOffs, progOffs, s')
  {
    hide LeValue, HeadPtr;
  }

  lemma PlacedIds(a: Arch, mapOffs: seq<nat>, progOffs: seq<nat>, s: Syspage, s': Syspage)
    requires Placed(a, mapOffs, progOffs, s, s.size) && s' == s.(maps := s'.maps) && |s.maps| == |s'.maps|
    requires forall i :: 0 <= i < |s.maps| ==> s'.maps[i].name == s.maps[i].name
    ensures Placed(a, mapOffs, progOffs, s', s'.size)
  {
    hide ProgExtent, Align8;
    assert forall i :: 0 <= i < |s.maps| ==> MapExtent(a, s'.maps[i]) == MapExtent(a, s.maps[i]);
  }

  lemma LastBody(c: Config, b: seq<byte>, b': seq<byte>, off: nat, m: MapEntry, id: byte)
    requires MapBody(c, b, off, m)
    requires var at := off + 5 * c.arch.W() + 4; SameOutside(b, b', at, at + 1) && Word(b', at, 1) == id
    ensures MapBody(c, b', off, m.(id := id))
  {
    hide LeValue;
  }
}
