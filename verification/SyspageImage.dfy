/** The bytes of a syspage: record layouts, where records lie, and how a reader decodes them. */
module SyspageImage {
  import opened Basics
  import opened Bytes
  import opened SyspageSpec

  // ---------- header fields ----------

  const IMGSZ_OFF: nat := 0
  const SIZE_OFF: nat := 4
  function PkernelOff(a: Arch): nat { 4 + a.W() }
  function MapsOff(a: Arch): nat { 4 + 2 * a.W() }
  function ProgsOff(a: Arch): nat { 4 + 3 * a.W() }
  function ConsoleOff(a: Arch): nat { 4 + 4 * a.W() }

  function HeadPtr(c: Config, offs: seq<nat>): nat {
    if offs == [] then 0 else c.Base() + offs[0]
  }

  ghost predicate Header(c: Config, b: seq<byte>, mapOffs: seq<nat>, progOffs: seq<nat>, s: Syspage) {
    var a := c.arch;
    && a.HeaderSize() <= |b|
    && Word(b, IMGSZ_OFF, 4) == s.imgsz
    && Word(b, SIZE_OFF, a.W()) == s.size
    && Word(b, PkernelOff(a), a.W()) == c.pkernel
    && Word(b, MapsOff(a), a.W()) == HeadPtr(c, mapOffs)
    && Word(b, ProgsOff(a), a.W()) == HeadPtr(c, progOffs)
    && Word(b, ConsoleOff(a), 4) == s.console
  }

  // ---------- records ----------

  /** The room a map takes: its record, then its name. */
  function MapExtent(a: Arch, m: MapEntry): nat {
    Align8(a.MapSize()) + Align8(|m.name| + 1)
  }

  /** Where the record's name pointer leads. */
  function NameOff(c: Config, b: seq<byte>, off: nat): int
    requires off + c.arch.MapSize() <= |b|
  {
    Word(b, off + 5 * c.arch.W() + 5, c.arch.W()) - c.Base()
  }

  /** Every field of a map record but its id and the links. */
  ghost predicate MapFields(c: Config, b: seq<byte>, off: nat, m: MapEntry) {
    var w := c.arch.W();
    var nameOff := off + Align8(c.arch.MapSize());
    && off + MapExtent(c.arch, m) <= |b|
    && Word(b, off + 2 * w, w) == 0
    && Word(b, off + 3 * w, w) == m.start
    && Word(b, off + 4 * w, w) == m.end
    && Word(b, off + 5 * w, 4) == m.attr
    && Word(b, off + 5 * w + 5, w) == c.Base() + nameOff
    && Slice(b, nameOff, |m.name| + 1) == m.name + [0]
  }

  ghost predicate MapBody(c: Config, b: seq<byte>, off: nat, m: MapEntry) {
    MapFields(c, b, off, m) && Word(b, off + 5 * c.arch.W() + 4, 1) == m.id
  }

  function ProgExtent(a: Arch, p: ProgEntry): nat {
    Align8(a.ProgSize()) + Align8(|p.dmaps|) + Align8(|p.imaps|) + Align8(|p.argv| + 1)
  }

  /** Where a program's three arrays lie, given how many ids the first two hold. */
  function DmapsOff(a: Arch, off: nat): nat { off + Align8(a.ProgSize()) }
  function ImapsOff(a: Arch, off: nat, nd: nat): nat { DmapsOff(a, off) + Align8(nd) }
  function ArgvOff(a: Arch, off: nat, nd: nat, ni: nat): nat { ImapsOff(a, off, nd) + Align8(ni) }

  /** Every field of a program record but the links, and its arguments. */
  ghost predicate ProgFields(c: Config, b: seq<byte>, off: nat, p: ProgEntry) {
    var w, nd, ni := c.arch.W(), |p.dmaps|, |p.imaps|;
    && off + ProgExtent(c.arch, p) <= |b|
    && Word(b, off + 2 * w, w) == p.start
    && Word(b, off + 3 * w, w) == p.end
    && Word(b, off + 4 * w, w) == c.Base() + ArgvOff(c.arch, off, nd, ni)
    && Word(b, off + 5 * w, w) == ni
    && Word(b, off + 6 * w, w) == c.Base() + ImapsOff(c.arch, off, nd)
    && Word(b, off + 7 * w, w) == nd
    && Word(b, off + 8 * w, w) == c.Base() + DmapsOff(c.arch, off)
    && Slice(b, ArgvOff(c.arch, off, nd, ni), |p.argv| + 1) == p.argv + [0]
  }

  ghost predicate ProgBody(c: Config, b: seq<byte>, off: nat, p: ProgEntry) {
    && ProgFields(c, b, off, p)
    && Slice(b, DmapsOff(c.arch, off), |p.dmaps|) == p.dmaps
    && Slice(b, ImapsOff(c.arch, off, |p.dmaps|), |p.imaps|) == p.imaps
  }

  // ---------- rings ----------

  function Succ(i: nat, n: nat): nat { if i + 1 == n then 0 else i + 1 }
  function Pred(i: nat, n: nat): nat
    requires i < n
  {
    if i == 0 then n - 1 else i - 1
  }

  /** The records at these offsets are linked in this order into a circle, both ways round. */
  ghost predicate Ring(c: Config, b: seq<byte>, offs: seq<nat>) {
    var w := c.arch.W();
    forall i :: 0 <= i < |offs| ==>
      && offs[i] + 2 * w <= |b|
      && Word(b, offs[i], w) == c.Base() + offs[Succ(i, |offs|)]
      && Word(b, offs[i] + w, w) == c.Base() + offs[Pred(i, |offs|)]
  }

  // ---------- placement ----------

  /** Every record and what it owns lies between the header and the bound, 8-aligned, apart from
      every other one. */
  ghost predicate Placed(a: Arch, mapOffs: seq<nat>, progOffs: seq<nat>, s: Syspage, bound: nat) {
    && |mapOffs| == |s.maps| && |progOffs| == |s.progs|
    && (forall i :: 0 <= i < |mapOffs| ==>
      a.HeaderSize() <= mapOffs[i] && mapOffs[i] % 8 == 0 && mapOffs[i] + MapExtent(a, s.maps[i]) <= bound)
    && (forall i :: 0 <= i < |progOffs| ==>
      a.HeaderSize() <= progOffs[i] && progOffs[i] % 8 == 0 && progOffs[i] + ProgExtent(a, s.progs[i]) <= bound)
    && (forall i, j :: 0 <= i < j < |mapOffs| ==> mapOffs[i] + MapExtent(a, s.maps[i]) <= mapOffs[j])
    && (forall i, j :: 0 <= i < j < |progOffs| ==> progOffs[i] + ProgExtent(a, s.progs[i]) <= progOffs[j])
    && (forall i, j :: 0 <= i < |mapOffs| && 0 <= j < |progOffs| ==>
      mapOffs[i] + MapExtent(a, s.maps[i]) <= progOffs[j] || progOffs[j] + ProgExtent(a, s.progs[j]) <= mapOffs[i])
  }

  ghost predicate Bodies(c: Config, b: seq<byte>, mapOffs: seq<nat>, progOffs: seq<nat>, s: Syspage)
    requires |mapOffs| == |s.maps| && |progOffs| == |s.progs|
  {
    && (forall i :: 0 <= i < |mapOffs| ==> MapBody(c, b, mapOffs[i], s.maps[i]))
    && (forall i :: 0 <= i < |progOffs| ==> ProgBody(c, b, progOffs[i], s.progs[i]))
  }

  /** The buffer holds the syspage, with its records at these offsets. */
  ghost predicate Encodes(c: Config, b: seq<byte>, mapOffs: seq<nat>, progOffs: seq<nat>, s: Syspage) {
    && |b| == c.maxsz
    && |mapOffs| == |s.maps| && |progOffs| == |s.progs|
    && c.arch.HeaderSize() <= s.size < c.maxsz && s.size % 8 == 0
    && Header(c, b, mapOffs, progOffs, s)
    && Placed(c.arch, mapOffs, progOffs, s, s.size)
    && Bodies(c, b, mapOffs, progOffs, s)
    && Ring(c, b, mapOffs) && Ring(c, b, progOffs)
  }

  // ---------- framing ----------

  /** Nothing changed but the list head field and the links of these records. */
  ghost predicate SameButLinks(c: Config, b: seq<byte>, b': seq<byte>, headOff: nat, offs: seq<nat>) {
    var w := c.arch.W();
    |b| == |b'| &&
    forall o: nat, n: nat {:trigger Slice(b', o, n)} |
      && o + n <= |b|
      && (o + n <= headOff || headOff + w <= o)
      && (forall k :: 0 <= k < |offs| ==> o + n <= offs[k] || offs[k] + 2 * w <= o) ::
      Slice(b', o, n) == Slice(b, o, n)
  }

  ghost predicate SameWithin(b: seq<byte>, b': seq<byte>, lo: nat, hi: nat) {
    |b| == |b'| &&
    forall o: nat, n: nat {:trigger Slice(b', o, n)} | lo <= o && o + n <= hi <= |b| ::
      Slice(b', o, n) == Slice(b, o, n)
  }

  lemma MapBodyFrame(c: Config, b: seq<byte>, b': seq<byte>, off: nat, m: MapEntry)
    requires MapBody(c, b, off, m)
    requires SameWithin(b, b', off + 2 * c.arch.W(), off + MapExtent(c.arch, m))
    ensures MapBody(c, b', off, m)
  {
    hide LeValue;
  }

  lemma WithinWord(b: seq<byte>, b': seq<byte>, lo: nat, hi: nat, o: nat, w: nat)
    requires SameWithin(b, b', lo, hi) && lo <= o && o + w <= hi <= |b|
    ensures |b'| == |b| && Word(b', o, w) == Word(b, o, w) && Slice(b', o, w) == Slice(b, o, w)
  {
    hide LeValue;
  }

  lemma ProgParts(a: Arch, off: nat, p: ProgEntry)
    ensures var d, i, v := DmapsOff(a, off), ImapsOff(a, off, |p.dmaps|), ArgvOff(a, off, |p.dmaps|, |p.imaps|);
      && off + 9 * a.W() <= d && d + |p.dmaps| <= i && i + |p.imaps| <= v
      && v + |p.argv| + 1 <= off + ProgExtent(a, p)
  {
  }

  lemma ProgBodyFrame(c: Config, b: seq<byte>, b': seq<byte>, off: nat, p: ProgEntry)
    requires ProgBody(c, b, off, p)
    requires SameWithin(b, b', off + 2 * c.arch.W(), off + ProgExtent(c.arch, p))
    ensures ProgBody(c, b', off, p)
  {
    hide LeValue, Word, Slice, SameWithin, ProgExtent, DmapsOff, ImapsOff, ArgvOff;
    ProgParts(c.arch, off, p);
    var w, nd, ni := c.arch.W(), |p.dmaps|, |p.imaps|;
    var lo, hi := off + 2 * w, off + ProgExtent(c.arch, p);
    WithinWord(b, b', lo, hi, off + 2 * w, w);
    WithinWord(b, b', lo, hi, off + 3 * w, w);
    WithinWord(b, b', lo, hi, off + 4 * w, w);
    WithinWord(b, b', lo, hi, off + 5 * w, w);
    WithinWord(b, b', lo, hi, off + 6 * w, w);
    WithinWord(b, b', lo, hi, off + 7 * w, w);
    WithinWord(b, b', lo, hi, off + 8 * w, w);
    WithinWord(b, b', lo, hi, DmapsOff(c.arch, off), nd);
    WithinWord(b, b', lo, hi, ImapsOff(c.arch, off, nd), ni);
    WithinWord(b, b', lo, hi, ArgvOff(c.arch, off, nd, ni), |p.argv| + 1);
  }

  lemma HeaderFrame(c: Config, b: seq<byte>, b': seq<byte>, mapOffs: seq<nat>, progOffs: seq<nat>, s: Syspage)
    requires Header(c, b, mapOffs, progOffs, s)
    requires SameWithin(b, b', 0, c.arch.HeaderSize())
    ensures Header(c, b', mapOffs, progOffs, s)
  {
  }

  lemma RingFrame(c: Config, b: seq<byte>, b': seq<byte>, offs: seq<nat>)
    requires Ring(c, b, offs) && |b| == |b'|
    requires forall i :: 0 <= i < |offs| ==> SameWithin(b, b', offs[i], offs[i] + 2 * c.arch.W())
    ensures Ring(c, b', offs)
  {
    forall i | 0 <= i < |offs|
      ensures Word(b', offs[i], c.arch.W()) == Word(b, offs[i], c.arch.W())
      ensures Word(b', offs[i] + c.arch.W(), c.arch.W()) == Word(b, offs[i] + c.arch.W(), c.arch.W())
    {
      assert SameWithin(b, b', offs[i], offs[i] + 2 * c.arch.W());
    }
  }

  /** Changes outside every record leave the records as they are. */
  lemma BodiesFrame(c: Config, b: seq<byte>, b': seq<byte>, mapOffs: seq<nat>, progOffs: seq<nat>, s: Syspage)
    requires |mapOffs| == |s.maps| && |progOffs| == |s.progs| && Bodies(c, b, mapOffs, progOffs, s)
    requires forall i :: 0 <= i < |mapOffs| ==>
      SameWithin(b, b', mapOffs[i] + 2 * c.arch.W(), mapOffs[i] + MapExtent(c.arch, s.maps[i]))
    requires forall i :: 0 <= i < |progOffs| ==>
      SameWithin(b, b', progOffs[i] + 2 * c.arch.W(), progOffs[i] + ProgExtent(c.arch, s.progs[i]))
    ensures Bodies(c, b', mapOffs, progOffs, s)
  {
    forall i | 0 <= i < |mapOffs| ensures MapBody(c, b', mapOffs[i], s.maps[i]) {
      MapBodyFrame(c, b, b', mapOffs[i], s.maps[i]);
    }
    forall i | 0 <= i < |progOffs| ensures ProgBody(c, b', progOffs[i], s.progs[i]) {
      ProgBodyFrame(c, b, b', progOffs[i], s.progs[i]);
    }
  }

  /** Writing past all records changes nothing that is decoded. */
  lemma FreshFrame(c: Config, b: seq<byte>, b': seq<byte>, mapOffs: seq<nat>, progOffs: seq<nat>, s: Syspage,
                   lo: nat, hi: nat)
    requires Encodes(c, b, mapOffs, progOffs, s)
    requires c.arch.HeaderSize() <= lo <= hi && Placed(c.arch, mapOffs, progOffs, s, lo)
    requires SameOutside(b, b', lo, hi)
    ensures Encodes(c, b', mapOffs, progOffs, s)
  {
    hide MapBody, ProgBody, Header, Align8;
    HeaderFrame(c, b, b', mapOffs, progOffs, s);
    BodiesFrame(c, b, b', mapOffs, progOffs, s);
    RingFrame(c, b, b', mapOffs);
    RingFrame(c, b, b', progOffs);
  }

  lemma PlacedHigher(a: Arch, mapOffs: seq<nat>, progOffs: seq<nat>, s: Syspage, s': Syspage, lo: nat, hi: nat)
    requires Placed(a, mapOffs, progOffs, s, lo) && lo <= hi
    requires s'.maps == s.maps && s'.progs == s.progs
    ensures Placed(a, mapOffs, progOffs, s', hi)
  {
    hide MapExtent, ProgExtent;
  }

  lemma HeaderSizeFrame(c: Config, b: seq<byte>, b': seq<byte>, mapOffs: seq<nat>, progOffs: seq<nat>, s: Syspage, z: nat)
    requires Header(c, b, mapOffs, progOffs, s)
    requires SameOutside(b, b', SIZE_OFF, SIZE_OFF + c.arch.W()) && Word(b', SIZE_OFF, c.arch.W()) == z
    ensures Header(c, b', mapOffs, progOffs, s.(size := z))
  {
  }

  /** Moving the end of the syspage up changes nothing that is decoded. */
  lemma SizeFrame(c: Config, b: seq<byte>, b': seq<byte>, mapOffs: seq<nat>, progOffs: seq<nat>, s: Syspage, z: nat)
    requires Encodes(c, b, mapOffs, progOffs, s)
    requires s.size <= z < c.maxsz && z % 8 == 0
    requires SameOutside(b, b', SIZE_OFF, SIZE_OFF + c.arch.W()) && Word(b', SIZE_OFF, c.arch.W()) == z
    ensures Encodes(c, b', mapOffs, progOffs, s.(size := z))
  {
    hide MapBody, ProgBody, Align8, Ring, Header;
    HeaderSizeFrame(c, b, b', mapOffs, progOffs, s, z);
    PlacedHigher(c.arch, mapOffs, progOffs, s, s.(size := z), s.size, z);
    BodiesFrame(c, b, b', mapOffs, progOffs, s);
    RingFrame(c, b, b', mapOffs);
    RingFrame(c, b, b', progOffs);
  }

  /** Rewriting header fields other than the size and the list heads. */
  lemma HeaderFieldFrame(c: Config, b: seq<byte>, b': seq<byte>, mapOffs: seq<nat>, progOffs: seq<nat>, s: Syspage,
                         s': Syspage, lo: nat, hi: nat)
    requires Encodes(c, b, mapOffs, progOffs, s)
    requires s' == s.(imgsz := s'.imgsz, console := s'.console, aliases := s'.aliases)
    requires hi <= c.arch.HeaderSize() && SameOutside(b, b', lo, hi)
    requires Header(c, b', mapOffs, progOffs, s')
    ensures Encodes(c, b', mapOffs, progOffs, s')
  {
    hide MapBody, ProgBody, Align8, Ring, Header;
    PlacedHigher(c.arch, mapOffs, progOffs, s, s', s.size, s.size);
    BodiesFrame(c, b, b', mapOffs, progOffs, s);
    RingFrame(c, b, b', mapOffs);
    RingFrame(c, b, b', progOffs);
  }

  // ---------- reading a syspage back ----------

  /** The bytes up to the first NUL. */
  function CStrAt(b: seq<byte>, off: nat): cstring
    decreases |b| - off
  {
    if off >= |b| || b[off] == 0 then [] else [b[off]] + CStrAt(b, off + 1)
  }

  function ReadMap(c: Config, b: seq<byte>, off: nat): Option<MapEntry> {
    var w := c.arch.W();
    if off + c.arch.MapSize() > |b| then None else
    var name := Word(b, off + 5 * w + 5, w);
    if name < c.Base() then None else
    Some(MapEntry(CStrAt(b, name - c.Base()), Word(b, off + 3 * w, w), Word(b, off + 4 * w, w),
                  Word(b, off + 5 * w, 4), b[off + 5 * w + 4]))
  }

  function ReadProg(c: Config, b: seq<byte>, off: nat): Option<ProgEntry> {
    var w := c.arch.W();
    if off + c.arch.ProgSize() > |b| then None else
    var argv, ni, ip := Word(b, off + 4 * w, w), Word(b, off + 5 * w, w), Word(b, off + 6 * w, w);
    var nd, dp := Word(b, off + 7 * w, w), Word(b, off + 8 * w, w);
    if argv < c.Base() || ip < c.Base() || dp < c.Base() then None
    else if ip - c.Base() + ni > |b| || dp - c.Base() + nd > |b| then None
    else Some(ProgEntry(CStrAt(b, argv - c.Base()), Word(b, off + 2 * w, w), Word(b, off + 3 * w, w),
                        Slice(b, ip - c.Base(), ni), Slice(b, dp - c.Base(), nd)))
  }

  /** Follow next pointers from a record until they come back to the head; a walk that leaves the
      buffer or does not come back within `fuel` records is no list. */
  function Walk<T>(c: Config, b: seq<byte>, read: nat -> Option<T>, head: nat, ptr: nat, fuel: nat): Option<seq<T>>
    decreases fuel
  {
    if fuel == 0 || ptr < c.Base() || ptr - c.Base() + c.arch.W() > |b| then None else
    var next := Word(b, ptr - c.Base(), c.arch.W());
    match read(ptr - c.Base())
    case None => None
    case Some(entry) =>
      if next == head then Some([entry])
      else match Walk(c, b, read, head, next, fuel - 1)
        case Some(rest) => Some([entry] + rest)
        case None => None
  }

  function ReadList<T>(c: Config, b: seq<byte>, read: nat -> Option<T>, head: nat): Option<seq<T>> {
    if head == 0 then Some([]) else Walk(c, b, read, head, head, |b|)
  }

  function ReadMaps(c: Config, b: seq<byte>): Option<seq<MapEntry>> {
    if |b| < c.arch.HeaderSize() then None else
    ReadList(c, b, (off: nat) => ReadMap(c, b, off), Word(b, MapsOff(c.arch), c.arch.W()))
  }

  function ReadProgs(c: Config, b: seq<byte>): Option<seq<ProgEntry>> {
    if |b| < c.arch.HeaderSize() then None else
    ReadList(c, b, (off: nat) => ReadProg(c, b, off), Word(b, ProgsOff(c.arch), c.arch.W()))
  }

  lemma WordOne(b: seq<byte>, o: nat)
    requires o < |b|
    ensures Word(b, o, 1) == b[o]
  {
    assert Slice(b, o, 1) == [b[o]];
    assert LeValue([b[o]][1..]) == 0;
  }

  lemma {:induction false} CStrReads(b: seq<byte>, off: nat, name: cstring)
    requires off + |name| + 1 <= |b| && Slice(b, off, |name| + 1) == name + [0]
    ensures CStrAt(b, off) == name
    decreases |name|
  {
    assert b[off] == Slice(b, off, |name| + 1)[0] == (name + [0])[0];
    if name != [] {
      assert Slice(b, off + 1, |name|) == Slice(b, off, |name| + 1)[1..];
      assert (name + [0])[1..] == name[1..] + [0];
      CStrReads(b, off + 1, name[1..]);
      assert name == [name[0]] + name[1..];
    }
  }

  lemma MapReads(c: Config, b: seq<byte>, off: nat, m: MapEntry)
    requires MapBody(c, b, off, m)
    ensures ReadMap(c, b, off) == Some(m)
  {
    hide LeValue;
    CStrReads(b, off + Align8(c.arch.MapSize()), m.name);
    WordOne(b, off + 5 * c.arch.W() + 4);
  }

  lemma ProgReads(c: Config, b: seq<byte>, off: nat, p: ProgEntry)
    requires ProgBody(c, b, off, p)
    ensures ReadProg(c, b, off) == Some(p)
  {
    hide LeValue, Pow256, CStrAt, Align8, Slice;
    CStrReads(b, ArgvOff(c.arch, off, |p.dmaps|, |p.imaps|), p.argv);
  }

  /** A walk from the i-th record of a ring reads the records from there on, each once, in order. */
  lemma {:induction false} WalkReads<T>(c: Config, b: seq<byte>, read: nat -> Option<T>, offs: seq<nat>,
                                        entries: seq<T>, i: nat, fuel: nat)
    requires Ring(c, b, offs) && |offs| == |entries| && i < |offs| && fuel >= |offs| - i
    requires forall k, l :: 0 <= k < l < |offs| ==> offs[k] < offs[l]
    requires forall k :: 0 <= k < |offs| ==> read(offs[k]) == Some(entries[k])
    ensures Walk(c, b, read, c.Base() + offs[0], c.Base() + offs[i], fuel) == Some(entries[i..])
    decreases |offs| - i
  {
    hide Word, LeValue;
    assert entries[i..] == [entries[i]] + entries[i + 1..];
    if i + 1 < |offs| {
      assert offs[0] < offs[i + 1];
      WalkReads(c, b, read, offs, entries, i + 1, fuel - 1);
    } else {
      assert entries[i..] == [entries[i]];
    }
  }

  lemma {:induction false} IncreasingBound(offs: seq<nat>, bound: nat)
    requires forall k, l :: 0 <= k < l < |offs| ==> offs[k] < offs[l]
    requires forall k :: 0 <= k < |offs| ==> offs[k] < bound
    ensures |offs| <= bound
  {
    if offs != [] {
      var n := |offs| - 1;
      IncreasingBound(offs[..n], offs[n]);
    }
  }

  lemma ListReads<T>(c: Config, b: seq<byte>, read: nat -> Option<T>, offs: seq<nat>, entries: seq<T>)
    requires Ring(c, b, offs) && |offs| == |entries|
    requires forall k :: 0 <= k < |offs| ==> 0 < offs[k]
    requires forall k, l :: 0 <= k < l < |offs| ==> offs[k] < offs[l]
    requires forall k :: 0 <= k < |offs| ==> read(offs[k]) == Some(entries[k])
    ensures ReadList(c, b, read, HeadPtr(c, offs)) == Some(entries)
  {
    if offs != [] {
      IncreasingBound(offs, |b|);
      WalkReads(c, b, read, offs, entries, 0, |b|);
    }
  }

  /** Decoding a buffer that encodes a syspage gives that syspage's maps and programs back. */
  lemma EncodedReads(c: Config, b: seq<byte>, mapOffs: seq<nat>, progOffs: seq<nat>, s: Syspage)
    requires Encodes(c, b, mapOffs, progOffs, s)
    ensures ReadMaps(c, b) == Some(s.maps)
    ensures ReadProgs(c, b) == Some(s.progs)
  {
    forall k | 0 <= k < |mapOffs| ensures ReadMap(c, b, mapOffs[k]) == Some(s.maps[k]) {
      MapReads(c, b, mapOffs[k], s.maps[k]);
    }
    forall k | 0 <= k < |progOffs| ensures ReadProg(c, b, progOffs[k]) == Some(s.progs[k]) {
      ProgReads(c, b, progOffs[k], s.progs[k]);
    }
    ListReads(c, b, (off: nat) => ReadMap(c, b, off), mapOffs, s.maps);
    ListReads(c, b, (off: nat) => ReadProg(c, b, off), progOffs, s.progs);
  }
}
