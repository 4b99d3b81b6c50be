/** The walk of mkrofs over a directory tree, and why its flat list of nodes still is the tree. */
module RofsTree {
  import opened Basics
  import opened Bytes

  const NAME_SIZE: nat := 207
  const HEADER_SIZE: nat := 64
  const ROOT_PARENT: nat := 0xffff_ffff

  const DOT: cstring := [46]
  const DOTDOT: cstring := [46, 46]

  // ---------- the source ----------

  /** What stat says, with the most recent of its three times. */
  datatype Stat = Stat(mode: nat, uid: nat, gid: nat, time: nat, size: nat)

  /** What stands behind a directory entry: nothing stat can see, a directory, a regular file that can
      or cannot be opened, or something else. */
  datatype What = Unseen
                | Dir(st: Stat, entries: seq<Entry>)
                | RegFile(st: Stat, readable: bool, content: seq<byte>)
                | Other

  datatype Entry = Entry(name: cstring, what: What)

  function Kind(mode: nat): nat { mode / 0x1000 % 0x10 }
  predicate IsDir(mode: nat) { Kind(mode) == 4 }
  predicate IsReg(mode: nat) { Kind(mode) == 8 }

  /** The mode without the write bits of owner, group and others. */
  function ClearWrite(mode: nat): nat {
    mode - (mode / 0x80 % 2) * 0x80 - (mode / 0x10 % 2) * 0x10 - (mode / 2 % 2) * 2
  }

  /** The write bits among the digits of a mode. */
  lemma ClearWriteDigits(q: nat, a: nat, b: nat, c: nat, d: nat, e: nat, f: nat, g: nat)
    requires a < 16 && b < 2 && c < 4 && d < 2 && e < 4 && f < 2 && g < 2
    ensures ClearWrite(0x1000 * q + 0x100 * a + 0x80 * b + 0x20 * c + 0x10 * d + 4 * e + 2 * f + g) ==
            0x1000 * q + 0x100 * a + 0x20 * c + 4 * e + g
  {
    var m := 0x1000 * q + 0x100 * a + 0x80 * b + 0x20 * c + 0x10 * d + 4 * e + 2 * f + g;
    BitAt80(m, 0x10 * q + a, b, 0x20 * c + 0x10 * d + 4 * e + 2 * f + g);
    BitAt10(m, 0x80 * q + 8 * a + 4 * b + c, d, 4 * e + 2 * f + g);
    BitAt2(m, 0x400 * q + 0x40 * a + 0x20 * b + 8 * c + 4 * d + e, f, g);
  }

  lemma BitAt80(m: nat, high: nat, bit: nat, low: nat)
    requires bit < 2 && low < 0x80 && m == 0x100 * high + 0x80 * bit + low
    ensures m / 0x80 % 2 == bit
  {
  }

  lemma BitAt10(m: nat, high: nat, bit: nat, low: nat)
    requires bit < 2 && low < 0x10 && m == 0x20 * high + 0x10 * bit + low
    ensures m / 0x10 % 2 == bit
  {
  }

  lemma BitAt2(m: nat, high: nat, bit: nat, low: nat)
    requires bit < 2 && low < 2 && m == 4 * high + 2 * bit + low
    ensures m / 2 % 2 == bit
  {
  }

  lemma Digits(r: nat) returns (a: nat, b: nat, c: nat, d: nat, e: nat, f: nat, g: nat)
    requires r < 0x1000
    ensures a < 16 && b < 2 && c < 4 && d < 2 && e < 4 && f < 2 && g < 2
    ensures r == 0x100 * a + 0x80 * b + 0x20 * c + 0x10 * d + 4 * e + 2 * f + g
  {
    a, b := r / 0x100, r % 0x100 / 0x80;
    var r1 := r % 0x80;
    assert r == 0x100 * a + 0x80 * b + r1;
    c, d := r1 / 0x20, r1 % 0x20 / 0x10;
    var r2 := r1 % 0x10;
    assert r1 == 0x20 * c + 0x10 * d + r2;
    e, f, g := r2 / 4, r2 % 4 / 2, r2 % 2;
  }

  lemma ClearWriteKeepsKind(mode: nat)
    ensures Kind(ClearWrite(mode)) == Kind(mode) && ClearWrite(mode) <= mode
    ensures ClearWrite(ClearWrite(mode)) == ClearWrite(mode)
  {
    hide ClearWrite;
    var q := mode / 0x1000;
    var a, b, c, d, e, f, g := Digits(mode % 0x1000);
    ClearWriteDigits(q, a, b, c, d, e, f, g);
    ClearWriteDigits(q, a, 0, c, 0, e, 0, g);
    var low := 0x100 * a + 0x20 * c + 4 * e + g;
    assert ClearWrite(mode) == 0x1000 * q + low && low < 0x1000;
  }

  predicate StatOk(st: Stat) {
    st.mode < U32 && st.uid < U32 && st.gid < U32 && st.time < U64
  }

  /** Entries as the operating system gives them: the mode tells the kind, and a file is as long as
      stat said. */
  predicate WhatOk(w: What)
    decreases w
  {
    match w
    case Unseen => true
    case Dir(st, entries) => StatOk(st) && IsDir(st.mode) && EntriesOk(entries)
    case RegFile(st, readable, content) => StatOk(st) && IsReg(st.mode) && st.size == |content|
    case Other => true
  }

  predicate EntriesOk(es: seq<Entry>)
    decreases es
  {
    es == [] || (WhatOk(es[0].what) && EntriesOk(es[1..]))
  }

  predicate Skipped(e: Entry) { e.name == DOT || e.name == DOTDOT }

  // ---------- nodes ----------

  datatype Node = Node(
    timestamp: nat, parentId: nat, id: nat, mode: nat, uid: nat, gid: nat, offset: nat, size: nat, name: cstring)

  function CutName(name: cstring): (r: cstring)
    ensures |r| <= NAME_SIZE
  {
    if |name| >= NAME_SIZE then name[..NAME_SIZE] else name
  }

  function DirNode(name: cstring, st: Stat, parentId: nat, id: nat): Node {
    Node(st.time, parentId, id, ClearWrite(st.mode), st.uid, st.gid, 0, 0, CutName(name))
  }

  function FileNode(name: cstring, st: Stat, parentId: nat, id: nat, offset: nat): Node {
    Node(st.time, parentId, id, ClearWrite(st.mode), st.uid, st.gid, offset, st.size % U32, CutName(name))
  }

  /** Nodes and file data in the order the walk produces them. */
  datatype Flat = Flat(nodes: seq<Node>, data: seq<byte>) {
    function Then(next: Flat): Flat { Flat(nodes + next.nodes, data + next.data) }
  }

  function FlattenDir(name: cstring, st: Stat, entries: seq<Entry>, parentId: nat, id: nat, offset: nat): Flat
    decreases entries, 1
  {
    Flat([DirNode(name, st, parentId, id)], []).Then(FlattenEntries(entries, id, id + 1, offset))
  }

  function FlattenEntries(es: seq<Entry>, dirId: nat, id: nat, offset: nat): Flat
    decreases es, 0
  {
    if es == [] then Flat([], [])
    else
      var first := FlattenEntry(es[0], dirId, id, offset);
      first.Then(FlattenEntries(es[1..], dirId, id + |first.nodes|, offset + |first.data|))
  }

  function FlattenEntry(e: Entry, dirId: nat, id: nat, offset: nat): Flat
    decreases e
  {
    if Skipped(e) then Flat([], []) else
    match e.what
    case Dir(st, entries) => FlattenDir(e.name, st, entries, dirId, id, offset)
    case RegFile(st, readable, content) =>
      if readable then Flat([FileNode(e.name, st, dirId, id, offset)], content) else Flat([], [])
    case _ => Flat([], [])
  }

  /** How many directories deep a directory nests, itself included. */
  function Depth(entries: seq<Entry>): (d: nat)
    ensures d >= 1
    decreases entries
  {
    if entries == [] then 1
    else
      var rest := Depth(entries[1..]);
      var e := entries[0];
      if !Skipped(e) && e.what.Dir? && 1 + Depth(e.what.entries) > rest then 1 + Depth(e.what.entries) else rest
  }

  // ---------- the tree that an image stands for ----------

  datatype Tree = TDir(name: cstring, mode: nat, uid: nat, gid: nat, time: nat, kids: seq<Tree>)
                | TFile(name: cstring, mode: nat, uid: nat, gid: nat, time: nat, content: seq<byte>)

  /** The source tree as it is meant to be stored: names cut, write bits cleared, everything that is
      not a directory or a readable file dropped. */
  function Meant(name: cstring, st: Stat, entries: seq<Entry>): Tree
    decreases entries, 1
  {
    TDir(CutName(name), ClearWrite(st.mode), st.uid, st.gid, st.time, MeantKids(entries))
  }

  function MeantKids(es: seq<Entry>): seq<Tree>
    decreases es, 0
  {
    if es == [] then [] else MeantEntry(es[0]) + MeantKids(es[1..])
  }

  function MeantEntry(e: Entry): seq<Tree>
    decreases e
  {
    if Skipped(e) then [] else
    match e.what
    case Dir(st, entries) => [Meant(e.name, st, entries)]
    case RegFile(st, readable, content) =>
      if readable then [TFile(CutName(e.name), ClearWrite(st.mode), st.uid, st.gid, st.time, content)] else []
    case _ => []
  }

  /** The tree in a list of nodes: the nodes that name a directory as their parent are in it, in the
      order of the list; the content of a file is a stretch of the image. */
  function Rebuild(nodes: seq<Node>, image: seq<byte>, i: nat): Tree
    requires i < |nodes|
    decreases |nodes| - i, 1, 0
  {
    var n := nodes[i];
    if IsDir(n.mode) then TDir(n.name, n.mode, n.uid, n.gid, n.timestamp, RebuildKids(nodes, image, i, i + 1))
    else TFile(n.name, n.mode, n.uid, n.gid, n.timestamp, Stretch(image, n.offset, n.size))
  }

  function RebuildKids(nodes: seq<Node>, image: seq<byte>, parent: nat, j: nat): seq<Tree>
    requires parent < j
    decreases |nodes| - parent, 0, |nodes| - j
  {
    if j >= |nodes| then []
    else if nodes[j].parentId == parent then [Rebuild(nodes, image, j)] + RebuildKids(nodes, image, parent, j + 1)
    else RebuildKids(nodes, image, parent, j + 1)
  }

  function Stretch(image: seq<byte>, offset: nat, size: nat): seq<byte> {
    if offset + size <= |image| then image[offset..offset + size] else []
  }

  // ---------- the list determines the tree ----------

  /** Nodes are numbered in order, and hang below `dirId` or below an earlier node of their own list. */
  ghost predicate Numbered(nodes: seq<Node>, dirId: nat, id: nat) {
    forall k :: 0 <= k < |nodes| ==>
      nodes[k].id == id + k && (nodes[k].parentId == dirId || id <= nodes[k].parentId < id + k)
  }

  lemma NumberedThen(a: seq<Node>, b: seq<Node>, dirId: nat, id: nat)
    requires Numbered(a, dirId, id) && Numbered(b, dirId, id + |a|)
    ensures Numbered(a + b, dirId, id)
  {
  }

  /** A directory's own list, under its parent: all its nodes hang below it or below one another. */
  lemma NumberedUnder(a: Node, b: seq<Node>, parentId: nat, id: nat)
    requires a.id == id && a.parentId == parentId && Numbered(b, id, id + 1)
    ensures Numbered([a] + b, parentId, id)
    ensures forall k :: 0 < k <= |b| ==> id <= ([a] + b)[k].parentId < id + k
  {
    forall k | 0 <= k < |[a] + b|
      ensures ([a] + b)[k].id == id + k && (k > 0 ==> id <= ([a] + b)[k].parentId < id + k)
    {
      if k > 0 { assert ([a] + b)[k] == b[k - 1]; }
    }
  }

  lemma {:induction false} FlattenDirNumbered(name: cstring, st: Stat, es: seq<Entry>, parentId: nat, id: nat, offset: nat)
    ensures Numbered(FlattenDir(name, st, es, parentId, id, offset).nodes, parentId, id)
    ensures var nodes := FlattenDir(name, st, es, parentId, id, offset).nodes;
      forall k :: 0 < k < |nodes| ==> id <= nodes[k].parentId < id + k
    decreases es, 1
  {
    hide Numbered;
    FlattenEntriesNumbered(es, id, id + 1, offset);
    NumberedUnder(DirNode(name, st, parentId, id), FlattenEntries(es, id, id + 1, offset).nodes, parentId, id);
  }

  lemma {:induction false} FlattenEntriesNumbered(es: seq<Entry>, dirId: nat, id: nat, offset: nat)
    ensures Numbered(FlattenEntries(es, dirId, id, offset).nodes, dirId, id)
    decreases es, 0
  {
    if es != [] {
      var first := FlattenEntry(es[0], dirId, id, offset);
      FlattenEntryNumbered(es[0], dirId, id, offset);
      FlattenEntriesNumbered(es[1..], dirId, id + |first.nodes|, offset + |first.data|);
      NumberedThen(first.nodes, FlattenEntries(es[1..], dirId, id + |first.nodes|, offset + |first.data|).nodes, dirId, id);
    }
  }

  lemma {:induction false} FlattenEntryNumbered(e: Entry, dirId: nat, id: nat, offset: nat)
    ensures Numbered(FlattenEntry(e, dirId, id, offset).nodes, dirId, id)
    decreases e
  {
    if !Skipped(e) && e.what.Dir? {
      FlattenDirNumbered(e.name, e.what.st, e.what.entries, dirId, id, offset);
    }
  }

  /** The list holds these nodes from index `id` on, the image these data from `offset` on, and no later
      node hangs below one of them. */
  ghost predicate Holds(nodes: seq<Node>, image: seq<byte>, f: Flat, id: nat, offset: nat) {
    && id + |f.nodes| <= |nodes| && nodes[id..id + |f.nodes|] == f.nodes
    && offset + |f.data| <= |image| && image[offset..offset + |f.data|] == f.data
    && forall j :: id + |f.nodes| <= j < |nodes| ==> nodes[j].parentId < id || nodes[j].parentId >= id + |f.nodes|
  }

  lemma HoldsFirst(nodes: seq<Node>, image: seq<byte>, f: Flat, g: Flat, dirId: nat, id: nat, offset: nat)
    requires Holds(nodes, image, f.Then(g), id, offset) && dirId < id
    requires Numbered(g.nodes, dirId, id + |f.nodes|)
    ensures Holds(nodes, image, f, id, offset)
    ensures Holds(nodes, image, g, id + |f.nodes|, offset + |f.data|)
  {
    var h := f.Then(g);
    var n, d := |f.nodes|, |f.data|;
    assert nodes[id..id + n] == nodes[id..id + |h.nodes|][..n] == f.nodes;
    assert nodes[id + n..id + n + |g.nodes|] == nodes[id..id + |h.nodes|][n..] == g.nodes;
    assert image[offset..offset + d] == image[offset..offset + |h.data|][..d] == f.data;
    assert image[offset + d..offset + d + |g.data|] == image[offset..offset + |h.data|][d..] == g.data;
    forall j | id + n <= j < |nodes| ensures nodes[j].parentId < id || nodes[j].parentId >= id + n {
      if j < id + |h.nodes| { assert nodes[j] == g.nodes[j - id - n]; }
    }
  }

  /** A stretch of nodes none of which hangs below `parent` adds nothing to it. */
  lemma {:induction false} NoKids(nodes: seq<Node>, image: seq<byte>, parent: nat, j: nat, end: nat)
    requires parent < j <= end <= |nodes|
    requires forall k :: j <= k < end ==> nodes[k].parentId != parent
    ensures RebuildKids(nodes, image, parent, j) == RebuildKids(nodes, image, parent, end)
    decreases end - j
  {
    hide Rebuild;
    if j < end { NoKids(nodes, image, parent, j + 1, end); }
  }

  /** Rebuilding a directory from its place in the list gives the directory. */
  lemma {:induction false} RebuildDir(nodes: seq<Node>, image: seq<byte>, name: cstring, st: Stat, es: seq<Entry>,
                                      parentId: nat, id: nat, offset: nat)
    requires IsDir(st.mode) && EntriesOk(es)
    requires Holds(nodes, image, FlattenDir(name, st, es, parentId, id, offset), id, offset)
    requires offset + |FlattenDir(name, st, es, parentId, id, offset).data| < U32
    ensures id < |nodes| && Rebuild(nodes, image, id) == Meant(name, st, es)
    decreases es, 1
  {
    hide MeantKids, FlattenEntries;
    var g := FlattenEntries(es, id, id + 1, offset);
    var f := FlattenDir(name, st, es, parentId, id, offset);
    assert [] + g.data == g.data;
    assert nodes[id] == nodes[id..id + |f.nodes|][0] == DirNode(name, st, parentId, id);
    ClearWriteKeepsKind(st.mode);
    FlattenEntriesNumbered(es, id, id + 1, offset);
    HoldsTail(nodes, image, DirNode(name, st, parentId, id), g, id, offset);
    RebuildEntries(nodes, image, es, id, id + 1, offset);
    NoKids(nodes, image, id, id + 1 + |g.nodes|, |nodes|);
    assert MeantKids(es) + [] == MeantKids(es);
  }

  lemma HoldsTail(nodes: seq<Node>, image: seq<byte>, a: Node, g: Flat, id: nat, offset: nat)
    requires Holds(nodes, image, Flat([a], []).Then(g), id, offset)
    ensures Holds(nodes, image, g, id + 1, offset)
    ensures forall j :: id + 1 + |g.nodes| <= j < |nodes| ==> nodes[j].parentId != id
  {
    assert [] + g.data == g.data;
    assert nodes[id + 1..id + 1 + |g.nodes|] == nodes[id..id + 1 + |g.nodes|][1..] == g.nodes;
  }

  lemma {:induction false} RebuildEntries(nodes: seq<Node>, image: seq<byte>, es: seq<Entry>, dirId: nat, id: nat, offset: nat)
    requires dirId < id && EntriesOk(es)
    requires Holds(nodes, image, FlattenEntries(es, dirId, id, offset), id, offset)
    requires offset + |FlattenEntries(es, dirId, id, offset).data| < U32
    ensures RebuildKids(nodes, image, dirId, id) ==
      MeantKids(es) + RebuildKids(nodes, image, dirId, id + |FlattenEntries(es, dirId, id, offset).nodes|)
    decreases es, 0
  {
    hide Rebuild, RebuildKids, FlattenEntry, MeantEntry, WhatOk, Holds, Numbered;
    if es == [] {
      assert [] + RebuildKids(nodes, image, dirId, id) == RebuildKids(nodes, image, dirId, id);
    } else {
      var f := FlattenEntry(es[0], dirId, id, offset);
      var id', offset' := id + |f.nodes|, offset + |f.data|;
      var g := FlattenEntries(es[1..], dirId, id', offset');
      FlattenEntriesNumbered(es[1..], dirId, id', offset');
      HoldsFirst(nodes, image, f, g, dirId, id, offset);
      RebuildEntry(nodes, image, es[0], dirId, id, offset);
      RebuildEntries(nodes, image, es[1..], dirId, id', offset');
      var rest := RebuildKids(nodes, image, dirId, id' + |g.nodes|);
      assert MeantEntry(es[0]) + (MeantKids(es[1..]) + rest) == (MeantEntry(es[0]) + MeantKids(es[1..])) + rest;
    }
  }

  lemma {:induction false} RebuildEntry(nodes: seq<Node>, image: seq<byte>, e: Entry, dirId: nat, id: nat, offset: nat)
    requires dirId < id && WhatOk(e.what)
    requires Holds(nodes, image, FlattenEntry(e, dirId, id, offset), id, offset)
    requires offset + |FlattenEntry(e, dirId, id, offset).data| < U32
    ensures RebuildKids(nodes, image, dirId, id) ==
      MeantEntry(e) + RebuildKids(nodes, image, dirId, id + |FlattenEntry(e, dirId, id, offset).nodes|)
    decreases e
  {
    hide Meant, FlattenDir, CutName;
    var f := FlattenEntry(e, dirId, id, offset);
    if Skipped(e) || !(e.what.Dir? || (e.what.RegFile? && e.what.readable)) {
      assert [] + RebuildKids(nodes, image, dirId, id) == RebuildKids(nodes, image, dirId, id);
    } else if e.what.Dir? {
      FlattenDirStarts(e.name, e.what.st, e.what.entries, dirId, id, offset);
      RebuildDir(nodes, image, e.name, e.what.st, e.what.entries, dirId, id, offset);
      FlattenDirNumbered(e.name, e.what.st, e.what.entries, dirId, id, offset);
      FirstKid(nodes, image, f, dirId, id, offset);
    } else {
      ClearWriteKeepsKind(e.what.st.mode);
      FirstKid(nodes, image, f, dirId, id, offset);
    }
  }

  lemma FlattenDirStarts(name: cstring, st: Stat, es: seq<Entry>, parentId: nat, id: nat, offset: nat)
    ensures var nodes := FlattenDir(name, st, es, parentId, id, offset).nodes;
      nodes != [] && nodes[0].parentId == parentId
  {
    hide FlattenEntries;
  }

  /** The first node of an entry hangs below the directory; the others hang below the entry. */
  lemma FirstKid(nodes: seq<Node>, image: seq<byte>, f: Flat, dirId: nat, id: nat, offset: nat)
    requires Holds(nodes, image, f, id, offset) && f.nodes != [] && dirId < id
    requires f.nodes[0].parentId == dirId
    requires forall k :: 0 < k < |f.nodes| ==> id <= f.nodes[k].parentId
    ensures nodes[id] == f.nodes[0]
    ensures RebuildKids(nodes, image, dirId, id) ==
      [Rebuild(nodes, image, id)] + RebuildKids(nodes, image, dirId, id + |f.nodes|)
  {
    hide Rebuild;
    assert nodes[id] == nodes[id..id + |f.nodes|][0];
    forall k | id + 1 <= k < id + |f.nodes| ensures nodes[k].parentId != dirId {
      assert nodes[k] == nodes[id..id + |f.nodes|][k - id];
    }
    NoKids(nodes, image, dirId, id + 1, id + |f.nodes|);
  }

  // ---------- file data ----------

  /** The files of a list of nodes lie one behind the other, without a gap, from `start` to `end`. */
  predicate Tiles(nodes: seq<Node>, start: nat, end: nat)
    decreases |nodes|
  {
    if nodes == [] then start == end
    else if IsDir(nodes[0].mode) then Tiles(nodes[1..], start, end)
    else nodes[0].offset == start && Tiles(nodes[1..], start + nodes[0].size, end)
  }

  lemma {:induction false} TilesThen(a: seq<Node>, b: seq<Node>, start: nat, mid: nat, end: nat)
    requires Tiles(a, start, mid) && Tiles(b, mid, end)
    ensures Tiles(a + b, start, end)
    decreases |a|
  {
    hide IsDir;
    if a == [] {
      assert a + b == b;
    } else {
      assert (a + b)[0] == a[0] && (a + b)[1..] == a[1..] + b;
      TilesThen(a[1..], b, if IsDir(a[0].mode) then start else start + a[0].size, mid, end);
    }
  }

  lemma TilesOne(n: Node, start: nat)
    ensures Tiles([n], start, if IsDir(n.mode) then start else start + n.size) <==> IsDir(n.mode) || n.offset == start
  {
    assert Tiles([n][1..], start, start) && Tiles([n][1..], start + n.size, start + n.size);
  }

  /** The data of the files of a tree tile exactly the stretch that the walk has written. */
  lemma {:induction false} FlattenDirTiles(name: cstring, st: Stat, es: seq<Entry>, parentId: nat, id: nat, offset: nat)
    requires IsDir(st.mode) && EntriesOk(es)
    requires offset + |FlattenDir(name, st, es, parentId, id, offset).data| < U32
    ensures var f := FlattenDir(name, st, es, parentId, id, offset); Tiles(f.nodes, offset, offset + |f.data|)
    decreases es, 1
  {
    hide Tiles, FlattenEntries, EntriesOk;
    var n, g := DirNode(name, st, parentId, id), FlattenEntries(es, id, id + 1, offset);
    assert [] + g.data == g.data;
    ClearWriteKeepsKind(st.mode);
    TilesOne(n, offset);
    FlattenEntriesTiles(es, id, id + 1, offset);
    TilesThen([n], g.nodes, offset, offset, offset + |g.data|);
  }

  lemma NothingTiles(start: nat)
    ensures Tiles([], start, start)
  {
  }

  lemma {:induction false} FlattenEntriesTiles(es: seq<Entry>, dirId: nat, id: nat, offset: nat)
    requires EntriesOk(es) && offset + |FlattenEntries(es, dirId, id, offset).data| < U32
    ensures var f := FlattenEntries(es, dirId, id, offset); Tiles(f.nodes, offset, offset + |f.data|)
    decreases es, 0
  {
    hide FlattenEntry, WhatOk, Tiles;
    if es == [] {
      NothingTiles(offset);
    } else {
      var f := FlattenEntry(es[0], dirId, id, offset);
      var g := FlattenEntries(es[1..], dirId, id + |f.nodes|, offset + |f.data|);
      FlattenEntryTiles(es[0], dirId, id, offset);
      FlattenEntriesTiles(es[1..], dirId, id + |f.nodes|, offset + |f.data|);
      TilesThen(f.nodes, g.nodes, offset, offset + |f.data|, offset + |f.data| + |g.data|);
    }
  }

  lemma {:induction false} FlattenEntryTiles(e: Entry, dirId: nat, id: nat, offset: nat)
    requires WhatOk(e.what) && offset + |FlattenEntry(e, dirId, id, offset).data| < U32
    ensures var f := FlattenEntry(e, dirId, id, offset); Tiles(f.nodes, offset, offset + |f.data|)
    decreases e
  {
    hide FlattenDir, Tiles, ClearWrite, CutName, StatOk, EntriesOk;
    NothingTiles(offset);
    if !Skipped(e) && e.what.Dir? {
      FlattenDirTiles(e.name, e.what.st, e.what.entries, dirId, id, offset);
    } else if !Skipped(e) && e.what.RegFile? && e.what.readable {
      ClearWriteKeepsKind(e.what.st.mode);
      TilesOne(FileNode(e.name, e.what.st, dirId, id, offset), offset);
    }
  }
}
