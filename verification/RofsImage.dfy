/** The bytes of a read-only file system image, and reading the tree back from them. */
module RofsImage {
  import opened Basics
  import opened Bytes
  import opened RofsTree
  import opened Crc

  datatype Endian = Little | Big

  // ---------- numbers ----------

  function Reverse(s: seq<byte>): (r: seq<byte>)
    ensures |r| == |s|
  {
    if s == [] then [] else Reverse(s[1..]) + [s[0]]
  }

  lemma {:induction false} ReverseSnoc(s: seq<byte>, x: byte)
    ensures Reverse(s + [x]) == [x] + Reverse(s)
  {
    if s == [] {
      assert Reverse([x][1..]) == [];
    } else {
      assert (s + [x])[1..] == s[1..] + [x];
      ReverseSnoc(s[1..], x);
    }
  }

  lemma {:induction false} ReverseTwice(s: seq<byte>)
    ensures Reverse(Reverse(s)) == s
  {
    if s != [] {
      ReverseTwice(s[1..]);
      ReverseSnoc(Reverse(s[1..]), s[0]);
    }
  }

  function Enc(e: Endian, v: nat, w: nat): (s: seq<byte>)
    ensures |s| == w
  {
    if e.Little? then LeBytes(v, w) else Reverse(LeBytes(v, w))
  }

  function Dec(e: Endian, s: seq<byte>): nat {
    LeValue(if e.Little? then s else Reverse(s))
  }

  lemma DecEnc(e: Endian, v: nat, w: nat)
    requires v < Pow256(w)
    ensures Dec(e, Enc(e, v, w)) == v
  {
    hide Pow256, LeValue, LeBytes, Reverse;
    LeRoundTrip(v, w);
    SmallMod(v, Pow256(w));
    ReverseTwice(LeBytes(v, w));
  }

  lemma SmallMod(v: nat, p: nat)
    requires v < p
    ensures v % p == v
  {
  }

  lemma DecEncField(e: Endian, v: nat, w: nat)
    requires (w == 4 && v < U32) || (w == 8 && v < U64)
    ensures Dec(e, Enc(e, v, w)) == v
  {
    Pow256Values();
    DecEnc(e, v, w);
  }

  // ---------- nodes ----------

  const NODE_SIZE: nat := 256

  function Zeros(n: nat): (z: seq<byte>)
    ensures |z| == n
  {
    seq(n, _ => 0)
  }

  function NameField(name: cstring): (f: seq<byte>)
    ensures |f| == NAME_SIZE
  {
    if |name| >= NAME_SIZE then name[..NAME_SIZE] else name + Zeros(NAME_SIZE - |name|)
  }

  /** A field's bytes up to the first NUL. */
  function ReadName(f: seq<byte>): cstring {
    if f == [] || f[0] == 0 then [] else [f[0]] + ReadName(f[1..])
  }

  /** The numbers of a node at their places: time, parent, id and mode. */
  function NodeHead(e: Endian, n: Node): (b: seq<byte>)
    ensures |b| == 24
  {
    Enc(e, n.timestamp, 8) + Enc(e, n.parentId, 4) + Enc(e, n.id, 4) + Enc(e, n.mode, 4) + Enc(e, 0, 4)
  }

  /** Owner, group, offset and size, each number of the file followed by a reserved one. */
  function NodeTail(e: Endian, n: Node): (b: seq<byte>)
    ensures |b| == 24
  {
    Enc(e, n.uid, 4) + Enc(e, n.gid, 4) + Enc(e, n.offset, 4) + Enc(e, 0, 4) + Enc(e, n.size, 4) + Enc(e, 0, 4)
  }

  function NodeBytes(e: Endian, n: Node): (b: seq<byte>)
    ensures |b| == NODE_SIZE
  {
    NodeHead(e, n) + NodeTail(e, n) + NameField(n.name) + [0]
  }

  function ReadNode(e: Endian, b: seq<byte>): Node
    requires |b| == NODE_SIZE
  {
    Node(Dec(e, b[0..8]), Dec(e, b[8..12]), Dec(e, b[12..16]), Dec(e, b[16..20]),
         Dec(e, b[24..28]), Dec(e, b[28..32]), Dec(e, b[32..36]), Dec(e, b[40..44]), ReadName(b[48..255]))
  }

  predicate NodeOk(n: Node) {
    && n.timestamp < U64 && n.parentId < U32 && n.id < U32 && n.mode < U32 && n.uid < U32 && n.gid < U32
    && n.offset < U32 && n.size < U32 && |n.name| <= NAME_SIZE
  }

  lemma {:induction false} NameReads(name: cstring, pad: nat)
    ensures ReadName(name + Zeros(pad)) == name
  {
    if name == [] {
      assert name + Zeros(pad) == Zeros(pad);
    } else {
      assert (name + Zeros(pad))[1..] == name[1..] + Zeros(pad);
      NameReads(name[1..], pad);
    }
  }

  lemma HeadReads(e: Endian, n: Node)
    requires NodeOk(n)
    ensures var b := NodeHead(e, n);
      && Dec(e, b[0..8]) == n.timestamp && Dec(e, b[8..12]) == n.parentId
      && Dec(e, b[12..16]) == n.id && Dec(e, b[16..20]) == n.mode
  {
    hide Enc, Dec;
    var b := NodeHead(e, n);
    assert b[0..8] == Enc(e, n.timestamp, 8) && b[8..12] == Enc(e, n.parentId, 4);
    assert b[12..16] == Enc(e, n.id, 4) && b[16..20] == Enc(e, n.mode, 4);
    DecEncField(e, n.timestamp, 8);
    DecEncField(e, n.parentId, 4);
    DecEncField(e, n.id, 4);
    DecEncField(e, n.mode, 4);
  }

  lemma TailReads(e: Endian, n: Node)
    requires NodeOk(n)
    ensures var b := NodeTail(e, n);
      && Dec(e, b[0..4]) == n.uid && Dec(e, b[4..8]) == n.gid
      && Dec(e, b[8..12]) == n.offset && Dec(e, b[16..20]) == n.size
  {
    hide Enc, Dec;
    var b := NodeTail(e, n);
    assert b[0..4] == Enc(e, n.uid, 4) && b[4..8] == Enc(e, n.gid, 4);
    assert b[8..12] == Enc(e, n.offset, 4) && b[16..20] == Enc(e, n.size, 4);
    DecEncField(e, n.uid, 4);
    DecEncField(e, n.gid, 4);
    DecEncField(e, n.offset, 4);
    DecEncField(e, n.size, 4);
  }

  /** A node decodes back from its 256 bytes, in either byte order. */
  lemma NodeReads(e: Endian, n: Node)
    requires NodeOk(n)
    ensures ReadNode(e, NodeBytes(e, n)) == n
  {
    hide Dec, NodeHead, NodeTail;
    var b, h, t := NodeBytes(e, n), NodeHead(e, n), NodeTail(e, n);
    HeadReads(e, n);
    TailReads(e, n);
    assert b[0..8] == h[0..8] && b[8..12] == h[8..12] && b[12..16] == h[12..16] && b[16..20] == h[16..20];
    assert b[24..28] == t[0..4] && b[28..32] == t[4..8] && b[32..36] == t[8..12] && b[40..44] == t[16..20];
    assert b[48..255] == NameField(n.name) == n.name + Zeros(NAME_SIZE - |n.name|);
    NameReads(n.name, NAME_SIZE - |n.name|);
  }

  function Index(e: Endian, nodes: seq<Node>): (b: seq<byte>)
    ensures |b| == NODE_SIZE * |nodes|
  {
    if nodes == [] then [] else NodeBytes(e, nodes[0]) + Index(e, nodes[1..])
  }

  lemma {:induction false} IndexSnoc(e: Endian, nodes: seq<Node>, n: Node)
    ensures Index(e, nodes + [n]) == Index(e, nodes) + NodeBytes(e, n)
  {
    hide NodeBytes;
    if nodes == [] {
      assert Index(e, [n][1..]) == [] && [] + [n] == [n];
    } else {
      assert (nodes + [n])[1..] == nodes[1..] + [n];
      IndexSnoc(e, nodes[1..], n);
    }
  }

  lemma {:induction false} IndexAt(e: Endian, nodes: seq<Node>, k: nat)
    requires k < |nodes|
    ensures Index(e, nodes)[NODE_SIZE * k..NODE_SIZE * k + NODE_SIZE] == NodeBytes(e, nodes[k])
  {
    hide NodeBytes;
    if k > 0 {
      IndexAt(e, nodes[1..], k - 1);
      var rest := Index(e, nodes[1..]);
      assert Index(e, nodes)[NODE_SIZE * k..NODE_SIZE * k + NODE_SIZE] ==
             rest[NODE_SIZE * (k - 1)..NODE_SIZE * (k - 1) + NODE_SIZE];
    }
  }

  // ---------- the checksum ----------

  function ToBv(s: seq<byte>): (r: seq<bv8>)
    ensures |r| == |s|
  {
    seq(|s|, i requires 0 <= i < |s| => s[i] as bv8)
  }

  lemma ToBvConcat(s: seq<byte>, t: seq<byte>)
    ensures ToBv(s + t) == ToBv(s) + ToBv(t)
  {
  }

  function Poly(e: Endian): bv32 { if e.Little? then POLY_LE else POLY_BE }

  /** A running checksum becomes the one that is stored. */
  function Complement(c: bv32): (v: nat)
    ensures v < U32
  {
    (!c) as nat
  }

  /** The complemented checksum of a string of bytes, in one pass. */
  function Crc32(e: Endian, s: seq<byte>): (v: nat)
    ensures v < U32
  {
    Complement(Checksum(0xffff_ffff, ToBv(s), Poly(e)))
  }

  // ---------- the image ----------

  function AlignUp(n: nat): (r: nat)
    ensures r % NODE_SIZE == 0 && n <= r < n + NODE_SIZE
  {
    (n + NODE_SIZE - 1) / NODE_SIZE * NODE_SIZE
  }

  const SIGNATURE: seq<byte> := [82, 79, 70, 83]

  /** The header after its checksum. */
  function HeaderRest(e: Endian, imgSize: nat, idxOffs: nat, nodeCnt: nat): (b: seq<byte>)
    ensures |b| == 56
  {
    Enc(e, imgSize, 4) + Zeros(4) + Enc(e, idxOffs, 4) + Zeros(4) + Enc(e, nodeCnt, 4) + Zeros(36)
  }

  /** Everything that the header's checksum covers. */
  function Covered(e: Endian, f: Flat): seq<byte> {
    var idx := AlignUp(HEADER_SIZE + |f.data|);
    HeaderRest(e, idx + NODE_SIZE * |f.nodes|, idx, |f.nodes|) + f.data + Zeros(idx - HEADER_SIZE - |f.data|) + Index(e, f.nodes)
  }

  function Image(e: Endian, f: Flat): seq<byte> {
    SIGNATURE + Enc(e, Crc32(e, Covered(e, f)), 4) + Covered(e, f)
  }

  // ---------- reading an image back ----------

  function ReadNodes(e: Endian, image: seq<byte>, idx: nat, cnt: nat): (nodes: seq<Node>)
    requires idx + NODE_SIZE * cnt <= |image|
    ensures |nodes| == cnt
  {
    seq(cnt, k requires 0 <= k < cnt => ReadNode(e, image[idx + NODE_SIZE * k..idx + NODE_SIZE * k + NODE_SIZE]))
  }

  /** Follow the header to the index, and rebuild the tree from the nodes there. */
  function Mount(e: Endian, image: seq<byte>): Option<Tree> {
    if |image| < HEADER_SIZE || image[0..4] != SIGNATURE then None
    else
      var idx, cnt := Dec(e, image[16..20]), Dec(e, image[24..28]);
      if cnt == 0 || idx + NODE_SIZE * cnt > |image| then None
      else Some(Rebuild(ReadNodes(e, image, idx, cnt), image, 0))
  }

  /** Size and checksum fields of an image. */
  function SizeField(e: Endian, image: seq<byte>): nat
    requires |image| >= HEADER_SIZE
  {
    Dec(e, image[8..12])
  }

  function CrcField(e: Endian, image: seq<byte>): nat
    requires |image| >= HEADER_SIZE
  {
    Dec(e, image[4..8])
  }

  function ImageSize(f: Flat): nat {
    AlignUp(HEADER_SIZE + |f.data|) + NODE_SIZE * |f.nodes|
  }

  ghost predicate NodesOk(nodes: seq<Node>) {
    forall k :: 0 <= k < |nodes| ==> NodeOk(nodes[k])
  }

  lemma HeaderReads(e: Endian, imgSize: nat, idxOffs: nat, nodeCnt: nat)
    requires imgSize < U32 && idxOffs < U32 && nodeCnt < U32
    ensures var b := HeaderRest(e, imgSize, idxOffs, nodeCnt);
      Dec(e, b[0..4]) == imgSize && Dec(e, b[8..12]) == idxOffs && Dec(e, b[16..20]) == nodeCnt
  {
    hide Enc, Dec;
    var b := HeaderRest(e, imgSize, idxOffs, nodeCnt);
    assert b[0..4] == Enc(e, imgSize, 4) && b[8..12] == Enc(e, idxOffs, 4) && b[16..20] == Enc(e, nodeCnt, 4);
    DecEncField(e, imgSize, 4);
    DecEncField(e, idxOffs, 4);
    DecEncField(e, nodeCnt, 4);
  }

  /** Where everything lies: the header first, then the data without gap, then the padding, then the
      index on a boundary of its own. */
  lemma ImageLayout(e: Endian, f: Flat)
    ensures var img, idx := Image(e, f), AlignUp(HEADER_SIZE + |f.data|);
      && |img| == ImageSize(f)
      && img[0..4] == SIGNATURE && img[4..8] == Enc(e, Crc32(e, Covered(e, f)), 4) && img[8..] == Covered(e, f)
      && img[8..64] == HeaderRest(e, ImageSize(f), idx, |f.nodes|)
      && img[HEADER_SIZE..HEADER_SIZE + |f.data|] == f.data
      && img[HEADER_SIZE + |f.data|..idx] == Zeros(idx - HEADER_SIZE - |f.data|)
      && img[idx..] == Index(e, f.nodes)
  {
    hide Enc, Crc32, Index, HeaderRest, AlignUp;
    var idx := AlignUp(HEADER_SIZE + |f.data|);
    var head, zeros, index := HeaderRest(e, ImageSize(f), idx, |f.nodes|), Zeros(idx - HEADER_SIZE - |f.data|), Index(e, f.nodes);
    var img := Image(e, f);
    var pre := SIGNATURE + Enc(e, Crc32(e, Covered(e, f)), 4);
    assert img == pre + (head + f.data + zeros + index);
    assert img == (pre + head) + (f.data + (zeros + index));
  }

  /** The image is as long as its header says, and its checksum is that of everything after it. */
  lemma ImageSealed(e: Endian, f: Flat)
    requires ImageSize(f) < U32
    ensures var img := Image(e, f);
      |img| >= HEADER_SIZE && |img| == SizeField(e, img) && CrcField(e, img) == Crc32(e, img[8..])
  {
    hide Enc, Dec, Index, HeaderRest, Image, Covered, AlignUp, Crc32;
    ImageLayout(e, f);
    var img := Image(e, f);
    var idx := AlignUp(HEADER_SIZE + |f.data|);
    HeaderReads(e, ImageSize(f), idx, |f.nodes|);
    assert img[8..12] == img[8..64][0..4];
    DecEncField(e, Crc32(e, Covered(e, f)), 4);
  }

  /** The index of an image decodes to the nodes it was made of. */
  lemma IndexReads(e: Endian, f: Flat)
    requires ImageSize(f) < U32 && NodesOk(f.nodes)
    ensures var img, idx := Image(e, f), AlignUp(HEADER_SIZE + |f.data|);
      idx + NODE_SIZE * |f.nodes| <= |img| && ReadNodes(e, img, idx, |f.nodes|) == f.nodes
  {
    hide Enc, Dec, Index, HeaderRest, Image, Covered, AlignUp, Crc32, NodeBytes, ReadNode, NodeOk;
    ImageLayout(e, f);
    var img, idx := Image(e, f), AlignUp(HEADER_SIZE + |f.data|);
    forall k | 0 <= k < |f.nodes|
      ensures ReadNode(e, img[idx + NODE_SIZE * k..idx + NODE_SIZE * k + NODE_SIZE]) == f.nodes[k]
    {
      IndexAt(e, f.nodes, k);
      assert img[idx + NODE_SIZE * k..idx + NODE_SIZE * k + NODE_SIZE] == img[idx..][NODE_SIZE * k..NODE_SIZE * k + NODE_SIZE];
      NodeReads(e, f.nodes[k]);
    }
  }

  lemma MountIndex(e: Endian, f: Flat)
    requires ImageSize(f) < U32 && NodesOk(f.nodes) && f.nodes != []
    ensures Mount(e, Image(e, f)) == Some(Rebuild(f.nodes, Image(e, f), 0))
  {
    hide Enc, Dec, Index, HeaderRest, Image, Covered, AlignUp, Crc32, ReadNodes, NodesOk;
    ImageLayout(e, f);
    IndexReads(e, f);
    var img, idx := Image(e, f), AlignUp(HEADER_SIZE + |f.data|);
    HeaderReads(e, ImageSize(f), idx, |f.nodes|);
    assert img[16..20] == img[8..64][8..12] && img[24..28] == img[8..64][16..20];
  }

  // ---------- every node of a walk fits its fields ----------

  lemma {:induction false} FlattenDirOk(name: cstring, st: Stat, es: seq<Entry>, parentId: nat, id: nat, offset: nat)
    requires StatOk(st) && EntriesOk(es) && parentId < U32
    requires var f := FlattenDir(name, st, es, parentId, id, offset);
      id + |f.nodes| < U32 && offset + |f.data| < U32
    ensures NodesOk(FlattenDir(name, st, es, parentId, id, offset).nodes)
    decreases es, 1
  {
    hide FlattenEntries, EntriesOk;
    assert [] + FlattenEntries(es, id, id + 1, offset).data == FlattenEntries(es, id, id + 1, offset).data;
    ClearWriteKeepsKind(st.mode);
    FlattenEntriesOk(es, id, id + 1, offset);
  }

  lemma {:induction false} FlattenEntriesOk(es: seq<Entry>, dirId: nat, id: nat, offset: nat)
    requires EntriesOk(es) && dirId < U32
    requires var f := FlattenEntries(es, dirId, id, offset);
      id + |f.nodes| < U32 && offset + |f.data| < U32
    ensures NodesOk(FlattenEntries(es, dirId, id, offset).nodes)
    decreases es, 0
  {
    hide FlattenEntry, NodeOk, WhatOk;
    if es != [] {
      var f := FlattenEntry(es[0], dirId, id, offset);
      FlattenEntryOk(es[0], dirId, id, offset);
      FlattenEntriesOk(es[1..], dirId, id + |f.nodes|, offset + |f.data|);
    }
  }

  lemma {:induction false} FlattenEntryOk(e: Entry, dirId: nat, id: nat, offset: nat)
    requires WhatOk(e.what) && dirId < U32
    requires var f := FlattenEntry(e, dirId, id, offset);
      id + |f.nodes| < U32 && offset + |f.data| < U32
    ensures NodesOk(FlattenEntry(e, dirId, id, offset).nodes)
    decreases e
  {
    hide FlattenDir;
    if !Skipped(e) {
      match e.what
      case Dir(st, entries) => FlattenDirOk(e.name, st, entries, dirId, id, offset);
      case RegFile(st, readable, content) => ClearWriteKeepsKind(st.mode);
      case _ =>
    }
  }

  // ---------- from the tree to the bytes and back ----------

  function Walked(name: cstring, st: Stat, es: seq<Entry>): Flat {
    FlattenDir(name, st, es, ROOT_PARENT, 0, HEADER_SIZE)
  }

  /** Mounting an image gives exactly the tree it was made of: every directory and readable file, in its
      place and order, with its contents. This holds in either byte order. */
  lemma MountGivesTree(e: Endian, name: cstring, st: Stat, es: seq<Entry>)
    requires StatOk(st) && IsDir(st.mode) && EntriesOk(es)
    requires ImageSize(Walked(name, st, es)) < U32
    ensures Mount(e, Image(e, Walked(name, st, es))) == Some(Meant(name, st, es))
  {
    hide Image, Mount, Meant, EntriesOk, AlignUp, FlattenDir;
    var f := Walked(name, st, es);
    var img := Image(e, f);
    FlattenDirStarts(name, st, es, ROOT_PARENT, 0, HEADER_SIZE);
    FlattenDirOk(name, st, es, ROOT_PARENT, 0, HEADER_SIZE);
    MountIndex(e, f);
    ImageLayout(e, f);
    assert f.nodes[0..|f.nodes|] == f.nodes;
    RebuildDir(f.nodes, img, name, st, es, ROOT_PARENT, 0, HEADER_SIZE);
  }
}
