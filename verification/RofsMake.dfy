/** The tool itself: walking the source, appending file data, then the index and the sealed header. */
module RofsMake {
  import opened Basics
  import opened Bytes
  import opened RofsTree
  import opened RofsImage
  import opened Crc
  import opened CrcDetect
  import opened CrcBurst
  import opened RofsMatch

  const BUF_SIZE: nat := 4096
  const ELOOP := 40

  lemma ToBvSnoc(s: seq<byte>, x: byte)
    ensures ToBv(s + [x]) == ToBv(s) + [x as bv8]
  {
  }

  /** Bit by bit over a buffer. */
  method CalcCrc32Mem(buf: seq<byte>, crc: bv32, poly: bv32) returns (rcrc: bv32)
    ensures rcrc == Checksum(crc, ToBv(buf), poly)
  {
    hide Step, Update, Checksum, ToBv, Steps;
    rcrc := crc;
    var k := 0;
    NoBytes(crc, poly);
    assert buf[..0] == [];
    while k < |buf|
      invariant k <= |buf| && rcrc == Checksum(crc, ToBv(buf[..k]), poly)
    {
      var b := buf[k] as bv8;
      ChecksumSnoc(crc, ToBv(buf[..k]), b, poly);
      assert buf[..k + 1] == buf[..k] + [buf[k]];
      ToBvSnoc(buf[..k], buf[k]);
      rcrc := EightSteps(rcrc, b, poly);
      k := k + 1;
    }
    assert buf[..k] == buf;
  }

  // ---------- buffers filled in place ----------

  /** Copy bytes into a buffer. */
  method CopyInto(buf: array<byte>, at: nat, s: seq<byte>)
    requires at + |s| <= buf.Length
    modifies buf
    ensures buf[..at] == old(buf[..at]) && buf[at..at + |s|] == s && buf[at + |s|..] == old(buf[at + |s|..])
  {
    forall i | 0 <= i < |s| { buf[at + i] := s[i]; }
  }

  /** Write a number behind what is already in place. */
  method WriteNext(e: Endian, buf: array<byte>, at: nat, v: nat, w: nat, ghost done: seq<byte>)
    requires at + w <= buf.Length && buf[..at] == done
    modifies buf
    ensures buf[..at + w] == done + Enc(e, v, w) && buf[at + w..] == old(buf[at + w..])
  {
    hide Enc;
    CopyInto(buf, at, Enc(e, v, w));
    assert buf[..at + w] == buf[..at] + buf[at..at + w];
  }

  method SerializeHead(e: Endian, n: Node, buf: array<byte>)
    requires buf.Length == NODE_SIZE
    modifies buf
    ensures buf[..24] == NodeHead(e, n)
  {
    hide Enc;
    WriteNext(e, buf, 0, n.timestamp, 8, []);
    WriteNext(e, buf, 8, n.parentId, 4, [] + Enc(e, n.timestamp, 8));
    WriteNext(e, buf, 12, n.id, 4, buf[..12]);
    WriteNext(e, buf, 16, n.mode, 4, buf[..16]);
    WriteNext(e, buf, 20, 0, 4, buf[..20]);
    assert [] + Enc(e, n.timestamp, 8) == Enc(e, n.timestamp, 8);
  }

  method SerializeTail(e: Endian, n: Node, buf: array<byte>)
    requires buf.Length == NODE_SIZE
    modifies buf
    ensures buf[..48] == old(buf[..24]) + NodeTail(e, n)
  {
    hide Enc;
    ghost var head := buf[..24];
    WriteNext(e, buf, 24, n.uid, 4, head);
    WriteNext(e, buf, 28, n.gid, 4, buf[..28]);
    WriteNext(e, buf, 32, n.offset, 4, buf[..32]);
    WriteNext(e, buf, 36, 0, 4, buf[..36]);
    WriteNext(e, buf, 40, n.size, 4, buf[..40]);
    WriteNext(e, buf, 44, 0, 4, buf[..44]);
    assert buf[..48] == head + NodeTail(e, n);
  }

  /** A node in the 256 bytes of a buffer, whatever was in them. */
  method SerializeNode(e: Endian, n: Node, buf: array<byte>)
    requires buf.Length == NODE_SIZE
    modifies buf
    ensures buf[..] == NodeBytes(e, n)
  {
    hide NodeHead, NodeTail, NameField;
    SerializeHead(e, n, buf);
    SerializeTail(e, n, buf);
    ghost var numbers := buf[..48];
    CopyInto(buf, 48, NameField(n.name));
    CopyInto(buf, 255, [0]);
    assert buf[48..255] == NameField(n.name);
    assert buf[..] == buf[..48] + buf[48..255] + buf[255..];
  }

  /** Write into a buffer that is still zero behind what is in place, leaving a gap. */
  method PutAt(hdr: array<byte>, at: nat, s: seq<byte>, ghost done: seq<byte>)
    requires |done| <= at && at + |s| <= hdr.Length
    requires hdr[..|done|] == done && hdr[|done|..] == Zeros(hdr.Length - |done|)
    modifies hdr
    ensures hdr[..at + |s|] == done + Zeros(at - |done|) + s
    ensures hdr[at + |s|..] == Zeros(hdr.Length - at - |s|)
  {
    ghost var before := hdr[..];
    assert before[|done|..at] == before[|done|..][..at - |done|] == Zeros(at - |done|);
    assert before[at + |s|..] == before[|done|..][at + |s| - |done|..] == Zeros(hdr.Length - at - |s|);
    CopyInto(hdr, at, s);
    assert hdr[..at] == before[..at] == before[..|done|] + before[|done|..at];
    assert hdr[..at + |s|] == hdr[..at] + hdr[at..at + |s|];
  }

  /** The header but for its checksum, in a zeroed buffer. */
  method FillHeader(e: Endian, hdr: array<byte>, idxOffs: nat, imgSize: nat, nodeCnt: nat)
    requires hdr.Length == HEADER_SIZE && hdr[..] == Zeros(HEADER_SIZE)
    modifies hdr
    ensures hdr[..4] == SIGNATURE && hdr[8..] == HeaderRest(e, imgSize, idxOffs, nodeCnt)
  {
    hide Enc, Zeros;
    ghost var size, idx, cnt := Enc(e, imgSize, 4), Enc(e, idxOffs, 4), Enc(e, nodeCnt, 4);
    assert hdr[0..] == hdr[..];
    PutAt(hdr, 0, SIGNATURE, []);
    ghost var h1 := hdr[..4];
    NoZeros();
    assert [] + [] + SIGNATURE == SIGNATURE;
    PutAt(hdr, 8, Enc(e, imgSize, 4), h1);
    ghost var h2 := hdr[..12];
    PutAt(hdr, 16, Enc(e, idxOffs, 4), h2);
    ghost var h3 := hdr[..20];
    PutAt(hdr, 24, Enc(e, nodeCnt, 4), h3);
    HeaderParts(hdr[..28], h1, size, idx, cnt);
    assert hdr[8..] == hdr[..28][8..] + hdr[28..];
    assert hdr[..4] == hdr[..28][..4];
  }

  lemma NoZeros()
    ensures Zeros(0) == []
  {
  }

  lemma HeaderParts(h: seq<byte>, h1: seq<byte>, size: seq<byte>, idx: seq<byte>, cnt: seq<byte>)
    requires |h1| == |size| == |idx| == |cnt| == 4
    requires h == h1 + Zeros(4) + size + Zeros(4) + idx + Zeros(4) + cnt
    ensures h[..4] == h1 && h[8..] == size + Zeros(4) + idx + Zeros(4) + cnt
  {
    hide Zeros;
  }

  /** The maker's state: the nodes found so far, the image file written so far, how deep the walk is. */
  class Maker {
    const endian: Endian
    const depthMax: nat
    var nodes: seq<Node>
    var img: seq<byte>
    var depth: nat

    constructor (endian: Endian, depthMax: nat)
      ensures this.endian == endian && this.depthMax == depthMax
      ensures nodes == [] && depth == 0 && img == Zeros(HEADER_SIZE)
    {
      this.endian, this.depthMax := endian, depthMax;
      nodes, depth, img := [], 0, Zeros(HEADER_SIZE);
    }

    /** What a part of the walk has added. */
    ghost predicate Added(nodes0: seq<Node>, img0: seq<byte>, f: Flat)
      reads this
    {
      nodes == nodes0 + f.nodes && img == img0 + f.data
    }

    /** Copy a file to the end of the image, a buffer at a time. */
    method CopyFile(content: seq<byte>, currOffset: nat) returns (currOffset': nat)
      modifies this`img
      ensures img == old(img) + content && currOffset' == currOffset + |content|
    {
      var pos := 0;
      while pos < |content|
        invariant 0 <= pos <= |content| && img == old(img) + content[..pos]
      {
        var bytes := if |content| - pos > BUF_SIZE then BUF_SIZE else |content| - pos;
        assert content[..pos + bytes] == content[..pos] + content[pos..pos + bytes];
        img := img + content[pos..pos + bytes];
        pos := pos + bytes;
      }
      assert content[..pos] == content;
      currOffset' := currOffset + pos;
    }

    /** Walk one directory. It fails exactly when some directory below nests too deep. */
    method ProcessDir(name: cstring, st: Stat, entries: seq<Entry>, parentId: nat, nextId: nat, currOffset: nat)
      returns (ret: int, nextId': nat, currOffset': nat)
      modifies this
      ensures ret <= 0 && depth == old(depth)
      ensures ret == 0 <==> old(depth) + Depth(entries) <= depthMax
      ensures var f := FlattenDir(name, st, entries, parentId, nextId, currOffset);
        ret == 0 ==> Added(old(nodes), old(img), f) && nextId' == nextId + |f.nodes| && currOffset' == currOffset + |f.data|
      decreases entries, 1
    {
      hide FlattenEntry, FlattenEntries, DirNode, Depth;
      ret, nextId', currOffset' := 0, nextId, currOffset;
      DepthPositive(entries);
      if depth >= depthMax { return -ELOOP, nextId', currOffset'; }
      var dirId := nextId';
      nextId' := nextId' + 1;
      nodes := nodes + [DirNode(name, st, parentId, dirId)];
      ghost var nodes0, img0, f := nodes, img, FlattenEntries(entries, dirId, dirId + 1, currOffset);
      depth := depth + 1;
      var i := 0;
      assert entries[0..] == entries;
      while i < |entries|
        invariant 0 <= i <= |entries| && depth == old(depth) + 1 <= depthMax && ret == 0
        invariant nextId' + |nodes0| == nextId + 1 + |nodes| && currOffset' + |img0| == currOffset + |img|
        invariant var left := FlattenEntries(entries[i..], dirId, nextId', currOffset');
          nodes + left.nodes == nodes0 + f.nodes && img + left.data == img0 + f.data
        invariant old(depth) + Depth(entries) <= depthMax <==> old(depth) + Depth(entries[i..]) <= depthMax
      {
        ghost var rest, id1, off1 := entries[i..], nextId', currOffset';
        assert rest[0] == entries[i] && rest[1..] == entries[i + 1..];
        FirstOfEntries(rest, dirId, id1, off1);
        ret, nextId', currOffset' := ProcessEntry(entries[i], dirId, nextId', currOffset');
        if ret < 0 {
          depth := depth - 1;
          return;
        }
        i := i + 1;
      }
      assert entries[i..] == [];
      NoEntries(dirId, nextId', currOffset');
      depth := depth - 1;
      DirIsFirst(name, st, entries, parentId, nextId, currOffset);
      assert (old(nodes) + [DirNode(name, st, parentId, dirId)]) + f.nodes ==
             old(nodes) + ([DirNode(name, st, parentId, dirId)] + f.nodes);
    }

    /** One entry of a directory: a subdirectory, a file to copy, or something to skip. */
    method ProcessEntry(e: Entry, dirId: nat, nextId: nat, currOffset: nat)
      returns (ret: int, nextId': nat, currOffset': nat)
      modifies this
      ensures ret <= 0 && depth == old(depth)
      ensures ret == 0 <==> (Skipped(e) || !e.what.Dir? || old(depth) + Depth(e.what.entries) <= depthMax)
      ensures var f := FlattenEntry(e, dirId, nextId, currOffset);
        ret == 0 ==> Added(old(nodes), old(img), f) && nextId' == nextId + |f.nodes| && currOffset' == currOffset + |f.data|
      decreases e
    {
      hide FlattenDir, Depth, FileNode;
      ret, nextId', currOffset' := 0, nextId, currOffset;
      if Skipped(e) { return; }
      match e.what
      case Dir(st, entries) =>
        ret, nextId', currOffset' := ProcessDir(e.name, st, entries, dirId, nextId, currOffset);
      case RegFile(st, readable, content) =>
        if readable {
          nextId' := nextId + 1;
          nodes := nodes + [FileNode(e.name, st, dirId, nextId, currOffset)];
          currOffset' := CopyFile(content, currOffset);
        }
      case _ =>
    }

    /** The checksum of the next bytes of the image file, a buffer at a time. */
    method CalcCrc32File(start: nat, len: nat, crc: bv32, poly: bv32) returns (crc': bv32)
      requires start + len <= |img|
      ensures crc' == Checksum(crc, ToBv(img[start..start + len]), poly)
    {
      hide Checksum, ToBv;
      crc' := crc;
      var pos := start;
      assert img[start..start] == [];
      NoBytes(crc, poly);
      while pos < start + len
        invariant start <= pos <= start + len && crc' == Checksum(crc, ToBv(img[start..pos]), poly)
      {
        var todo := start + len - pos;
        var chunk := if todo > BUF_SIZE then BUF_SIZE else todo;
        assert img[start..pos + chunk] == img[start..pos] + img[pos..pos + chunk];
        ToBvConcat(img[start..pos], img[pos..pos + chunk]);
        ChecksumConcat(crc, ToBv(img[start..pos]), ToBv(img[pos..pos + chunk]), poly);
        crc' := CalcCrc32Mem(img[pos..pos + chunk], crc', poly);
        pos := pos + chunk;
      }
    }

    /** Write the header over the hole at the start of the file: the checksum covers first the rest of
        the header, then the file behind it. */
    method WriteHeader(idxOffs: nat, imgSize: nat, nodeCnt: nat)
      requires |img| == imgSize >= HEADER_SIZE
      modifies this`img
      ensures var covered := HeaderRest(endian, imgSize, idxOffs, nodeCnt) + old(img)[HEADER_SIZE..];
        img == SIGNATURE + Enc(endian, Crc32(endian, covered), 4) + covered
    {
      hide Checksum, ToBv, Enc, HeaderRest, Complement;
      var hdr := new byte[HEADER_SIZE](_ => 0);
      assert hdr[..] == Zeros(HEADER_SIZE);
      FillHeader(endian, hdr, idxOffs, imgSize, nodeCnt);
      ghost var rest := HeaderRest(endian, imgSize, idxOffs, nodeCnt);
      var crc := CalcCrc32Mem(hdr[8..], 0xffff_ffff, Poly(endian));
      crc := CalcCrc32File(HEADER_SIZE, imgSize - HEADER_SIZE, crc, Poly(endian));
      assert img[HEADER_SIZE..HEADER_SIZE + (imgSize - HEADER_SIZE)] == img[HEADER_SIZE..];
      ToBvConcat(rest, img[HEADER_SIZE..]);
      ChecksumConcat(0xffff_ffff, ToBv(rest), ToBv(img[HEADER_SIZE..]), Poly(endian));
      var stored := Complement(crc);
      CopyInto(hdr, 4, Enc(endian, stored, 4));
      assert hdr[..] == hdr[..4] + hdr[4..8] + hdr[8..];
      ghost var behind := img[HEADER_SIZE..];
      img := hdr[..] + img[HEADER_SIZE..];
      assert img == SIGNATURE + Enc(endian, stored, 4) + (rest + behind);
    }

    /** The index: the nodes one after the other. */
    method WriteNodesTree()
      modifies this`img
      ensures img == old(img) + Index(endian, nodes)
    {
      hide NodeBytes;
      var buf := new byte[NODE_SIZE];
      var i := 0;
      assert nodes[..0] == [];
      while i < |nodes|
        invariant 0 <= i <= |nodes| && img == old(img) + Index(endian, nodes[..i])
      {
        assert nodes[..i + 1] == nodes[..i] + [nodes[i]];
        IndexSnoc(endian, nodes[..i], nodes[i]);
        SerializeNode(endian, nodes[i], buf);
        img := img + buf[..];
        i := i + 1;
      }
      assert nodes[..i] == nodes;
    }

    /** The whole run. It succeeds exactly when no directory nests deeper than the limit; the file is
        then the image of the source, and mounting it gives the source back. */
    method Make(name: cstring, st: Stat, entries: seq<Entry>) returns (ok: bool)
      requires nodes == [] && depth == 0 && img == Zeros(HEADER_SIZE)
      requires StatOk(st) && IsDir(st.mode) && EntriesOk(entries)
      requires ImageSize(Walked(name, st, entries)) < U32
      modifies this
      ensures ok <==> Depth(entries) <= depthMax
      ensures ok ==> img == Image(endian, Walked(name, st, entries))
      ensures ok ==> Mount(endian, img) == Some(Meant(name, st, entries)) && MatchesDir(Meant(name, st, entries), name, st, entries)
      ensures ok ==> |img| >= HEADER_SIZE && |img| == SizeField(endian, img) && CrcField(endian, img) == Crc32(endian, img[8..])
    {
      hide FlattenDir, Image, Mount, Meant, EntriesOk, AlignUp, Depth, Index, HeaderRest, Enc, Dec, Crc32, MatchesDir;
      ghost var f := Walked(name, st, entries);
      var ret, nextId, currOffset := ProcessDir(name, st, entries, ROOT_PARENT, 0, HEADER_SIZE);
      if ret < 0 { return false; }
      assert [] + f.nodes == f.nodes;
      var indexOffset := AlignUp(currOffset);
      var fileSize := indexOffset + NODE_SIZE * |nodes|;
      img := img + Zeros(indexOffset - currOffset);
      WriteNodesTree();
      assert img == Zeros(HEADER_SIZE) + f.data + Zeros(indexOffset - currOffset) + Index(endian, f.nodes);
      ghost var behind := img[HEADER_SIZE..];
      assert behind == f.data + Zeros(indexOffset - currOffset) + Index(endian, f.nodes);
      WriteHeader(indexOffset, fileSize, |nodes|);
      ImageParts(endian, f, behind);
      MountGivesTree(endian, name, st, entries);
      MeantDir(name, st, entries);
      ImageSealed(endian, f);
      ok := true;
    }
  }

  lemma DepthPositive(es: seq<Entry>)
    ensures Depth(es) >= 1 && Depth([]) == 1
  {
  }

  lemma NoBytes(crc: bv32, poly: bv32)
    ensures ToBv([]) == [] && Checksum(crc, [], poly) == crc
  {
  }

  lemma NoEntries(dirId: nat, id: nat, offset: nat)
    ensures FlattenEntries([], dirId, id, offset) == Flat([], []) && Depth([]) == 1
  {
  }

  lemma FirstOfEntries(es: seq<Entry>, dirId: nat, id: nat, offset: nat)
    requires es != []
    ensures var first := FlattenEntry(es[0], dirId, id, offset);
      FlattenEntries(es, dirId, id, offset) ==
      first.Then(FlattenEntries(es[1..], dirId, id + |first.nodes|, offset + |first.data|))
    ensures var below := if Skipped(es[0]) || !es[0].what.Dir? then 1 else 1 + Depth(es[0].what.entries);
      Depth(es) == if below > Depth(es[1..]) then below else Depth(es[1..])
  {
    hide FlattenEntry;
  }

  lemma DirIsFirst(name: cstring, st: Stat, es: seq<Entry>, parentId: nat, id: nat, offset: nat)
    ensures var f, g := FlattenDir(name, st, es, parentId, id, offset), FlattenEntries(es, id, id + 1, offset);
      f.nodes == [DirNode(name, st, parentId, id)] + g.nodes && f.data == g.data
  {
    hide FlattenEntries;
    assert [] + FlattenEntries(es, id, id + 1, offset).data == FlattenEntries(es, id, id + 1, offset).data;
  }

  lemma ImageParts(e: Endian, f: Flat, behind: seq<byte>)
    requires var idx := AlignUp(HEADER_SIZE + |f.data|);
      behind == f.data + Zeros(idx - HEADER_SIZE - |f.data|) + Index(e, f.nodes)
    ensures var idx := AlignUp(HEADER_SIZE + |f.data|); var covered := HeaderRest(e, ImageSize(f), idx, |f.nodes|) + behind;
      Image(e, f) == SIGNATURE + Enc(e, Crc32(e, covered), 4) + covered
  {
    hide Enc, Crc32, HeaderRest, AlignUp, Index;
    var idx := AlignUp(HEADER_SIZE + |f.data|);
    assert Covered(e, f) == HeaderRest(e, ImageSize(f), idx, |f.nodes|) + behind;
  }

  // ---------- what the checksum of an image is worth ----------

  lemma BytesApart(x: byte, y: byte)
    requires x as bv8 == y as bv8
    ensures x == y
  {
    ByteBack(x);
    ByteBack(y);
  }

  lemma NextBv8(b: bv8)
    requires b != 255
    ensures (b + 1) as int == b as int + 1
  {
  }

  lemma LastBv8(b: bv8)
    ensures b == 255 ==> b as int == 255
  {
  }

  /** The bit vector of a number, found by counting up to it. */
  lemma Counted(x: byte) returns (b: bv8)
    ensures b as int == x
  {
    b := 0;
    for i := 0 to x
      invariant b as int == i
    {
      LastBv8(b);
      NextBv8(b);
      b := b + 1;
    }
  }

  lemma Bv8Back(x: bv8)
    ensures (x as int) as bv8 == x
  {
  }

  lemma ByteBack(x: byte)
    ensures (x as bv8) as int == x
  {
    var b := Counted(x);
    Bv8Back(b);
  }

  lemma WordBack(a: bv32)
    ensures (a as nat) as bv32 == a
  {
  }

  /** In a little-endian image any change inside 32 consecutive bits behind the checksum shows. */
  lemma LittleEndianDetects(s: seq<byte>, t: seq<byte>, k: nat)
    requires |s| == |t| && s != t && AgreeOutside(ToBv(s), ToBv(t), k)
    ensures Crc32(Little, s) != Crc32(Little, t)
  {
    hide Checksum, AgreeOutside;
    var i :| 0 <= i < |s| && s[i] != t[i];
    if ToBv(s)[i] == ToBv(t)[i] { BytesApart(s[i], t[i]); }
    BurstDetected(0xffff_ffff, ToBv(s), ToBv(t), k);
    ComplementApart(Checksum(0xffff_ffff, ToBv(s), POLY_LE), Checksum(0xffff_ffff, ToBv(t), POLY_LE));
  }

  lemma ComplementApart(a: bv32, b: bv32)
    requires a != b
    ensures Complement(a) != Complement(b)
  {
    if !a == !b { NotInjective(a, b); }
    if (!a) as nat == (!b) as nat { NatInjective(!a, !b); }
  }

  lemma NotInjective(a: bv32, b: bv32)
    requires !a == !b
    ensures a == b
  {
  }

  lemma NatInjective(a: bv32, b: bv32)
    requires a as nat == b as nat
    ensures a == b
  {
    WordBack(a);
    WordBack(b);
  }

  function Flipped(w: seq<byte>): (w': seq<byte>)
    requires |w| == 4
    ensures |w'| == 4
  {
    seq(4, i requires 0 <= i < 4 => Flip(ToBv(w))[i] as int)
  }

  lemma FlippedBytes(w: seq<byte>)
    requires |w| == 4
    ensures ToBv(Flipped(w)) == Flip(ToBv(w))
  {
    hide Flip;
    var f := Flip(ToBv(w));
    forall i | 0 <= i < 4 ensures ToBv(Flipped(w))[i] == f[i] { Bv8Back(f[i]); }
  }

  lemma ToBvMiddle(p: seq<byte>, w: seq<byte>, q: seq<byte>)
    ensures ToBv(p + w + q) == ToBv(p) + ToBv(w) + ToBv(q)
  {
    hide ToBv;
    ToBvConcat(p + w, q);
    ToBvConcat(p, w);
  }

  /** In a big-endian image every four bytes can be changed without the checksum noticing. */
  lemma BigEndianBlind(p: seq<byte>, w: seq<byte>, q: seq<byte>)
    requires |w| == 4
    ensures Flipped(w) != w && Crc32(Big, p + w + q) == Crc32(Big, p + Flipped(w) + q)
  {
    hide Checksum, Flip, ToBv, Flipped, Complement;
    ToBvSize(w);
    FlippedBytes(w);
    BigEndianMisses(0xffff_ffff, ToBv(p), ToBv(w), ToBv(q));
    ToBvMiddle(p, w, q);
    ToBvMiddle(p, Flipped(w), q);
  }

  lemma ToBvSize(w: seq<byte>)
    ensures |ToBv(w)| == |w|
  {
  }
}
