/** What a mounted image holds, said from the entries of the source alone. */
module RofsMatch {
  import opened Basics
  import opened Bytes
  import opened RofsTree
  import opened RofsImage
  import opened Crc
  import opened CrcCheck

  // ---------- the tree and its source ----------

  /** A name of fewer than 207 bytes is stored whole, any other as its first 207 bytes. */
  predicate StoredName(stored: cstring, name: cstring) {
    if |name| < 207 then stored == name else |stored| == 207 && stored <= name
  }

  /** The mode without its bits 7, 4 and 1, in which owner, group and others may write. */
  predicate StoredMode(stored: nat, mode: nat) {
    mode == stored + 128 * (mode / 128 % 2) + 16 * (mode / 16 % 2) + 2 * (mode / 2 % 2)
  }

  /** Neither "." nor "..", and a directory or a file that can be read. */
  predicate Kept(e: Entry) {
    e.name != [46] && e.name != [46, 46] && (e.what.Dir? || (e.what.RegFile? && e.what.readable))
  }

  predicate MatchesDir(t: Tree, name: cstring, st: Stat, es: seq<Entry>)
    decreases es, 1
  {
    && t.TDir? && StoredName(t.name, name) && StoredMode(t.mode, st.mode)
    && t.uid == st.uid && t.gid == st.gid && t.time == st.time && MatchesKids(t.kids, es)
  }

  /** The entries that are kept, in order, and nothing else. */
  predicate MatchesKids(kids: seq<Tree>, es: seq<Entry>)
    decreases es, 0
  {
    if es == [] then kids == []
    else if Kept(es[0]) then kids != [] && MatchesEntry(kids[0], es[0]) && MatchesKids(kids[1..], es[1..])
    else MatchesKids(kids, es[1..])
  }

  predicate MatchesEntry(t: Tree, e: Entry)
    decreases e
  {
    match e.what
    case Dir(st, entries) => MatchesDir(t, e.name, st, entries)
    case RegFile(st, _, content) =>
      && t.TFile? && StoredName(t.name, e.name) && StoredMode(t.mode, st.mode)
      && t.uid == st.uid && t.gid == st.gid && t.time == st.time && t.content == content
    case _ => false
  }

  lemma NameStored(name: cstring)
    ensures StoredName(CutName(name), name)
  {
  }

  lemma ModeStored(mode: nat)
    ensures StoredMode(ClearWrite(mode), mode)
  {
    ClearWriteKeepsKind(mode);
  }

  lemma {:induction false} MeantDir(name: cstring, st: Stat, es: seq<Entry>)
    ensures MatchesDir(Meant(name, st, es), name, st, es)
    decreases es, 1
  {
    hide StoredName, StoredMode, CutName, ClearWrite, MatchesKids, MeantKids;
    NameStored(name);
    ModeStored(st.mode);
    MeantEntries(es);
  }

  lemma {:induction false} MeantEntries(es: seq<Entry>)
    ensures MatchesKids(MeantKids(es), es)
    decreases es, 0
  {
    hide MatchesEntry, MeantEntry;
    if es != [] {
      MeantEntries(es[1..]);
      MeantOne(es[0]);
      var rest := MeantKids(es[1..]);
      if Kept(es[0]) {
        assert (MeantEntry(es[0]) + rest)[1..] == rest;
      } else {
        assert [] + rest == rest;
      }
    }
  }

  lemma {:induction false} MeantOne(e: Entry)
    ensures if Kept(e) then |MeantEntry(e)| == 1 && MatchesEntry(MeantEntry(e)[0], e) else MeantEntry(e) == []
    decreases e
  {
    hide StoredName, StoredMode, CutName, ClearWrite, MatchesDir, Meant;
    NameStored(e.name);
    match e.what
    case Dir(st, entries) => if Kept(e) { MeantDir(e.name, st, entries); }
    case RegFile(st, _, _) => ModeStored(st.mode);
    case _ =>
  }

  /** The mounted image is the source: every directory and readable file under its own name, with its owner, group, time
      and mode, in the order of the entries, and every file with its bytes. */
  lemma MountMatches(e: Endian, name: cstring, st: Stat, es: seq<Entry>)
    requires StatOk(st) && IsDir(st.mode) && EntriesOk(es)
    requires ImageSize(Walked(name, st, es)) < U32
    ensures var t := Mount(e, Image(e, Walked(name, st, es))); t.Some? && MatchesDir(t.value, name, st, es)
  {
    hide Image, Mount, Meant, MatchesDir, EntriesOk, Walked, ImageSize, StatOk;
    MountGivesTree(e, name, st, es);
    MeantDir(name, st, es);
  }

  // ---------- how deep a tree nests ----------

  /** A way down through directories, by the places of their entries. */
  predicate WayDown(es: seq<Entry>, way: seq<nat>)
    decreases |way|
  {
    way == [] ||
    (way[0] < |es| && es[way[0]].name != [46] && es[way[0]].name != [46, 46] && es[way[0]].what.Dir? &&
     WayDown(es[way[0]].what.entries, way[1..]))
  }

  lemma {:induction false} NoLonger(es: seq<Entry>, way: seq<nat>)
    requires WayDown(es, way)
    ensures |way| < Depth(es)
    decreases |way|
  {
    if way != [] {
      var e := es[way[0]];
      NoLonger(e.what.entries, way[1..]);
      DepthAt(es, way[0]);
    }
  }

  lemma {:induction false} DepthAt(es: seq<Entry>, i: nat)
    requires i < |es| && es[i].name != [46] && es[i].name != [46, 46] && es[i].what.Dir?
    ensures Depth(es) > Depth(es[i].what.entries)
    decreases i
  {
    if i > 0 { DepthAt(es[1..], i - 1); }
  }

  lemma {:induction false} LongestWay(es: seq<Entry>) returns (way: seq<nat>)
    ensures WayDown(es, way) && |way| == Depth(es) - 1
    decreases es
  {
    if es == [] {
      way := [];
    } else {
      var e, rest := es[0], Depth(es[1..]);
      if !Skipped(e) && e.what.Dir? && 1 + Depth(e.what.entries) > rest {
        var below := LongestWay(e.what.entries);
        way := [0] + below;
        assert way[1..] == below;
      } else {
        var other := LongestWay(es[1..]);
        if other == [] {
          way := [];
        } else {
          way := [other[0] + 1] + other[1..];
          assert way[1..] == other[1..];
        }
      }
    }
  }

  /** Nesting stays within a limit exactly when every way down enters fewer directories. */
  lemma DepthWithin(es: seq<Entry>, limit: nat)
    ensures Depth(es) <= limit <==> forall way :: WayDown(es, way) ==> |way| < limit
  {
    if Depth(es) <= limit {
      forall way | WayDown(es, way) ensures |way| < limit { NoLonger(es, way); }
    } else {
      var way := LongestWay(es);
      assert WayDown(es, way);
    }
  }

  // ---------- numbers byte by byte ----------

  lemma FourBytes(v: nat)
    ensures LeBytes(v, 4) == [v % 256, v / 256 % 256, v / 256 / 256 % 256, v / 256 / 256 / 256 % 256]
  {
    var v1, v2, v3 := v / 256, v / 256 / 256, v / 256 / 256 / 256;
    assert LeBytes(v3, 1) == [v3 % 256] + LeBytes(v3 / 256, 0) == [v3 % 256];
    assert LeBytes(v2, 2) == [v2 % 256] + LeBytes(v3, 1);
    assert LeBytes(v1, 3) == [v1 % 256] + LeBytes(v2, 2);
    assert LeBytes(v, 4) == [v % 256] + LeBytes(v1, 3);
  }

  lemma ReverseFour(s: seq<byte>)
    requires |s| == 4
    ensures Reverse(s) == [s[3], s[2], s[1], s[0]]
  {
    assert s[1..][1..][1..][1..] == [];
    assert Reverse(s[1..][1..][1..]) == [] + [s[3]];
    assert Reverse(s[1..][1..]) == Reverse(s[1..][1..][1..]) + [s[2]];
    assert Reverse(s[1..]) == Reverse(s[1..][1..]) + [s[1]];
  }

  /** A number in four bytes: the lowest byte first in a little-endian image, last in a big-endian one. */
  lemma EncFour(e: Endian, v: nat)
    requires v < U32
    ensures var b0, b1, b2, b3 := v % 256, v / 256 % 256, v / 256 / 256 % 256, v / 256 / 256 / 256;
      b3 < 256 && Enc(e, v, 4) == if e.Little? then [b0, b1, b2, b3] else [b3, b2, b1, b0]
  {
    hide LeBytes, Reverse;
    FourBytes(v);
    ReverseFour(LeBytes(v, 4));
  }

  /** A number in eight bytes is its low half in four and its high half in four. */
  lemma EncEight(e: Endian, v: nat)
    ensures var low, high := LeBytes(v, 4), LeBytes(v / 256 / 256 / 256 / 256, 4);
      Enc(e, v, 8) == if e.Little? then low + high else Reverse(high) + Reverse(low)
  {
    hide LeBytes, Reverse;
    EightSplits(v);
    ReverseConcat(LeBytes(v, 4), LeBytes(v / 256 / 256 / 256 / 256, 4));
  }

  lemma OneByte(v: nat, n: nat)
    ensures LeBytes(v, n + 1) == [v % 256] + LeBytes(v / 256, n)
  {
  }

  lemma EightSplits(v: nat)
    ensures LeBytes(v, 8) == LeBytes(v, 4) + LeBytes(v / 256 / 256 / 256 / 256, 4)
  {
    hide LeBytes;
    var v1, v2, v3 := v / 256, v / 256 / 256, v / 256 / 256 / 256;
    OneByte(v, 7);
    OneByte(v1, 6);
    OneByte(v2, 5);
    OneByte(v3, 4);
    FourBytes(v);
  }

  lemma {:induction false} ReverseConcat(a: seq<byte>, b: seq<byte>)
    ensures Reverse(a + b) == Reverse(b) + Reverse(a)
    decreases |a|
  {
    if a == [] {
      assert a + b == b;
    } else {
      assert (a + b)[1..] == a[1..] + b;
      ReverseConcat(a[1..], b);
    }
  }

  lemma ZeroField(e: Endian)
    ensures Enc(e, 0, 4) == [0, 0, 0, 0]
  {
    EncFour(e, 0);
  }

  /** A node has its time at 0, its parent, number and mode at 8, 12 and 16, owner and group at 24 and 28, the place and size
      of its data at 32 and 40, its name at 48, and zeros in between and behind. */
  lemma NodeFields(e: Endian, n: Node)
    requires |n.name| <= 207
    ensures var b := NodeBytes(e, n);
      && b[..8] == Enc(e, n.timestamp, 8) && b[8..12] == Enc(e, n.parentId, 4) && b[12..16] == Enc(e, n.id, 4)
      && b[16..20] == Enc(e, n.mode, 4) && b[24..28] == Enc(e, n.uid, 4) && b[28..32] == Enc(e, n.gid, 4)
      && b[32..36] == Enc(e, n.offset, 4) && b[40..44] == Enc(e, n.size, 4) && b[48..48 + |n.name|] == n.name
      && forall i :: (20 <= i < 24 || 36 <= i < 40 || 44 <= i < 48 || 48 + |n.name| <= i < 256) ==> b[i] == 0
  {
    hide Enc;
    ZeroField(e);
    var h, t := NodeHead(e, n), NodeTail(e, n);
    assert NodeBytes(e, n) == h + t + NameField(n.name) + [0];
    assert h[20..24] == [0, 0, 0, 0] && t[12..16] == [0, 0, 0, 0] && t[20..24] == [0, 0, 0, 0];
  }

  lemma HeaderRestParts(e: Endian, imgSize: nat, idxOffs: nat, nodeCnt: nat)
    ensures var r := HeaderRest(e, imgSize, idxOffs, nodeCnt);
      r[..4] == Enc(e, imgSize, 4) && r[8..12] == Enc(e, idxOffs, 4) && r[16..20] == Enc(e, nodeCnt, 4)
  {
    hide Enc;
  }

  /** An image begins with "ROFS"; its size, the place of its index and its number of nodes stand at 8, 16 and 24. */
  lemma HeaderNumbers(e: Endian, f: Flat)
    requires ImageSize(f) < U32
    ensures var img := Image(e, f); var idx := AlignUp(64 + |f.data|);
      && |img| == idx + 256 * |f.nodes| && |img| >= 64
      && img[..4] == [82, 79, 70, 83] && img[8..12] == Enc(e, |img|, 4)
      && img[16..20] == Enc(e, idx, 4) && img[24..28] == Enc(e, |f.nodes|, 4)
      && img[64..64 + |f.data|] == f.data && img[idx..] == Index(e, f.nodes)
  {
    hide Enc, Index, Image, Covered, AlignUp, Crc32, HeaderRest;
    ImageLayout(e, f);
    var img, idx := Image(e, f), AlignUp(64 + |f.data|);
    assert img[8..12] == img[8..64][..4];
    assert img[16..20] == img[8..64][8..12];
    assert img[24..28] == img[8..64][16..20];
    HeaderRestParts(e, |img|, idx, |f.nodes|);
  }

  /** The checksums of "123456789": the usual one in a little-endian image; in a big-endian one the mirrored polynomial,
      not mirrored in use, gives another. */
  lemma KnownChecksums()
    ensures Crc32(Little, [49, 50, 51, 52, 53, 54, 55, 56, 57]) == 0xcbf4_3926
    ensures Crc32(Big, [49, 50, 51, 52, 53, 54, 55, 56, 57]) == 0xfc4f_2be9
  {
    hide Checksum;
    var nine: seq<byte> := [49, 50, 51, 52, 53, 54, 55, 56, 57];
    assert ToBv(nine) == NINE;
    LittleNine();
    BigNine();
  }
}
