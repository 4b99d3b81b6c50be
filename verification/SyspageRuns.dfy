/** What holds of the abstract syspage after any script. */
module SyspageRuns {
  import opened Basics
  import opened Bytes
  import opened SyspageSpec

  // ---------- safety over all runs ----------

  /** Maps are pairwise disjoint, have different names, and are numbered in order. */
  ghost predicate MapsOk(maps: seq<MapEntry>) {
    && (forall i, j :: 0 <= i < j < |maps| ==>
      !Overlaps(maps[i], maps[j].start, maps[j].end) && maps[i].name != maps[j].name)
    && (forall i :: 0 <= i < |maps| ==> maps[i].id == i % 256)
  }

  /** No address lies in two maps, empty and reversed ranges included. */
  lemma MapsShareNoAddress(maps: seq<MapEntry>, i: nat, j: nat, addr: nat)
    requires MapsOk(maps) && i < |maps| && j < |maps|
    requires maps[i].start <= addr < maps[i].end
    requires maps[j].start <= addr < maps[j].end
    ensures i == j
  {
    if i < j {
      assert Overlaps(maps[i], maps[j].start, maps[j].end);
    } else if j < i {
      assert Overlaps(maps[j], maps[i].start, maps[i].end);
    }
  }

  lemma MapsOkSnoc(maps: seq<MapEntry>, m: MapEntry)
    requires MapsOk(maps) && !Conflicts(maps, m.name, m.start, m.end) && m.id == NextId(maps)
    ensures MapsOk(maps + [m])
  {
    var maps' := maps + [m];
    if maps != [] { assert maps[|maps| - 1].id == (|maps| - 1) % 256; }
    forall i, j | 0 <= i < j < |maps'|
      ensures !Overlaps(maps'[i], maps'[j].start, maps'[j].end) && maps'[i].name != maps'[j].name
    {
      assert maps'[i] == maps[i];
    }
  }

  lemma AddMapKeepsMapsOk(c: Config, s: Syspage, name: cstring, start: nat, end: nat, attr: nat)
    requires MapsOk(s.maps) && !Conflicts(s.maps, name, start, end)
    ensures MapsOk(AddMap(c, s, name, start, end, attr).0.maps)
    ensures s.maps <= AddMap(c, s, name, start, end, attr).0.maps
  {
    hide MapsOk, Conflicts, NextId, AllocMap;
    if AllocMap(c, s.size, |name|).1 {
      MapsOkSnoc(s.maps, MapEntry(name, start, end, attr, NextId(s.maps)));
    }
  }

  lemma ExecOtherMaps(c: Config, s: Syspage, argv: seq<cstring>)
    requires argv == [] || argv[0] != CMD_MAP
    ensures Exec(c, s, argv).0.maps == s.maps
  {
  }

  lemma ExecKeepsMapsOk(c: Config, s: Syspage, argv: seq<cstring>)
    requires MapsOk(s.maps)
    ensures MapsOk(Exec(c, s, argv).0.maps)
    ensures s.maps <= Exec(c, s, argv).0.maps
  {
    if argv == [] || argv[0] != CMD_MAP {
      ExecOtherMaps(c, s, argv);
    } else if |argv| == 5 {
      match (c.Number(argv[2]), c.Number(argv[3]), StrAttr(argv[4]))
      case (Some(start), Some(end), Some(attr)) =>
        var lo, hi := start % c.arch.Limit(), end % c.arch.Limit();
        if !Conflicts(s.maps, argv[1], lo, hi) {
          AddMapKeepsMapsOk(c, s, argv[1], lo, hi, attr);
        }
      case _ =>
    }
  }

  /** Every command, failing or not, only ever extends the lists, one entry at a time;
      one that fails leaves all but the size as it was. */
  lemma ExecOnlyAppends(c: Config, s: Syspage, argv: seq<cstring>)
    ensures var (s', ok) := Exec(c, s, argv);
      && s.maps <= s'.maps && |s'.maps| <= |s.maps| + 1
      && s.progs <= s'.progs && |s'.progs| <= |s.progs| + 1
      && s.size <= s'.size
      && (s'.maps == s.maps || s'.progs == s.progs)
      && (!ok ==> s' == s.(size := s'.size))
  {
    hide StrAttr, Conflicts, Split, Resolve, FindAlias, ProgName, NextId, MakeProg, ParseApp;
  }

  lemma {:induction false} RunKeepsMapsOk(c: Config, s: Syspage, script: seq<seq<cstring>>)
    requires MapsOk(s.maps)
    ensures MapsOk(Run(c, s, script).0.maps)
    ensures s.maps <= Run(c, s, script).0.maps
    decreases |script|
  {
    if script != [] {
      ExecKeepsMapsOk(c, s, script[0]);
      if Exec(c, s, script[0]).1 { RunKeepsMapsOk(c, Exec(c, s, script[0]).0, script[1..]); }
    }
  }

  /** Name resolution is a function: any map with the name is the one found. */
  lemma LookupIsUnique(maps: seq<MapEntry>, i: nat)
    requires MapsOk(maps) && i < |maps|
    ensures Lookup(maps, maps[i].name) == Some(i)
  {
    var r := Lookup(maps, maps[i].name);
    assert maps[r.value].name == maps[i].name;
  }

  lemma LookupStable(maps: seq<MapEntry>, more: seq<MapEntry>, name: seq<byte>)
    requires maps <= more && MapsOk(more) && Lookup(maps, name).Some?
    ensures Lookup(more, name) == Lookup(maps, name)
  {
    LookupIsUnique(more, Lookup(maps, name).value);
  }

  lemma {:induction false} ResolveStable(maps: seq<MapEntry>, more: seq<MapEntry>, names: seq<seq<byte>>)
    requires maps <= more && MapsOk(more) && Resolve(maps, names).Some?
    ensures Resolve(more, names) == Resolve(maps, names)
  {
    if names != [] {
      LookupStable(maps, more, names[0]);
      ResolveStable(maps, more, names[1..]);
    }
  }

  /** Resolution position by position: the ids are those of the maps with these names. */
  lemma {:induction false} ResolvePositions(maps: seq<MapEntry>, names: seq<seq<byte>>)
    requires MapsOk(maps)
    ensures Resolve(maps, names).Some? <==>
      forall k :: 0 <= k < |names| ==> exists i :: 0 <= i < |maps| && maps[i].name == names[k]
    ensures Resolve(maps, names).Some? ==>
      var ids := Resolve(maps, names).value;
      |ids| == |names| &&
      forall k, i :: 0 <= k < |names| && 0 <= i < |maps| && maps[i].name == names[k] ==> ids[k] == i % 256
  {
    if names != [] {
      ResolvePositions(maps, names[1..]);
      if Lookup(maps, names[0]).Some? {
        LookupIsUnique(maps, Lookup(maps, names[0]).value);
        assert forall k :: 0 < k < |names| ==> names[k] == names[1..][k - 1];
      }
      assert forall k :: 0 <= k < |names| - 1 ==> names[1..][k] == names[k + 1];
    }
  }

  // ---------- what a successful script denotes ----------

  function MapLines(c: Config, script: seq<seq<cstring>>, n: nat): seq<MapEntry> {
    if script == [] then []
    else
      var argv := script[0];
      if |argv| == 5 && argv[0] == CMD_MAP then
        match (c.Number(argv[2]), c.Number(argv[3]), StrAttr(argv[4]))
        case (Some(start), Some(end), Some(attr)) =>
          [MapEntry(argv[1], start % c.arch.Limit(), end % c.arch.Limit(), attr, n % 256)]
          + MapLines(c, script[1..], n + 1)
        case _ => []
      else MapLines(c, script[1..], n)
  }

  function NextAliases(c: Config, aliases: seq<Alias>, argv: seq<cstring>): seq<Alias> {
    if |argv| == 4 && argv[0] == CMD_ALIAS then
      match (c.Number(argv[2]), c.Number(argv[3]))
      case (Some(addr), Some(size)) => [Alias(Truncate(argv[1], 31), (addr + c.pkernel) % U64, size)] + aliases
      case _ => aliases
    else aliases
  }

  /** The program of an app line, given the maps and aliases: none if a name is unknown. */
  function ProgLine(c: Config, argv: seq<cstring>, maps: seq<MapEntry>, aliases: seq<Alias>): seq<ProgEntry> {
    if argv != [] && argv[0] == CMD_APP && ParseApp(argv).Some? then
      var a := ParseApp(argv).value;
      match (FindAlias(aliases, ProgName(a.argv)),
             Resolve(maps, Split(a.imaps, SEMICOLON)), Resolve(maps, Split(a.dmaps, SEMICOLON)))
      case (Some(alias), Some(iids), Some(dids)) => [MakeProg(c, alias, ExecArgv(a.argv, a.exec), iids, dids)]
      case _ => []
    else []
  }

  /** The programs of a script whose finished list of maps is given: each app line resolves its
      names among all the maps, and its device among the aliases that precede it. */
  function ProgLines(c: Config, script: seq<seq<cstring>>, maps: seq<MapEntry>, aliases: seq<Alias>): seq<ProgEntry>
    decreases |script|
  {
    if script == [] then []
    else ProgLine(c, script[0], maps, aliases) +
         ProgLines(c, script[1..], maps, NextAliases(c, aliases, script[0]))
  }

  lemma {:induction false} RunMaps(c: Config, s: Syspage, script: seq<seq<cstring>>)
    requires MapsOk(s.maps) && Run(c, s, script).1
    ensures Run(c, s, script).0.maps == s.maps + MapLines(c, script, |s.maps|)
    decreases |script|
  {
    if script != [] {
      ExecKeepsMapsOk(c, s, script[0]);
      var s' := Exec(c, s, script[0]).0;
      RunMaps(c, s', script[1..]);
    }
  }

  lemma ExecProgs(c: Config, s: Syspage, argv: seq<cstring>, maps: seq<MapEntry>)
    requires Exec(c, s, argv).1 && s.maps <= maps && MapsOk(maps)
    ensures Exec(c, s, argv).0.aliases == NextAliases(c, s.aliases, argv)
    ensures Exec(c, s, argv).0.progs == s.progs + ProgLine(c, argv, maps, s.aliases)
  {
    if argv != [] && argv[0] == CMD_APP {
      var a := ParseApp(argv).value;
      ResolveStable(s.maps, maps, Split(a.imaps, SEMICOLON));
      ResolveStable(s.maps, maps, Split(a.dmaps, SEMICOLON));
    }
  }

  lemma {:induction false} RunProgs(c: Config, s: Syspage, script: seq<seq<cstring>>)
    requires MapsOk(s.maps) && Run(c, s, script).1
    ensures Run(c, s, script).0.progs == s.progs + ProgLines(c, script, Run(c, s, script).0.maps, s.aliases)
    decreases |script|
  {
    hide Exec, ProgLine, NextAliases, MapsOk;
    if script != [] {
      ExecKeepsMapsOk(c, s, script[0]);
      var s' := Exec(c, s, script[0]).0;
      RunProgs(c, s', script[1..]);
      RunKeepsMapsOk(c, s', script[1..]);
      ExecProgs(c, s, script[0], Run(c, s, script).0.maps);
    }
  }

  /** A script that succeeds builds exactly the maps of its map lines, numbered in order, and the
      programs of its app lines, every name resolved among all of those maps. */
  lemma RunMeaning(c: Config, script: seq<seq<cstring>>)
    requires Run(c, Initial(c), script).1
    ensures var s := Run(c, Initial(c), script).0;
      && s.maps == MapLines(c, script, 0)
      && s.progs == ProgLines(c, script, s.maps, [])
      && MapsOk(s.maps)
  {
    RunMaps(c, Initial(c), script);
    RunProgs(c, Initial(c), script);
    RunKeepsMapsOk(c, Initial(c), script);
  }

  // ---------- the image size ----------

  /** Where the file of an alias line ends in the image; 0 for other lines. */
  function FileEnd(c: Config, argv: seq<cstring>): nat {
    if |argv| == 4 && argv[0] == CMD_ALIAS then
      match (c.Number(argv[2]), c.Number(argv[3]))
      case (Some(addr), Some(size)) => addr + size
      case _ => 0
    else 0
  }

  lemma ExecImgsz(c: Config, s: Syspage, argv: seq<cstring>)
    requires Exec(c, s, argv).1 && s.imgsz < U32
    ensures Exec(c, s, argv).0.imgsz < U32
    ensures FileEnd(c, argv) < U32 ==>
      Exec(c, s, argv).0.imgsz == if s.imgsz < FileEnd(c, argv) then FileEnd(c, argv) else s.imgsz
  {
    hide CmdMap, CmdApp, CmdConsole;
    if argv != [] && argv[0] != CMD_ALIAS { OtherImgsz(c, s, argv); }
  }

  lemma OtherImgsz(c: Config, s: Syspage, argv: seq<cstring>)
    ensures CmdMap(c, s, argv).0.imgsz == CmdApp(c, s, argv).0.imgsz == CmdConsole(c, s, argv).0.imgsz == s.imgsz
  {
    hide StrAttr, Conflicts, Split, Resolve, FindAlias, ProgName, NextId, MakeProg, ParseApp;
  }

  lemma {:induction false} RunImgsz(c: Config, s: Syspage, script: seq<seq<cstring>>)
    requires Run(c, s, script).1 && s.imgsz < U32
    ensures var z := Run(c, s, script).0.imgsz; z < U32
    ensures var z := Run(c, s, script).0.imgsz;
      (forall i :: 0 <= i < |script| ==> FileEnd(c, script[i]) < U32) ==>
        (s.imgsz <= z && (forall i :: 0 <= i < |script| ==> FileEnd(c, script[i]) <= z))
    ensures var z := Run(c, s, script).0.imgsz;
      (forall i :: 0 <= i < |script| ==> FileEnd(c, script[i]) < U32) ==>
        (z == s.imgsz || exists i :: 0 <= i < |script| && z == FileEnd(c, script[i]))
    decreases |script|
  {
    hide Exec, FileEnd;
    if script != [] {
      ExecImgsz(c, s, script[0]);
      RunImgsz(c, Exec(c, s, script[0]).0, script[1..]);
      if forall i :: 0 <= i < |script| ==> FileEnd(c, script[i]) < U32 {
        assert forall i :: 0 <= i < |script[1..]| ==> script[1..][i] == script[i + 1];
        assert forall i :: 0 < i < |script| ==> script[i] == script[1..][i - 1];
      }
    }
  }

  /** The image size covers every file exactly when every file ends below 4 GB, where its 32-bit field can
      hold the end; it is then the greatest of the ends. */
  lemma ImageSizeCovers(c: Config, script: seq<seq<cstring>>)
    requires Run(c, Initial(c), script).1
    ensures var z := Run(c, Initial(c), script).0.imgsz;
      && ((forall i :: 0 <= i < |script| ==> FileEnd(c, script[i]) <= z) <==>
          (forall i :: 0 <= i < |script| ==> FileEnd(c, script[i]) < U32))
      && ((forall i :: 0 <= i < |script| ==> FileEnd(c, script[i]) < U32) ==>
          (z == 0 || exists i :: 0 <= i < |script| && z == FileEnd(c, script[i])))
  {
    hide FileEnd, Run;
    RunImgsz(c, Initial(c), script);
  }

  /** A script of one line whose file ends at 8 GB, the field being 0; strtoul reads 4 GB from any word. */
  lemma ImageSizeLost(arch: Arch, name: cstring, word: cstring)
    requires word != []
    ensures var c := Config(arch, 0, 0, 4096, (s: cstring) => Parsed(U32, |s|));
      var script := [[CMD_ALIAS, name, word, word]];
      var (s, ok) := Run(c, Initial(c), script);
      c.Valid() && ok && FileEnd(c, script[0]) == 2 * U32 && s.imgsz == 0
  {
    var c := Config(arch, 0, 0, 4096, (s: cstring) => Parsed(U32, |s|));
    assert c.Number(word) == Some(U32);
    var argv := [CMD_ALIAS, name, word, word];
    var script: seq<seq<cstring>> := [argv];
    var s1 := Exec(c, Initial(c), argv).0;
    assert script[1..] == [];
    assert Run(c, s1, []) == (s1, true);
  }

  /** Ids tell maps apart exactly as long as there are at most 256 maps. */
  lemma IdsTellApart(maps: seq<MapEntry>)
    requires MapsOk(maps)
    ensures (forall i, j :: 0 <= i < j < |maps| ==> maps[i].id != maps[j].id) <==> |maps| <= 256
  {
    if |maps| > 256 { assert maps[0].id == maps[256].id; }
  }

  // ---------- the two architectures ----------

  ghost predicate LineFits32(c: Config, argv: seq<cstring>) {
    && (|argv| == 4 && argv[0] == CMD_ALIAS ==>
      match (c.Number(argv[2]), c.Number(argv[3]))
      case (Some(addr), Some(size)) => addr + size + c.pkernel < U32
      case _ => true)
    && (|argv| == 5 && argv[0] == CMD_MAP ==>
      match (c.Number(argv[2]), c.Number(argv[3]))
      case (Some(start), Some(end)) => start < U32 && end < U32
      case _ => true)
  }

  ghost predicate AliasesFit32(aliases: seq<Alias>) {
    forall i :: 0 <= i < |aliases| ==> aliases[i].addr + aliases[i].size < U32
  }

  /** The states of the two builders: the same but for the sizes. */
  ghost predicate Simulates(s32: Syspage, s64: Syspage) {
    s32.size <= s64.size && s32 == s64.(size := s32.size) && AliasesFit32(s32.aliases)
  }

  lemma {:induction false} FindAliasFits(aliases: seq<Alias>, name: cstring)
    requires AliasesFit32(aliases) && FindAlias(aliases, name).Some?
    ensures FindAlias(aliases, name).value.addr + FindAlias(aliases, name).value.size < U32
  {
    if aliases[0].name != name { FindAliasFits(aliases[1..], name); }
  }

  /** The allocator is monotone: less room taken and less asked for succeed whenever more do. */
  lemma AllocMonotone(c32: Config, c64: Config, size: nat, size': nat, sz: nat, sz': nat)
    requires c32.maxsz == c64.maxsz && size <= size' && sz <= sz'
    requires Alloc(c64, size', sz').1
    ensures Alloc(c32, size, sz).1 && Alloc(c32, size, sz).0 <= Alloc(c64, size', sz').0
  {
    assert (size + sz + 7) / 8 <= (size' + sz' + 7) / 8;
  }

  lemma AliasSimulates(c: Config, s32: Syspage, s64: Syspage, argv: seq<cstring>)
    requires Simulates(s32, s64) && LineFits32(c, argv)
    requires argv != [] && argv[0] == CMD_ALIAS && CmdAlias(c.(arch := Arch64), s64, argv).1
    ensures CmdAlias(c.(arch := Arch32), s32, argv).1
    ensures Simulates(CmdAlias(c.(arch := Arch32), s32, argv).0, CmdAlias(c.(arch := Arch64), s64, argv).0)
  {
  }

  lemma AddMapSimulates(c: Config, s32: Syspage, s64: Syspage, name: cstring, start: nat, end: nat, attr: nat)
    requires Simulates(s32, s64)
    requires AddMap(c.(arch := Arch64), s64, name, start, end, attr).1
    ensures AddMap(c.(arch := Arch32), s32, name, start, end, attr).1
    ensures Simulates(AddMap(c.(arch := Arch32), s32, name, start, end, attr).0,
                      AddMap(c.(arch := Arch64), s64, name, start, end, attr).0)
  {
    var c32, c64 := c.(arch := Arch32), c.(arch := Arch64);
    AllocMonotone(c32, c64, s32.size, s64.size, c32.arch.MapSize(), c64.arch.MapSize());
    var z32, z64 := Alloc(c32, s32.size, c32.arch.MapSize()).0, Alloc(c64, s64.size, c64.arch.MapSize()).0;
    AllocMonotone(c32, c64, z32, z64, |name| + 1, |name| + 1);
  }

  lemma AllocProgMonotone(c: Config, size: nat, size': nat, nd: nat, ni: nat, na: nat)
    requires size <= size' && AllocProg(c.(arch := Arch64), size', nd, ni, na).1
    ensures AllocProg(c.(arch := Arch32), size, nd, ni, na).1
    ensures AllocProg(c.(arch := Arch32), size, nd, ni, na).0 <= AllocProg(c.(arch := Arch64), size', nd, ni, na).0
  {
    var c32, c64 := c.(arch := Arch32), c.(arch := Arch64);
    AllocMonotone(c32, c64, size, size', c32.arch.ProgSize(), c64.arch.ProgSize());
    var x1, y1 := Alloc(c32, size, c32.arch.ProgSize()).0, Alloc(c64, size', c64.arch.ProgSize()).0;
    AllocMonotone(c32, c64, x1, y1, nd, nd);
    var x2, y2 := Alloc(c32, x1, nd).0, Alloc(c64, y1, nd).0;
    AllocMonotone(c32, c64, x2, y2, ni, ni);
    AllocMonotone(c32, c64, Alloc(c32, x2, ni).0, Alloc(c64, y2, ni).0, na + 1, na + 1);
  }

  lemma MapSimulates(c: Config, s32: Syspage, s64: Syspage, argv: seq<cstring>)
    requires Simulates(s32, s64) && LineFits32(c, argv)
    requires argv != [] && argv[0] == CMD_MAP && CmdMap(c.(arch := Arch64), s64, argv).1
    ensures CmdMap(c.(arch := Arch32), s32, argv).1
    ensures Simulates(CmdMap(c.(arch := Arch32), s32, argv).0, CmdMap(c.(arch := Arch64), s64, argv).0)
  {
    hide AddMap, StrAttr;
    var c32, c64 := c.(arch := Arch32), c.(arch := Arch64);
    assert c32.Number(argv[2]) == c64.Number(argv[2]) == c.Number(argv[2]);
    assert c32.Number(argv[3]) == c64.Number(argv[3]) == c.Number(argv[3]);
    var start, end, attr := c.Number(argv[2]).value, c.Number(argv[3]).value, StrAttr(argv[4]).value;
    assert start % U32 == start == start % U64 && end % U32 == end == end % U64;
    AddMapSimulates(c, s32, s64, argv[1], start, end, attr);
  }

  lemma MakeProgAgrees(c: Config, alias: Alias, argv: cstring, imaps: seq<byte>, dmaps: seq<byte>)
    requires alias.addr + alias.size < U32
    ensures MakeProg(c.(arch := Arch32), alias, argv, imaps, dmaps) ==
            MakeProg(c.(arch := Arch64), alias, argv, imaps, dmaps)
  {
  }

  lemma AddProgSimulates(c: Config, s32: Syspage, s64: Syspage, name: cstring, a: AppArgs)
    requires Simulates(s32, s64)
    requires AddProg(c.(arch := Arch64), s64, name, a).1
    ensures AddProg(c.(arch := Arch32), s32, name, a).1
    ensures Simulates(AddProg(c.(arch := Arch32), s32, name, a).0, AddProg(c.(arch := Arch64), s64, name, a).0)
  {
    FindAliasFits(s32.aliases, name);
    var inames, dnames := Split(a.imaps, SEMICOLON), Split(a.dmaps, SEMICOLON);
    AllocProgMonotone(c, s32.size, s64.size, |dnames|, |inames|, |ExecArgv(a.argv, a.exec)|);
    MakeProgAgrees(c, FindAlias(s32.aliases, name).value, ExecArgv(a.argv, a.exec),
                   Resolve(s32.maps, inames).value, Resolve(s32.maps, dnames).value);
  }

  lemma AppSimulates(c: Config, s32: Syspage, s64: Syspage, argv: seq<cstring>)
    requires Simulates(s32, s64)
    requires CmdApp(c.(arch := Arch64), s64, argv).1
    ensures CmdApp(c.(arch := Arch32), s32, argv).1
    ensures Simulates(CmdApp(c.(arch := Arch32), s32, argv).0, CmdApp(c.(arch := Arch64), s64, argv).0)
  {
    var a := ParseApp(argv).value;
    AddProgSimulates(c, s32, s64, ProgName(a.argv), a);
  }

  lemma ExecSimulates(c: Config, s32: Syspage, s64: Syspage, argv: seq<cstring>)
    requires Simulates(s32, s64) && LineFits32(c, argv)
    requires Exec(c.(arch := Arch64), s64, argv).1
    ensures Exec(c.(arch := Arch32), s32, argv).1
    ensures Simulates(Exec(c.(arch := Arch32), s32, argv).0, Exec(c.(arch := Arch64), s64, argv).0)
  {
    if argv != [] {
      if argv[0] == CMD_ALIAS {
        AliasSimulates(c, s32, s64, argv);
      } else if argv[0] == CMD_MAP {
        MapSimulates(c, s32, s64, argv);
      } else if argv[0] == CMD_APP {
        AppSimulates(c, s32, s64, argv);
      }
    }
  }

  /** If every address fits in 32 bits, a script that the 64-bit builder accepts is accepted by the
      32-bit one with the same limit, needs no more room there, and builds the same syspage. */
  lemma {:induction false} RunSimulates(c: Config, s32: Syspage, s64: Syspage, script: seq<seq<cstring>>)
    requires Simulates(s32, s64)
    requires forall i :: 0 <= i < |script| ==> LineFits32(c, script[i])
    requires Run(c.(arch := Arch64), s64, script).1
    ensures Run(c.(arch := Arch32), s32, script).1
    ensures Simulates(Run(c.(arch := Arch32), s32, script).0, Run(c.(arch := Arch64), s64, script).0)
    decreases |script|
  {
    if script != [] {
      var c32, c64 := c.(arch := Arch32), c.(arch := Arch64);
      ExecSimulates(c, s32, s64, script[0]);
      RunSimulates(c, Exec(c32, s32, script[0]).0, Exec(c64, s64, script[0]).0, script[1..]);
    }
  }

  lemma BuildersAgree(c: Config, script: seq<seq<cstring>>)
    requires forall i :: 0 <= i < |script| ==> LineFits32(c, script[i])
    requires Run(c.(arch := Arch64), Initial(c.(arch := Arch64)), script).1
    ensures var (s64, _) := Run(c.(arch := Arch64), Initial(c.(arch := Arch64)), script);
      var (s32, ok) := Run(c.(arch := Arch32), Initial(c.(arch := Arch32)), script);
      ok && s32.size <= s64.size && s32 == s64.(size := s32.size)
  {
    RunSimulates(c, Initial(c.(arch := Arch32)), Initial(c.(arch := Arch64)), script);
  }
}
