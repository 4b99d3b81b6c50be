/** What the script commands of syspagen mean, as steps on an abstract syspage. */
module SyspageSpec {
  import opened Basics
  import opened Bytes

  const SEMICOLON: byte := 59
  const DOT: byte := 46
  const DASH: byte := 45
  const CHAR_X: byte := 88

  const CMD_ALIAS: cstring := [97, 108, 105, 97, 115]
  const CMD_MAP: cstring := [109, 97, 112]
  const CMD_APP: cstring := [97, 112, 112]
  const CMD_CONSOLE: cstring := [99, 111, 110, 115, 111, 108, 101]

  /** Attribute letters r, w, x, s, c, b in the order of their bits. */
  const ATTRS: seq<byte> := [114, 119, 120, 115, 99, 98]

  datatype Arch = Arch32 | Arch64 {
    /** Bytes in an address, a pointer or a size of the target. */
    function W(): (w: nat)
      ensures w == 4 || w == 8
    {
      if Arch32? then 4 else 8
    }
    function Limit(): nat { if Arch32? then U32 else U64 }
    function HeaderSize(): nat { 8 + 4 * W() }
    function MapSize(): nat { 6 * W() + 5 }
    function ProgSize(): nat { 9 * W() }
  }

  /** The command-line parameters, and the C library function the commands call. */
  datatype Config = Config(arch: Arch, pkernel: nat, offs: nat, maxsz: nat, strtoul: cstring -> Parsed) {
    /** The syspage fits the target's address space and holds more than its header. */
    ghost predicate Valid() {
      pkernel + offs + maxsz <= arch.Limit() && Align8(arch.HeaderSize()) < maxsz
    }
    function Base(): nat { pkernel + offs }

    /** strtoul returns an unsigned long and stops inside its argument. */
    function Strtoul(s: cstring): (p: Parsed)
      ensures p.value < U64 && p.used <= |s|
    {
      var p := strtoul(s);
      Parsed(p.value % U64, if p.used <= |s| then p.used else |s|)
    }

    /** An argument that must be one number and nothing after it. */
    function Number(s: cstring): Option<nat> {
      var p := Strtoul(s);
      if p.used == |s| then Some(p.value) else None
    }
  }

  datatype Alias = Alias(name: cstring, addr: nat, size: nat)
  datatype MapEntry = MapEntry(name: cstring, start: nat, end: nat, attr: nat, id: byte)
  datatype ProgEntry = ProgEntry(argv: cstring, start: nat, end: nat, imaps: seq<byte>, dmaps: seq<byte>)

  datatype Syspage = Syspage(
    imgsz: nat, size: nat, console: nat,
    maps: seq<MapEntry>, progs: seq<ProgEntry>, aliases: seq<Alias>)

  function Align8(n: nat): (r: nat)
    ensures r % 8 == 0 && n <= r < n + 8
  {
    (n + 7) / 8 * 8
  }

  function Initial(c: Config): Syspage {
    Syspage(0, Align8(c.arch.HeaderSize()), 0, [], [], [])
  }

  /** The bump allocator: the new size of the syspage, unless the buffer is full. */
  function Alloc(c: Config, size: nat, sz: nat): (nat, bool) {
    var newSz := Align8(size + sz);
    if newSz >= c.maxsz then (size, false) else (newSz, true)
  }

  // ---------- alias ----------

  function Truncate(name: cstring, n: nat): cstring {
    if |name| <= n then name else name[..n]
  }

  function CmdAlias(c: Config, s: Syspage, argv: seq<cstring>): (Syspage, bool) {
    if |argv| != 4 then (s, false) else
    match (c.Number(argv[2]), c.Number(argv[3]))
    case (Some(addr), Some(size)) =>
      var entry := Alias(Truncate(argv[1], 31), (addr + c.pkernel) % U64, size);
      var top := (addr + size) % U64;
      (s.(aliases := [entry] + s.aliases, imgsz := if s.imgsz < top then top % U32 else s.imgsz), true)
    case _ => (s, false)
  }

  /** The most recent alias with that name. */
  function FindAlias(aliases: seq<Alias>, name: cstring): Option<Alias> {
    if aliases == [] then None
    else if aliases[0].name == name then Some(aliases[0])
    else FindAlias(aliases[1..], name)
  }

  // ---------- map ----------

  predicate Overlaps(m: MapEntry, start: nat, end: nat) {
    m.start < end && m.end > start
  }

  predicate Conflicts(maps: seq<MapEntry>, name: cstring, start: nat, end: nat) {
    exists i :: 0 <= i < |maps| && (Overlaps(maps[i], start, end) || maps[i].name == name)
  }

  function AttrBit(str: cstring, i: nat): nat
    requires i < 6
  {
    if ATTRS[i] in str then 1 else 0
  }

  function AttrMask(str: cstring): nat {
    AttrBit(str, 0) + 2 * AttrBit(str, 1) + 4 * AttrBit(str, 2) +
    8 * AttrBit(str, 3) + 16 * AttrBit(str, 4) + 32 * AttrBit(str, 5)
  }

  /** The mask of the letters in the string, whatever their order and repetition. */
  function StrAttr(str: cstring): Option<nat> {
    if exists k :: 0 <= k < |str| && str[k] !in ATTRS then None else Some(AttrMask(str))
  }

  function NextId(maps: seq<MapEntry>): byte {
    if maps == [] then 0 else (maps[|maps| - 1].id + 1) % 256
  }

  /** Room for a map record and its name. The record's room stays taken if the name does not fit. */
  function AllocMap(c: Config, size: nat, n: nat): (nat, bool) {
    var (z1, ok1) := Alloc(c, size, c.arch.MapSize());
    if ok1 then Alloc(c, z1, n + 1) else (size, false)
  }

  function AddMap(c: Config, s: Syspage, name: cstring, start: nat, end: nat, attr: nat): (Syspage, bool) {
    var (z, ok) := AllocMap(c, s.size, |name|);
    if !ok then (s.(size := z), false) else
    (s.(size := z, maps := s.maps + [MapEntry(name, start, end, attr, NextId(s.maps))]), true)
  }

  function CmdMap(c: Config, s: Syspage, argv: seq<cstring>): (Syspage, bool) {
    if |argv| != 5 then (s, false) else
    match (c.Number(argv[2]), c.Number(argv[3]), StrAttr(argv[4]))
    case (Some(start), Some(end), Some(attr)) =>
      var lo, hi := start % c.arch.Limit(), end % c.arch.Limit();
      if Conflicts(s.maps, argv[1], lo, hi) then (s, false)
      else AddMap(c, s, argv[1], lo, hi, attr)
    case _ => (s, false)
  }

  // ---------- app ----------

  /** The pieces of a separated list; an empty list has one empty piece. */
  function Split(s: seq<byte>, sep: byte): (r: seq<seq<byte>>)
    ensures |r| >= 1
  {
    if s == [] then [[]]
    else
      var rest := Split(s[1..], sep);
      if s[0] == sep then [[]] + rest else [[s[0]] + rest[0]] + rest[1..]
  }

  /** The index of the first map with that name. */
  function Lookup(maps: seq<MapEntry>, name: seq<byte>): (r: Option<nat>)
    ensures r.Some? ==> r.value < |maps| && maps[r.value].name == name
    ensures r.None? ==> forall i :: 0 <= i < |maps| ==> maps[i].name != name
  {
    if maps == [] then None
    else if maps[0].name == name then Some(0)
    else match Lookup(maps[1..], name)
      case Some(i) => Some(i + 1)
      case None => None
  }

  /** The ids of the named maps, position by position. */
  function Resolve(maps: seq<MapEntry>, names: seq<seq<byte>>): Option<seq<byte>> {
    if names == [] then Some([])
    else match (Lookup(maps, names[0]), Resolve(maps, names[1..]))
      case (Some(i), Some(ids)) => Some([maps[i].id] + ids)
      case _ => None
  }

  /** Room for a program record, its data map ids, code map ids and arguments: once the record fits,
      all three are asked for even when one of them is refused. */
  function AllocProg(c: Config, size: nat, nd: nat, ni: nat, na: nat): (nat, bool) {
    var (z1, ok1) := Alloc(c, size, c.arch.ProgSize());
    if !ok1 then (size, false) else
    var (z2, ok2) := Alloc(c, z1, nd);
    var (z3, ok3) := Alloc(c, z2, ni);
    var (z4, ok4) := Alloc(c, z3, na + 1);
    (z4, ok2 && ok3 && ok4)
  }

  function ExecArgv(argv: cstring, exec: bool): cstring {
    if exec then [CHAR_X] + argv else argv
  }

  /** A program loaded from an aliased range of the image. */
  function MakeProg(c: Config, alias: Alias, argv: cstring, imaps: seq<byte>, dmaps: seq<byte>): ProgEntry {
    ProgEntry(argv, alias.addr % c.arch.Limit(), (alias.addr + alias.size) % U64 % c.arch.Limit(), imaps, dmaps)
  }

  function AddProg(c: Config, s: Syspage, name: cstring, a: AppArgs): (Syspage, bool) {
    match FindAlias(s.aliases, name)
    case None => (s, false)
    case Some(alias) =>
      var inames, dnames := Split(a.imaps, SEMICOLON), Split(a.dmaps, SEMICOLON);
      var argv := ExecArgv(a.argv, a.exec);
      var (z, ok) := AllocProg(c, s.size, |dnames|, |inames|, |argv|);
      if !ok then (s.(size := z), false) else
      match (Resolve(s.maps, inames), Resolve(s.maps, dnames))
      case (Some(iids), Some(dids)) =>
        (s.(size := z, progs := s.progs + [MakeProg(c, alias, argv, iids, dids)]), true)
      case _ => (s.(size := z), false)
  }

  /** The command's flag: 'x' or 'X' and nothing else after the dash. */
  predicate IsExecFlag(s: cstring) {
    |s| == 2 && s[0] == DASH && (s[1] == 120 || s[1] == CHAR_X)
  }

  function ProgName(s: cstring): cstring {
    if s == [] || s[0] == SEMICOLON then [] else [s[0]] + ProgName(s[1..])
  }

  /** The parts of an app command line: program with its arguments, maps for code and for data. */
  datatype AppArgs = AppArgs(argv: cstring, imaps: cstring, dmaps: cstring, exec: bool)

  function ParseApp(argv: seq<cstring>): Option<AppArgs> {
    if |argv| < 5 || |argv| > 6 then None
    else
      var flagged := argv[2] != [] && argv[2][0] == DASH;
      if flagged && !IsExecFlag(argv[2]) then None else
      var first := if flagged then 3 else 2;
      if first != |argv| - 3 then None
      else Some(AppArgs(argv[first], argv[first + 1], argv[first + 2], flagged))
  }

  function CmdApp(c: Config, s: Syspage, argv: seq<cstring>): (Syspage, bool) {
    match ParseApp(argv)
    case None => (s, false)
    case Some(a) => AddProg(c, s, ProgName(a.argv), a)
  }

  // ---------- console ----------

  function CmdConsole(c: Config, s: Syspage, argv: seq<cstring>): (Syspage, bool) {
    if |argv| != 2 then (s, false) else
    var major := c.Strtoul(argv[1]);
    if major.used == |argv[1]| || argv[1][major.used] != DOT then (s, false) else
    match c.Number(argv[1][major.used + 1..])
    case Some(minor) => (s.(console := minor % U32), true)
    case None => (s, false)
  }

  // ---------- scripts ----------

  /** One line of a script, already split into words. Unknown commands are skipped. */
  function Exec(c: Config, s: Syspage, argv: seq<cstring>): (Syspage, bool) {
    if argv == [] then (s, true)
    else if argv[0] == CMD_ALIAS then CmdAlias(c, s, argv)
    else if argv[0] == CMD_MAP then CmdMap(c, s, argv)
    else if argv[0] == CMD_APP then CmdApp(c, s, argv)
    else if argv[0] == CMD_CONSOLE then CmdConsole(c, s, argv)
    else (s, true)
  }

  /** A script stops at its first failing line. */
  function Run(c: Config, s: Syspage, script: seq<seq<cstring>>): (Syspage, bool)
    decreases |script|
  {
    if script == [] then (s, true)
    else
      var (s', ok) := Exec(c, s, script[0]);
      if !ok then (s', false) else Run(c, s', script[1..])
  }
}
