/** What a successful script leaves, said from the words of its lines alone. */
module SyspageWords {
  import opened Basics
  import opened Bytes
  import opened SyspageSpec
  import opened SyspageNames
  import opened SyspageRuns

  // ---------- words ----------

  /** "alias", "map", "app" and "console" in ASCII. */
  predicate IsLine(w: seq<cstring>, command: cstring) { w != [] && w[0] == command }

  const ALIAS: cstring := [97, 108, 105, 97, 115]
  const MAP: cstring := [109, 97, 112]
  const APP: cstring := [97, 112, 112]
  const CONSOLE: cstring := [99, 111, 110, 115, 111, 108, 101]

  /** The text of a word up to its first ';'. */
  predicate UpToSemicolon(text: cstring, name: cstring) {
    name <= text && 59 !in name && (|name| == |text| || text[|name|] == 59)
  }

  /** A name as an alias keeps it: its first 31 bytes. */
  predicate KeptAs(word: cstring, name: cstring) {
    name <= word && |name| == if |word| > 31 then 31 else |word|
  }

  /** Pieces with a ';' between any two. */
  function Joined(pieces: seq<seq<byte>>): seq<byte> {
    if pieces == [] then [] else if |pieces| == 1 then pieces[0] else pieces[0] + [59] + Joined(pieces[1..])
  }

  ghost predicate Pieces(word: cstring, pieces: seq<seq<byte>>) {
    pieces != [] && Joined(pieces) == word && forall k :: 0 <= k < |pieces| ==> 59 !in pieces[k]
  }

  /** The width of the target's addresses. */
  function Width(c: Config): (w: nat)
    ensures w > 0
  {
    if c.arch.Arch32? then 0x1_0000_0000 else 0x1_0000_0000_0000_0000
  }

  // ---------- app lines ----------

  /** Line a is the last alias line before line i that keeps this name. */
  ghost predicate LastAlias(script: seq<seq<cstring>>, i: nat, a: nat, name: cstring) {
    && a < i <= |script| && IsLine(script[a], ALIAS) && |script[a]| == 4 && KeptAs(script[a][1], name)
    && forall b :: a < b < i && IsLine(script[b], ALIAS) && |script[b]| == 4 ==> !KeptAs(script[b][1], name)
  }

  /** The ids of a list: one for each of its pieces, the number of the map of that name. */
  ghost predicate Ids(maps: seq<MapEntry>, word: cstring, ids: seq<byte>) {
    exists names: seq<seq<byte>> :: Pieces(word, names) && Numbers(maps, names, ids)
  }

  ghost predicate Numbers(maps: seq<MapEntry>, names: seq<seq<byte>>, ids: seq<byte>) {
    |ids| == |names| && forall k :: 0 <= k < |names| ==> Numbered(maps, names[k], ids[k])
  }

  ghost predicate Numbered(maps: seq<MapEntry>, name: seq<byte>, id: byte) {
    exists i :: 0 <= i < |maps| && maps[i].name == name && id == i % 256
  }

  /** A range of the image, reduced to the width of the target's addresses. */
  predicate Range(c: Config, addr: nat, size: nat, start: nat, end: nat) {
    start == (addr + c.pkernel) % Width(c) && end == (addr + c.pkernel + size) % Width(c)
  }

  ghost predicate FromAlias(c: Config, script: seq<seq<cstring>>, i: nat, text: cstring, p: ProgEntry) {
    exists a: nat, name: cstring :: UpToSemicolon(text, name) && LastAlias(script, i, a, name) &&
      c.Number(script[a][2]).Some? && c.Number(script[a][3]).Some? &&
      Range(c, c.Number(script[a][2]).value, c.Number(script[a][3]).value, p.start, p.end)
  }

  /** A program and the app line it comes from. */
  ghost predicate OfLine(c: Config, script: seq<seq<cstring>>, i: nat, maps: seq<MapEntry>, p: ProgEntry) {
    i < |script| && IsLine(script[i], APP) && (|script[i]| == 5 || |script[i]| == 6) &&
    var w := script[i]; var n := |w|;
    && (n == 6 ==> w[2] == [45, 120] || w[2] == [45, 88])
    && (n == 5 ==> w[2] == [] || w[2][0] != 45)
    && p.argv == (if n == 6 then [88] + w[n - 3] else w[n - 3])
    && Ids(maps, w[n - 2], p.imaps) && Ids(maps, w[n - 1], p.dmaps)
    && FromAlias(c, script, i, w[n - 3], p)
  }

  /** The app lines of a script, in order. */
  function AppLines(script: seq<seq<cstring>>): (r: seq<nat>)
    ensures forall j :: 0 <= j < |r| ==> r[j] < |script|
    decreases |script|
  {
    if script == [] then []
    else AppLines(script[..|script| - 1]) + if IsLine(script[|script| - 1], APP) then [|script| - 1] else []
  }

  // ---------- splitting ----------

  lemma JoinedMore(p: seq<byte>, rest: seq<seq<byte>>)
    ensures Joined([p]) == p
    ensures rest != [] ==> Joined([p] + rest) == p + [59] + Joined(rest)
  {
    assert ([p] + rest)[1..] == rest;
  }

  lemma Regroup(x: byte, p: seq<byte>, t: seq<byte>)
    ensures [x] + p + [59] + t == [x] + (p + [59] + t) && [] + [59] + t == [59] + t
  {
  }

  /** An empty piece in front of others, or more of the first piece. */
  lemma JoinedFront(x: byte, rest: seq<seq<byte>>)
    requires rest != []
    ensures Joined([[]] + rest) == [59] + Joined(rest)
    ensures Joined([[x] + rest[0]] + rest[1..]) == [x] + Joined(rest)
  {
    hide Joined;
    var p, tail := rest[0], rest[1..];
    JoinedMore([], rest);
    Regroup(x, p, Joined(rest));
    Regroup(x, p, Joined(tail));
    JoinedMore(p, tail);
    JoinedMore([x] + p, tail);
    assert rest == [p] + tail;
    if tail == [] { assert [p] + tail == [p] && [[x] + p] + tail == [[x] + p]; }
  }

  predicate NoneIn(x: byte, pieces: seq<seq<byte>>) { forall k :: 0 <= k < |pieces| ==> x !in pieces[k] }

  lemma NoneInFront(x: byte, rest: seq<seq<byte>>)
    requires rest != [] && NoneIn(59, rest)
    ensures NoneIn(59, [[]] + rest)
    ensures x != 59 ==> NoneIn(59, [[x] + rest[0]] + rest[1..])
  {
  }

  lemma {:induction false} SplitPieces(s: seq<byte>)
    ensures Joined(Split(s, 59)) == s && NoneIn(59, Split(s, 59))
  {
    hide Joined;
    if s == [] {
      JoinedNothing();
    } else {
      var rest := Split(s[1..], 59);
      SplitPieces(s[1..]);
      JoinedFront(s[0], rest);
      NoneInFront(s[0], rest);
      assert s == [s[0]] + s[1..];
    }
  }

  lemma JoinedNothing()
    ensures Joined([[]]) == []
  {
  }

  lemma {:induction false} ResolveNumbers(maps: seq<MapEntry>, names: seq<seq<byte>>)
    requires MapsOk(maps) && Resolve(maps, names).Some?
    ensures Numbers(maps, names, Resolve(maps, names).value)
  {
    hide MapsOk;
    if names != [] {
      ResolveNumbers(maps, names[1..]);
      var i, ids, rest := Lookup(maps, names[0]).value, Resolve(maps, names).value, Resolve(maps, names[1..]).value;
      IdIsNumber(maps, i);
      assert Numbered(maps, names[0], ids[0]);
      forall k | 0 <= k < |names| ensures Numbered(maps, names[k], ids[k]) {
        if k > 0 { assert ids[k] == rest[k - 1] && names[k] == names[1..][k - 1]; }
      }
    }
  }

  lemma IdIsNumber(maps: seq<MapEntry>, i: nat)
    requires MapsOk(maps) && i < |maps|
    ensures maps[i].id == i % 256
  {
  }

  lemma ResolveIds(maps: seq<MapEntry>, word: cstring)
    requires MapsOk(maps) && Resolve(maps, Split(word, 59)).Some?
    ensures Ids(maps, word, Resolve(maps, Split(word, 59)).value)
  {
    hide MapsOk, Resolve, Numbers, Joined;
    SplitPieces(word);
    ResolveNumbers(maps, Split(word, 59));
    assert Pieces(word, Split(word, 59));
  }

  lemma IdsStay(maps: seq<MapEntry>, more: seq<MapEntry>, word: cstring, ids: seq<byte>)
    requires Ids(maps, word, ids) && maps <= more
    ensures Ids(more, word, ids)
  {
    var names: seq<seq<byte>> :| Pieces(word, names) && Numbers(maps, names, ids);
    forall k | 0 <= k < |names| ensures Numbered(more, names[k], ids[k]) {
      assert Numbered(maps, names[k], ids[k]);
      var i :| 0 <= i < |maps| && maps[i].name == names[k] && ids[k] == i % 256;
      assert more[i] == maps[i];
    }
    assert Numbers(more, names, ids);
  }

  // ---------- aliases ----------

  lemma {:induction false} NameOfText(text: cstring)
    ensures UpToSemicolon(text, ProgName(text))
  {
    if text != [] && text[0] != 59 {
      NameOfText(text[1..]);
      var n := ProgName(text[1..]);
      assert ProgName(text) == [text[0]] + n;
      assert [text[0]] + n <= [text[0]] + text[1..] == text;
      if |n| < |text[1..]| { assert text[|n| + 1] == text[1..][|n|]; }
    }
  }

  lemma CutName(word: cstring, name: cstring)
    ensures KeptAs(word, name) <==> name == Truncate(word, 31)
  {
  }

  /** An alias as the line that made it has it. */
  ghost predicate Tells(c: Config, w: seq<cstring>, x: Alias) {
    && |w| == 4 && c.Number(w[2]).Some? && c.Number(w[3]).Some?
    && x.addr == (c.Number(w[2]).value + c.pkernel) % U64 && x.size == c.Number(w[3]).value
  }

  ghost predicate AliasesTell(c: Config, script: seq<seq<cstring>>, aliases: seq<Alias>) {
    forall name: cstring :: FindAlias(aliases, name).Some? ==>
      exists a: nat :: a < |script| && LastAlias(script, |script|, a, name) && Tells(c, script[a], FindAlias(aliases, name).value)
  }

  lemma LastAliasLater(script: seq<seq<cstring>>, w: seq<cstring>, a: nat, name: cstring)
    requires LastAlias(script, |script|, a, name)
    requires !(IsLine(w, ALIAS) && |w| == 4 && KeptAs(w[1], name))
    ensures LastAlias(script + [w], |script| + 1, a, name)
  {
    var more := script + [w];
    forall b | a < b < |more| && IsLine(more[b], ALIAS) && |more[b]| == 4 ensures !KeptAs(more[b][1], name) {
      if b < |script| { assert more[b] == script[b]; }
    }
  }

  lemma LastAliasNow(script: seq<seq<cstring>>, w: seq<cstring>, name: cstring)
    requires IsLine(w, ALIAS) && |w| == 4 && KeptAs(w[1], name)
    ensures LastAlias(script + [w], |script| + 1, |script|, name)
  {
  }

  lemma FindInNext(c: Config, aliases: seq<Alias>, w: seq<cstring>, name: cstring)
    requires IsLine(w, ALIAS) && |w| == 4 && c.Number(w[2]).Some? && c.Number(w[3]).Some?
    ensures var next := NextAliases(c, aliases, w);
      FindAlias(next, name) == if KeptAs(w[1], name) then Some(next[0]) else FindAlias(aliases, name)
    ensures Tells(c, w, NextAliases(c, aliases, w)[0])
  {
    CutName(w[1], name);
    assert NextAliases(c, aliases, w)[1..] == aliases;
  }

  lemma AliasesNext(c: Config, script: seq<seq<cstring>>, aliases: seq<Alias>, w: seq<cstring>)
    requires AliasesTell(c, script, aliases)
    requires IsLine(w, ALIAS) ==> |w| == 4 && c.Number(w[2]).Some? && c.Number(w[3]).Some?
    ensures AliasesTell(c, script + [w], NextAliases(c, aliases, w))
  {
    hide FindAlias, Tells, LastAlias, KeptAs;
    var more, next := script + [w], NextAliases(c, aliases, w);
    forall name: cstring | FindAlias(next, name).Some?
      ensures exists a: nat :: a < |more| && LastAlias(more, |more|, a, name) && Tells(c, more[a], FindAlias(next, name).value)
    {
      if IsLine(w, ALIAS) { FindInNext(c, aliases, w, name); }
      if IsLine(w, ALIAS) && KeptAs(w[1], name) {
        LastAliasNow(script, w, name);
        assert more[|script|] == w;
        assert LastAlias(more, |more|, |script|, name) && Tells(c, more[|script|], FindAlias(next, name).value);
      } else {
        assert FindAlias(next, name) == FindAlias(aliases, name);
        var a: nat :| a < |script| && LastAlias(script, |script|, a, name) && Tells(c, script[a], FindAlias(aliases, name).value);
        LastAliasLater(script, w, a, name);
        assert more[a] == script[a];
        assert LastAlias(more, |more|, a, name) && Tells(c, more[a], FindAlias(next, name).value);
      }
    }
  }

  // ---------- one more line ----------

  lemma {:induction false} RunSnoc(c: Config, s: Syspage, script: seq<seq<cstring>>, w: seq<cstring>)
    ensures var (s1, ok) := Run(c, s, script);
      Run(c, s, script + [w]) == if ok then Exec(c, s1, w) else (s1, false)
    decreases |script|
  {
    hide Exec;
    if script == [] {
      assert script + [w] == [w] && [w][1..] == [];
    } else {
      assert (script + [w])[1..] == script[1..] + [w];
      if Exec(c, s, script[0]).1 { RunSnoc(c, Exec(c, s, script[0]).0, script[1..], w); }
    }
  }

  lemma ModWidth(c: Config, x: nat)
    ensures x % U64 % Width(c) == x % Width(c)
  {
  }

  lemma ModTwice(x: nat, y: nat)
    ensures (x % U64 + y) % U64 == (x + y) % U64
  {
  }

  lemma RangeOfProg(c: Config, w: seq<cstring>, x: Alias, argv: cstring, imaps: seq<byte>, dmaps: seq<byte>)
    requires Tells(c, w, x)
    ensures var p := MakeProg(c, x, argv, imaps, dmaps);
      Range(c, c.Number(w[2]).value, c.Number(w[3]).value, p.start, p.end)
  {
    var addr, size := c.Number(w[2]).value, c.Number(w[3]).value;
    ModWidth(c, addr + c.pkernel);
    ModTwice(addr + c.pkernel, size);
    ModWidth(c, addr + c.pkernel + size);
  }

  /** The words of an app line that parses. */
  lemma ParsedWords(w: seq<cstring>)
    requires ParseApp(w).Some?
    ensures (|w| == 5 || |w| == 6)
    ensures var n, a := |w|, ParseApp(w).value;
      && a == AppArgs(w[n - 3], w[n - 2], w[n - 1], n == 6)
      && (n == 6 ==> w[2] == [45, 120] || w[2] == [45, 88])
      && (n == 5 ==> w[2] == [] || w[2][0] != 45)
  {
    if |w| == 6 { assert w[2] == [w[2][0], w[2][1]]; }
  }

  lemma FromAliasOf(c: Config, script: seq<seq<cstring>>, w: seq<cstring>, aliases: seq<Alias>, text: cstring, p: ProgEntry,
                    argv: cstring, imaps: seq<byte>, dmaps: seq<byte>)
    requires AliasesTell(c, script, aliases) && FindAlias(aliases, ProgName(text)).Some?
    requires p == MakeProg(c, FindAlias(aliases, ProgName(text)).value, argv, imaps, dmaps)
    ensures FromAlias(c, script + [w], |script|, text, p)
  {
    hide FindAlias, MakeProg, LastAlias, Range, UpToSemicolon;
    var name := ProgName(text);
    NameOfText(text);
    var x := FindAlias(aliases, name).value;
    var a: nat :| a < |script| && LastAlias(script, |script|, a, name) && Tells(c, script[a], x);
    RangeOfProg(c, script[a], x, argv, imaps, dmaps);
    LastAliasPrefix(script, w, a, name);
    assert (script + [w])[a] == script[a];
  }

  lemma LastAliasPrefix(script: seq<seq<cstring>>, w: seq<cstring>, a: nat, name: cstring)
    requires LastAlias(script, |script|, a, name)
    ensures LastAlias(script + [w], |script|, a, name)
  {
    var more := script + [w];
    forall b | a < b < |script| && IsLine(more[b], ALIAS) && |more[b]| == 4 ensures !KeptAs(more[b][1], name) {
      assert more[b] == script[b];
    }
  }

  lemma FromAliasLater(c: Config, script: seq<seq<cstring>>, w: seq<cstring>, i: nat, text: cstring, p: ProgEntry)
    requires FromAlias(c, script, i, text, p) && i < |script|
    ensures FromAlias(c, script + [w], i, text, p)
  {
    hide Range, UpToSemicolon;
    var a: nat, name: cstring :| UpToSemicolon(text, name) && LastAlias(script, i, a, name) &&
      c.Number(script[a][2]).Some? && c.Number(script[a][3]).Some? &&
      Range(c, c.Number(script[a][2]).value, c.Number(script[a][3]).value, p.start, p.end);
    var more := script + [w];
    assert more[a] == script[a];
    forall b | a < b < i && IsLine(more[b], ALIAS) && |more[b]| == 4 ensures !KeptAs(more[b][1], name) {
      assert more[b] == script[b];
    }
    assert LastAlias(more, i, a, name);
  }

  lemma OfLineLater(c: Config, script: seq<seq<cstring>>, w: seq<cstring>, i: nat, maps: seq<MapEntry>, more: seq<MapEntry>, p: ProgEntry)
    requires OfLine(c, script, i, maps, p) && maps <= more
    ensures OfLine(c, script + [w], i, more, p)
  {
    hide Ids, FromAlias;
    var v := script[i];
    assert (script + [w])[i] == v;
    IdsStay(maps, more, v[|v| - 2], p.imaps);
    IdsStay(maps, more, v[|v| - 1], p.dmaps);
    FromAliasLater(c, script, w, i, v[|v| - 3], p);
  }

  /** An app line adds its program; no other line adds one. */
  lemma NewProg(c: Config, script: seq<seq<cstring>>, s: Syspage, w: seq<cstring>)
    requires Exec(c, s, w).1 && MapsOk(s.maps) && AliasesTell(c, script, s.aliases)
    ensures var s' := Exec(c, s, w).0;
      if IsLine(w, APP) then |s'.progs| == |s.progs| + 1 && s'.progs[..|s.progs|] == s.progs &&
        OfLine(c, script + [w], |script|, s.maps, s'.progs[|s.progs|]) && s'.maps == s.maps
      else s'.progs == s.progs
  {
    hide MapsOk, FindAlias, AliasesTell, Ids, FromAlias, Resolve, Split, MakeProg, AllocProg, ProgName, StrAttr, Conflicts, AllocMap;
    if IsLine(w, APP) {
      ParsedWords(w);
      var a := ParseApp(w).value;
      var x := FindAlias(s.aliases, ProgName(a.argv)).value;
      var argv := ExecArgv(a.argv, a.exec);
      var iids, dids := Resolve(s.maps, Split(a.imaps, 59)).value, Resolve(s.maps, Split(a.dmaps, 59)).value;
      var p := MakeProg(c, x, argv, iids, dids);
      MadeFields(c, x, argv, iids, dids);
      ResolveIds(s.maps, a.imaps);
      ResolveIds(s.maps, a.dmaps);
      FromAliasOf(c, script, w, s.aliases, a.argv, p, argv, iids, dids);
      assert (script + [w])[|script|] == w;
    }
  }

  lemma MadeFields(c: Config, x: Alias, argv: cstring, imaps: seq<byte>, dmaps: seq<byte>)
    ensures var p := MakeProg(c, x, argv, imaps, dmaps); p.argv == argv && p.imaps == imaps && p.dmaps == dmaps
  {
  }

  lemma AliasWords(c: Config, s: Syspage, w: seq<cstring>)
    requires Exec(c, s, w).1 && IsLine(w, ALIAS)
    ensures |w| == 4 && c.Number(w[2]).Some? && c.Number(w[3]).Some?
  {
  }

  ghost predicate ProgsTell(c: Config, script: seq<seq<cstring>>, s: Syspage) {
    && AliasesTell(c, script, s.aliases) && MapsOk(s.maps)
    && |s.progs| == |AppLines(script)|
    && forall j :: 0 <= j < |s.progs| ==> OfLine(c, script, AppLines(script)[j], s.maps, s.progs[j])
  }

  lemma AppLinesSnoc(script: seq<seq<cstring>>, w: seq<cstring>)
    ensures AppLines(script + [w]) == AppLines(script) + if IsLine(w, APP) then [|script|] else []
  {
    assert (script + [w])[..|script|] == script;
  }

  lemma TellNext(c: Config, script: seq<seq<cstring>>, s: Syspage, w: seq<cstring>)
    requires ProgsTell(c, script, s) && Exec(c, s, w).1
    ensures ProgsTell(c, script + [w], Exec(c, s, w).0)
  {
    hide Exec, AliasesTell, MapsOk, OfLine, NextAliases, AppLines;
    var s', more := Exec(c, s, w).0, script + [w];
    ExecKeepsMapsOk(c, s, w);
    ExecAliases(c, s, w);
    if IsLine(w, ALIAS) { AliasWords(c, s, w); }
    AliasesNext(c, script, s.aliases, w);
    NewProg(c, script, s, w);
    AppLinesSnoc(script, w);
    forall j | 0 <= j < |s'.progs| ensures OfLine(c, more, AppLines(more)[j], s'.maps, s'.progs[j]) {
      if j < |s.progs| {
        assert s'.progs[j] == s.progs[j] && AppLines(more)[j] == AppLines(script)[j];
        OfLineLater(c, script, w, AppLines(script)[j], s.maps, s'.maps, s.progs[j]);
      }
    }
  }

  lemma ExecAliases(c: Config, s: Syspage, w: seq<cstring>)
    requires Exec(c, s, w).1
    ensures Exec(c, s, w).0.aliases == NextAliases(c, s.aliases, w)
  {
    hide FindAlias, Resolve, Split, MakeProg, AllocProg, ProgName, StrAttr, Conflicts, AllocMap, ParseApp;
  }

  lemma NothingTells(c: Config)
    ensures ProgsTell(c, [], Initial(c))
  {
  }

  lemma {:induction false} RunTells(c: Config, script: seq<seq<cstring>>)
    requires Run(c, Initial(c), script).1
    ensures ProgsTell(c, script, Run(c, Initial(c), script).0)
    decreases |script|
  {
    hide Run, Exec, ProgsTell, Initial;
    if script == [] {
      RunNothing(c);
      NothingTells(c);
    } else {
      var front, w := script[..|script| - 1], script[|script| - 1];
      assert script == front + [w];
      RunSnoc(c, Initial(c), front, w);
      RunTells(c, front);
      TellNext(c, front, Run(c, Initial(c), front).0, w);
    }
  }

  lemma RunNothing(c: Config)
    ensures Run(c, Initial(c), []) == (Initial(c), true)
  {
  }

  /** A successful script has one program for each app line, in order, as the words of that line and of the last
      alias line for its device say. */
  lemma ProgramsOfLines(c: Config, script: seq<seq<cstring>>)
    requires Run(c, Initial(c), script).1
    ensures var s := Run(c, Initial(c), script).0;
      && |s.progs| == |AppLines(script)|
      && forall j :: 0 <= j < |s.progs| ==> OfLine(c, script, AppLines(script)[j], s.maps, s.progs[j])
  {
    hide Run, OfLine, AliasesTell;
    RunTells(c, script);
  }

  // ---------- map lines ----------

  /** What the attribute letters r, w, x, s, c and b add up to. */
  function Letters(word: cstring): nat {
    (if 114 in word then 1 else 0) + (if 119 in word then 2 else 0) + (if 120 in word then 4 else 0) +
    (if 115 in word then 8 else 0) + (if 99 in word then 16 else 0) + (if 98 in word then 32 else 0)
  }

  predicate OnlyLetters(word: cstring) {
    forall k :: 0 <= k < |word| ==>
      word[k] == 114 || word[k] == 119 || word[k] == 120 || word[k] == 115 || word[k] == 99 || word[k] == 98
  }

  lemma AttrLetters(word: cstring)
    ensures StrAttr(word) == if OnlyLetters(word) then Some(Letters(word)) else None
  {
  }

  /** A map and the line it comes from. */
  predicate MapOfLine(c: Config, w: seq<cstring>, j: nat, m: MapEntry) {
    && IsLine(w, MAP) && |w| == 5 && OnlyLetters(w[4]) && c.Number(w[2]).Some? && c.Number(w[3]).Some?
    && m.name == w[1] && m.attr == Letters(w[4]) && m.id == j % 256
    && m.start == c.Number(w[2]).value % Width(c) && m.end == c.Number(w[3]).value % Width(c)
  }

  /** The map lines of a script, in order. */
  function MapLinesOf(script: seq<seq<cstring>>): (r: seq<nat>)
    ensures forall j :: 0 <= j < |r| ==> r[j] < |script|
    decreases |script|
  {
    if script == [] then []
    else MapLinesOf(script[..|script| - 1]) + if IsLine(script[|script| - 1], MAP) then [|script| - 1] else []
  }

  lemma NewMap(c: Config, s: Syspage, w: seq<cstring>)
    requires Exec(c, s, w).1 && MapsOk(s.maps)
    ensures var s' := Exec(c, s, w).0;
      if IsLine(w, MAP) then |s'.maps| == |s.maps| + 1 && s'.maps[..|s.maps|] == s.maps && MapOfLine(c, w, |s.maps|, s'.maps[|s.maps|])
      else s'.maps == s.maps
  {
    hide StrAttr, OnlyLetters, Letters, Conflicts, AllocMap, MapsOk;
    if IsLine(w, MAP) {
      if |w| == 5 { AttrLetters(w[4]); }
      IdsInOrder(s.maps);
    } else {
      ExecOtherMaps(c, s, w);
    }
  }

  lemma IdsInOrder(maps: seq<MapEntry>)
    requires MapsOk(maps)
    ensures NextId(maps) == |maps| % 256
  {
    if maps != [] { assert maps[|maps| - 1].id == (|maps| - 1) % 256; }
  }

  /** A successful script has one map for each map line, in order, as the words of that line say. */
  lemma {:induction false} MapsOfLines(c: Config, script: seq<seq<cstring>>)
    requires Run(c, Initial(c), script).1
    ensures var s := Run(c, Initial(c), script).0;
      && |s.maps| == |MapLinesOf(script)|
      && forall j :: 0 <= j < |s.maps| ==> MapOfLine(c, script[MapLinesOf(script)[j]], j, s.maps[j])
    decreases |script|
  {
    hide Run, Exec, MapOfLine, MapsOk;
    if script == [] {
      RunNothing(c);
    } else {
      var front, w := script[..|script| - 1], script[|script| - 1];
      assert script == front + [w];
      RunSnoc(c, Initial(c), front, w);
      MapsOfLines(c, front);
      NoMapsOk();
      RunKeepsMapsOk(c, Initial(c), front);
      NewMap(c, Run(c, Initial(c), front).0, w);
    }
  }

  lemma NoMapsOk()
    ensures MapsOk([])
  {
  }

  // ---------- console lines ----------

  /** The word is a number, a dot, and this number. */
  ghost predicate MajorMinor(c: Config, word: cstring, minor: nat) {
    exists k: nat :: k < |word| && c.Strtoul(word).used == k && word[k] == 46 && c.Number(word[k + 1..]) == Some(minor)
  }

  /** A console line stores the number behind the dot, in 32 bits; other lines leave it. */
  lemma ConsoleLine(c: Config, s: Syspage, w: seq<cstring>)
    requires Exec(c, s, w).1
    ensures if IsLine(w, CONSOLE)
      then |w| == 2 && exists minor: nat :: MajorMinor(c, w[1], minor) && Exec(c, s, w).0.console == minor % 0x1_0000_0000
      else Exec(c, s, w).0.console == s.console
  {
    hide FindAlias, Resolve, Split, MakeProg, AllocProg, ProgName, StrAttr, Conflicts, AllocMap, ParseApp;
    if IsLine(w, CONSOLE) {
      var k := c.Strtoul(w[1]).used;
      assert MajorMinor(c, w[1], c.Number(w[1][k + 1..]).value);
    }
  }

  // ---------- when a line succeeds ----------

  /** Where the next record ends: eight-aligned, and below the limit. */
  function Up8(n: nat): nat { (n + 7) / 8 * 8 }

  /** Room for several things one after the other. */
  predicate Room(c: Config, size: nat, wanted: seq<nat>)
    decreases |wanted|
  {
    wanted == [] || (Up8(size + wanted[0]) < c.maxsz && Room(c, Up8(size + wanted[0]), wanted[1..]))
  }

  /** Where they end. */
  function Filled(size: nat, wanted: seq<nat>): nat
    decreases |wanted|
  {
    if wanted == [] then size else Filled(Up8(size + wanted[0]), wanted[1..])
  }

  predicate AliasSucceeds(c: Config, w: seq<cstring>) {
    |w| == 4 && c.Number(w[2]).Some? && c.Number(w[3]).Some?
  }

  /** Two numbers, known letters, a new name, a range that meets no map's, and room for the record and the name. */
  predicate MapSucceeds(c: Config, s: Syspage, w: seq<cstring>) {
    && |w| == 5 && c.Number(w[2]).Some? && c.Number(w[3]).Some? && OnlyLetters(w[4])
    && (var start, end := c.Number(w[2]).value % Width(c), c.Number(w[3]).value % Width(c);
        forall i :: 0 <= i < |s.maps| ==> s.maps[i].name != w[1] && (s.maps[i].start >= end || s.maps[i].end <= start))
    && Room(c, s.size, [if c.arch.Arch32? then 29 else 53, |w[1]| + 1])
  }

  lemma MapLineSucceeds(c: Config, s: Syspage, w: seq<cstring>)
    requires IsLine(w, MAP)
    ensures Exec(c, s, w).1 <==> MapSucceeds(c, s, w)
  {
    hide StrAttr, OnlyLetters, Letters;
    if |w| == 5 {
      AttrLetters(w[4]);
      MapRoom(c, s.size, |w[1]|);
    }
  }

  lemma RoomIs(c: Config, size: nat, n: nat)
    ensures Alloc(c, size, n) == if Up8(size + n) < c.maxsz then (Up8(size + n), true) else (size, false)
  {
  }

  lemma RoomOne(c: Config, size: nat, n: nat, rest: seq<nat>)
    ensures Room(c, size, [n] + rest) <==> Up8(size + n) < c.maxsz && Room(c, Up8(size + n), rest)
    ensures Room(c, size, [])
    ensures Filled(size, [n] + rest) == Filled(Up8(size + n), rest) && Filled(size, []) == size
  {
    hide Up8;
    assert ([n] + rest)[1..] == rest;
  }

  lemma RoomTwo(c: Config, size: nat, n0: nat, n1: nat)
    ensures Room(c, size, [n0, n1]) <==> Up8(size + n0) < c.maxsz && Up8(Up8(size + n0) + n1) < c.maxsz
    ensures Filled(size, [n0, n1]) == Up8(Up8(size + n0) + n1)
  {
    hide Room, Up8, Filled;
    RoomOne(c, size, n0, [n1]);
    RoomOne(c, Up8(size + n0), n1, []);
    RoomOne(c, Up8(Up8(size + n0) + n1), 0, []);
    assert [n0] + [n1] == [n0, n1] && [n1] + [] == [n1];
  }

  lemma MapRoom(c: Config, size: nat, n: nat)
    ensures AllocMap(c, size, n).1 <==> Room(c, size, [if c.arch.Arch32? then 29 else 53, n + 1])
    ensures AllocMap(c, size, n).1 ==> AllocMap(c, size, n).0 == Filled(size, [if c.arch.Arch32? then 29 else 53, n + 1])
  {
    hide Alloc, Up8, Room, Filled;
    var rec := if c.arch.Arch32? then 29 else 53;
    RoomIs(c, size, rec);
    RoomIs(c, Up8(size + rec), n + 1);
    assert c.arch.MapSize() == rec;
    RoomTwo(c, size, rec, n + 1);
  }

  lemma AliasLineSucceeds(c: Config, s: Syspage, w: seq<cstring>)
    requires IsLine(w, ALIAS)
    ensures Exec(c, s, w).1 <==> AliasSucceeds(c, w)
  {
  }

  predicate HasAlias(aliases: seq<Alias>, name: cstring) { exists a :: 0 <= a < |aliases| && aliases[a].name == name }

  /** The words, a device with an alias, lists of known maps, and room for the record, the two id lists and the text. */
  ghost predicate AppSucceeds(c: Config, s: Syspage, w: seq<cstring>) {
    var n := |w|;
    && (n == 5 || n == 6) && (if n == 6 then w[2] == [45, 120] || w[2] == [45, 88] else w[2] == [] || w[2][0] != 45)
    && (exists name: cstring :: UpToSemicolon(w[n - 3], name) && HasAlias(s.aliases, name))
    && AllKnown(s.maps, w[n - 2]) && AllKnown(s.maps, w[n - 1])
    && Room(c, s.size, [if c.arch.Arch32? then 36 else 72, Count(w[n - 1], 59) + 1, Count(w[n - 2], 59) + 1,
                        |w[n - 3]| + if n == 6 then 2 else 1])
  }

  /** Every piece of a list is a map's name. */
  ghost predicate AllKnown(maps: seq<MapEntry>, word: cstring) {
    exists names: seq<seq<byte>> :: Pieces(word, names) && KnownNames(maps, names)
  }

  ghost predicate KnownNames(maps: seq<MapEntry>, names: seq<seq<byte>>) {
    forall k :: 0 <= k < |names| ==> HasMap(maps, names[k])
  }

  ghost predicate HasMap(maps: seq<MapEntry>, name: seq<byte>) { exists i :: 0 <= i < |maps| && maps[i].name == name }

  lemma {:induction false} JoinedOnce(s: seq<byte>, pieces: seq<seq<byte>>)
    requires pieces != [] && Joined(pieces) == s && forall k :: 0 <= k < |pieces| ==> 59 !in pieces[k]
    ensures pieces == Split(s, 59)
    decreases |s| + |pieces|
  {
    if |pieces| == 1 {
      NoSeparator(s);
      assert pieces == [s];
    } else if pieces[0] == [] {
      assert [] + [59] + Joined(pieces[1..]) == [59] + Joined(pieces[1..]);
      assert s[1..] == Joined(pieces[1..]);
      JoinedOnce(s[1..], pieces[1..]);
      assert pieces == [pieces[0]] + pieces[1..];
    } else {
      var x, first := pieces[0][0], pieces[0][1..];
      var less := [first] + pieces[1..];
      assert pieces[0] == [x] + first;
      assert less[1..] == pieces[1..];
      assert s == [x] + (first + [59] + Joined(pieces[1..]));
      assert s[1..] == Joined(less);
      assert x != 59;
      forall k | 0 <= k < |less| ensures 59 !in less[k] { if k > 0 { assert less[k] == pieces[k]; } }
      JoinedOnce(s[1..], less);
      assert pieces == [[x] + less[0]] + less[1..];
    }
  }

  lemma {:induction false} NoSeparator(s: seq<byte>)
    requires 59 !in s
    ensures Split(s, 59) == [s]
  {
    if s != [] {
      NoSeparator(s[1..]);
      assert s == [s[0]] + s[1..];
    }
  }

  lemma {:induction false} KnownIs(maps: seq<MapEntry>, names: seq<seq<byte>>)
    ensures KnownNames(maps, names) <==> Resolve(maps, names).Some?
  {
    hide HasMap;
    if names != [] {
      HasIsLookup(maps, names[0]);
      KnownIs(maps, names[1..]);
      assert forall k :: 0 < k < |names| ==> names[k] == names[1..][k - 1];
      assert forall k :: 0 <= k < |names| - 1 ==> names[1..][k] == names[k + 1];
    }
  }

  lemma HasIsLookup(maps: seq<MapEntry>, name: seq<byte>)
    ensures HasMap(maps, name) <==> Lookup(maps, name).Some?
  {
    var r := Lookup(maps, name);
    if r.Some? { assert maps[r.value].name == name; }
  }

  lemma KnownResolves(maps: seq<MapEntry>, word: cstring)
    ensures AllKnown(maps, word) <==> Resolve(maps, Split(word, 59)).Some?
  {
    hide Resolve, Joined, Split, KnownNames;
    KnownIs(maps, Split(word, 59));
    SplitPieces(word);
    if AllKnown(maps, word) {
      var names: seq<seq<byte>> :| Pieces(word, names) && KnownNames(maps, names);
      JoinedOnce(word, names);
    } else {
      assert Pieces(word, Split(word, 59));
    }
  }

  lemma {:induction false} FindsAlias(aliases: seq<Alias>, name: cstring)
    ensures FindAlias(aliases, name).Some? <==> HasAlias(aliases, name)
  {
    if aliases != [] {
      FindsAlias(aliases[1..], name);
      if FindAlias(aliases[1..], name).Some? {
        var a :| 0 <= a < |aliases[1..]| && aliases[1..][a].name == name;
        assert aliases[a + 1].name == name;
      }
    }
  }

  lemma {:induction false} SemicolonOnce(text: cstring, name: cstring)
    requires UpToSemicolon(text, name)
    ensures name == ProgName(text)
    decreases |text|
  {
    if name != [] {
      assert text[0] == name[0] && name[0] != 59;
      assert name[1..] <= text[1..];
      SemicolonOnce(text[1..], name[1..]);
      assert name == [name[0]] + name[1..];
    }
  }

  lemma DeviceKnown(aliases: seq<Alias>, text: cstring)
    ensures FindAlias(aliases, ProgName(text)).Some? <==>
      exists name: cstring :: UpToSemicolon(text, name) && HasAlias(aliases, name)
  {
    hide ProgName, UpToSemicolon, FindAlias, HasAlias;
    NameOfText(text);
    FindsAlias(aliases, ProgName(text));
    if exists name: cstring :: UpToSemicolon(text, name) && HasAlias(aliases, name) {
      var name: cstring :| UpToSemicolon(text, name) && HasAlias(aliases, name);
      SemicolonOnce(text, name);
    }
  }

  lemma ProgRoomIs(c: Config, size: nat, nd: nat, ni: nat, na: nat)
    ensures AllocProg(c, size, nd, ni, na).1 <==> Room(c, size, [if c.arch.Arch32? then 36 else 72, nd, ni, na + 1])
    ensures AllocProg(c, size, nd, ni, na).1 ==>
      AllocProg(c, size, nd, ni, na).0 == Filled(size, [if c.arch.Arch32? then 36 else 72, nd, ni, na + 1])
  {
    hide Alloc, Up8, Room, Filled;
    var rec := if c.arch.Arch32? then 36 else 72;
    assert c.arch.ProgSize() == rec;
    var z1 := Up8(size + rec);
    var z2 := Up8(z1 + nd);
    RoomIs(c, size, rec);
    RoomIs(c, z1, nd);
    RoomIs(c, z2, ni);
    RoomIs(c, Up8(z2 + ni), na + 1);
    RoomOne(c, size, rec, [nd, ni, na + 1]);
    RoomOne(c, z1, nd, [ni, na + 1]);
    RoomTwo(c, z2, ni, na + 1);
    assert [rec] + [nd, ni, na + 1] == [rec, nd, ni, na + 1] && [nd] + [ni, na + 1] == [nd, ni, na + 1];
  }

  lemma ParsesWhen(w: seq<cstring>)
    requires w != []
    ensures ParseApp(w).Some? <==>
      (|w| == 5 || |w| == 6) && (if |w| == 6 then w[2] == [45, 120] || w[2] == [45, 88] else w[2] == [] || w[2][0] != 45)
  {
    if |w| == 6 && w[2] != [] && |w[2]| == 2 { assert w[2] == [w[2][0], w[2][1]]; }
  }

  lemma AppLineSucceeds(c: Config, s: Syspage, w: seq<cstring>)
    requires IsLine(w, APP)
    ensures Exec(c, s, w).1 <==> AppSucceeds(c, s, w)
  {
    hide ParseApp, FindAlias, Resolve, Split, AllocProg, AllKnown, Room, UpToSemicolon, ProgName, MakeProg, Count;
    ParsesWhen(w);
    if ParseApp(w).Some? {
      ParsedWords(w);
      var n := |w|;
      var imaps, dmaps := w[n - 2], w[n - 1];
      DeviceKnown(s.aliases, w[n - 3]);
      KnownResolves(s.maps, imaps);
      KnownResolves(s.maps, dmaps);
      CutIsJoin(imaps, 59);
      CutIsJoin(dmaps, 59);
      ProgRoomIs(c, s.size, |Split(dmaps, 59)|, |Split(imaps, 59)|, |ExecArgv(w[n - 3], n == 6)|);
    }
  }

  /** Two words, the second a number, a dot and a number. */
  lemma ConsoleLineSucceeds(c: Config, s: Syspage, w: seq<cstring>)
    requires IsLine(w, CONSOLE)
    ensures Exec(c, s, w).1 <==> |w| == 2 && exists minor: nat :: MajorMinor(c, w[1], minor)
  {
    if Exec(c, s, w).1 { ConsoleLine(c, s, w); }
  }

  /** Empty lines and unknown commands succeed and do nothing. */
  lemma OtherLineSucceeds(c: Config, s: Syspage, w: seq<cstring>)
    requires !IsLine(w, ALIAS) && !IsLine(w, MAP) && !IsLine(w, APP) && !IsLine(w, CONSOLE)
    ensures Exec(c, s, w) == (s, true)
  {
  }

  /** What a line adds to a syspage. */
  function Wanted(c: Config, w: seq<cstring>): seq<nat> {
    var n := |w|;
    if IsLine(w, MAP) && n == 5 then [if c.arch.Arch32? then 29 else 53, |w[1]| + 1]
    else if IsLine(w, APP) && (n == 5 || n == 6) then
      [if c.arch.Arch32? then 36 else 72, Count(w[n - 1], 59) + 1, Count(w[n - 2], 59) + 1, |w[n - 3]| + if n == 6 then 2 else 1]
    else []
  }

  /** An empty syspage is its header; a map line that succeeds adds a record and its name, an app line a record, its two lists
      and its text, each from the next multiple of eight on; other lines add nothing. */
  lemma LineTakes(c: Config, s: Syspage, w: seq<cstring>)
    ensures Initial(c).size == if c.arch.Arch32? then 24 else 40
    ensures Exec(c, s, w).1 ==> Exec(c, s, w).0.size == Filled(s.size, Wanted(c, w))
  {
    hide Filled, Room, StrAttr, Conflicts, AllocMap, ParseApp, FindAlias, Resolve, Split, AllocProg, ProgName, MakeProg, Count;
    RoomOne(c, s.size, 0, []);
    if IsLine(w, MAP) {
      if |w| == 5 { MapRoom(c, s.size, |w[1]|); }
    } else if IsLine(w, APP) && ParseApp(w).Some? {
      ParsedWords(w);
      var n := |w|;
      CutIsJoin(w[n - 2], 59);
      CutIsJoin(w[n - 1], 59);
      ProgRoomIs(c, s.size, |Split(w[n - 1], 59)|, |Split(w[n - 2], 59)|, |ExecArgv(w[n - 3], n == 6)|);
    }
  }

  // ---------- what a record looks like ----------

  /** Numbers in the target's little-endian bytes. */
  function Le4(b: seq<byte>, o: nat): nat
    requires o + 4 <= |b|
  {
    var b0: nat, b1: nat, b2: nat, b3: nat := b[o], b[o + 1], b[o + 2], b[o + 3];
    b0 + 0x100 * b1 + 0x1_0000 * b2 + 0x100_0000 * b3
  }

  lemma Word4(b: seq<byte>, o: nat)
    requires o + 4 <= |b|
    ensures Word(b, o, 4) == Le4(b, o)
  {
    var s := Slice(b, o, 4);
    assert s[1..][1..][1..][1..] == [];
    assert LeValue(s[1..][1..][1..]) == s[3];
    assert LeValue(s[1..][1..]) == s[2] + 256 * LeValue(s[1..][1..][1..]);
    assert LeValue(s[1..]) == s[1] + 256 * LeValue(s[1..][1..]);
  }

  lemma Word8(b: seq<byte>, o: nat)
    requires o + 8 <= |b|
    ensures Word(b, o, 8) == Le4(b, o) + 0x1_0000_0000 * Le4(b, o + 4)
  {
    hide Le4;
    Word4(b, o);
    Word4(b, o + 4);
    var s := Slice(b, o, 8);
    assert Slice(b, o, 4) == s[..4] && Slice(b, o + 4, 4) == s[4..];
    LeValueSplits(s);
  }

  lemma LeValueSplits(s: seq<byte>)
    requires |s| == 8
    ensures LeValue(s) == LeValue(s[..4]) + 0x1_0000_0000 * LeValue(s[4..])
  {
    LeValueFour(s[..4]);
    assert s[1..][1..][1..][1..] == s[4..];
    assert LeValue(s[1..][1..][1..]) == s[3] + 256 * LeValue(s[4..]);
    assert LeValue(s[1..][1..]) == s[2] + 256 * LeValue(s[1..][1..][1..]);
    assert LeValue(s[1..]) == s[1] + 256 * LeValue(s[1..][1..]);
  }

  lemma LeValueFour(s: seq<byte>)
    requires |s| == 4
    ensures LeValue(s) == Le4(s, 0)
  {
    assert s[1..][1..][1..][1..] == [];
    assert LeValue(s[1..][1..][1..]) == s[3];
    assert LeValue(s[1..][1..]) == s[2] + 256 * LeValue(s[1..][1..][1..]);
    assert LeValue(s[1..]) == s[1] + 256 * LeValue(s[1..][1..]);
  }
}
