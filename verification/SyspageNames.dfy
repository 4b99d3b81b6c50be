/** Splitting a list of map names in place, and walking over the pieces. */
module SyspageNames {
  import opened Basics
  import opened Bytes
  import opened SyspageSpec

  /** The pieces one after the other, each with its NUL. */
  function Join(pieces: seq<seq<byte>>): seq<byte> {
    if pieces == [] then [] else pieces[0] + [0] + Join(pieces[1..])
  }

  function Cut(s: seq<byte>, sep: byte): (r: seq<byte>)
    ensures |r| == |s|
  {
    seq(|s|, i requires 0 <= i < |s| => if s[i] == sep then 0 else s[i])
  }

  function Count(s: seq<byte>, sep: byte): nat {
    if s == [] then 0 else (if s[0] == sep then 1 else 0) + Count(s[1..], sep)
  }

  lemma {:induction false} CountSnoc(s: seq<byte>, x: byte, sep: byte)
    ensures Count(s + [x], sep) == Count(s, sep) + (if x == sep then 1 else 0)
  {
    if s == [] {
      assert [x][1..] == [];
    } else {
      assert (s + [x])[1..] == s[1..] + [x];
      CountSnoc(s[1..], x, sep);
    }
  }

  /** Overwriting every separator by a NUL turns the list into its pieces, NUL by NUL. */
  lemma {:induction false} CutIsJoin(s: seq<byte>, sep: byte)
    ensures Cut(s, sep) + [0] == Join(Split(s, sep))
    ensures |Split(s, sep)| == Count(s, sep) + 1
  {
    var pieces := Split(s, sep);
    if s == [] {
      assert pieces[1..] == [];
    } else {
      var rest := Split(s[1..], sep);
      CutIsJoin(s[1..], sep);
      assert Cut(s, sep) == [if s[0] == sep then 0 else s[0]] + Cut(s[1..], sep);
      assert Join(rest) == rest[0] + [0] + Join(rest[1..]);
      if s[0] == sep {
        assert pieces[0] == [] && pieces[1..] == rest;
      } else {
        assert pieces[0] == [s[0]] + rest[0] && pieces[1..] == rest[1..];
        assert Join(pieces) == [s[0]] + (rest[0] + [0] + Join(rest[1..]));
      }
      assert Cut(s, sep) + [0] == [if s[0] == sep then 0 else s[0]] + (Cut(s[1..], sep) + [0]);
    }
  }

  lemma {:induction false} PiecesAreNames(s: seq<byte>, sep: byte)
    requires 0 !in s
    ensures forall k :: 0 <= k < |Split(s, sep)| ==> 0 !in Split(s, sep)[k] && sep !in Split(s, sep)[k]
  {
    if s != [] {
      PiecesAreNames(s[1..], sep);
      var rest := Split(s[1..], sep);
      assert 0 !in rest[0] && sep !in rest[0];
      forall k | 0 <= k < |Split(s, sep)| ensures 0 !in Split(s, sep)[k] && sep !in Split(s, sep)[k] {
        if k > 0 {
          if s[0] == sep {
            assert Split(s, sep)[k] == rest[k - 1];
          } else {
            assert Split(s, sep)[k] == rest[k];
          }
        }
      }
    }
  }

  lemma {:induction false} JoinAppend(a: seq<seq<byte>>, b: seq<seq<byte>>)
    ensures Join(a + b) == Join(a) + Join(b)
  {
    if a == [] {
      assert a + b == b;
    } else {
      JoinAppend(a[1..], b);
      assert (a + b)[1..] == a[1..] + b;
    }
  }

  /** Replace the separators of a NUL-terminated string by NULs; the number of pieces. */
  method MapsParse(maps: array<byte>, sep: byte, ghost s: cstring) returns (nb: nat)
    requires |s| < maps.Length && maps[..|s|] == s && maps[|s|] == 0 && sep != 0
    modifies maps
    ensures nb == |Split(s, sep)| && maps[..|s| + 1] == Join(Split(s, sep))
  {
    nb := 0;
    var i := 0;
    assert forall k :: 0 <= k < |s| ==> maps[k] == maps[..|s|][k] == s[k] && s[k] in s;
    while maps[i] != 0
      invariant 0 <= i <= |s|
      invariant maps[..i] == Cut(s[..i], sep) && maps[|s|] == 0
      invariant forall k :: i <= k < |s| ==> maps[k] == s[k] && maps[k] != 0
      invariant nb == Count(s[..i], sep)
      decreases |s| - i
    {
      CountSnoc(s[..i], s[i], sep);
      assert s[..i + 1] == s[..i] + [s[i]];
      assert Cut(s[..i + 1], sep) == Cut(s[..i], sep) + [if s[i] == sep then 0 else s[i]];
      if maps[i] == sep {
        maps[i] := 0;
        nb := nb + 1;
      }
      i := i + 1;
    }
    assert s[..i] == s;
    assert maps[..|s| + 1] == maps[..|s|] + [0];
    CutIsJoin(s, sep);
    nb := nb + 1;
  }

  /** Where the k-th piece of a joined list starts, and that it ends at its NUL. */
  lemma PieceAt(b: seq<byte>, pieces: seq<seq<byte>>, k: nat)
    requires k < |pieces| && Join(pieces) <= b
    ensures var pos := |Join(pieces[..k])|;
      && pos + |pieces[k]| + 1 <= |b|
      && b[pos..pos + |pieces[k]| + 1] == pieces[k] + [0]
      && |Join(pieces[..k + 1])| == pos + |pieces[k]| + 1
  {
    var pos := |Join(pieces[..k])|;
    assert pieces == pieces[..k] + pieces[k..];
    JoinAppend(pieces[..k], pieces[k..]);
    assert Join(pieces[k..]) == pieces[k] + [0] + Join(pieces[k..][1..]);
    assert pieces[..k + 1] == pieces[..k] + [pieces[k]];
    JoinAppend(pieces[..k], [pieces[k]]);
    assert Join([pieces[k]]) == pieces[k] + [0] + Join([pieces[k]][1..]);
    assert b[pos..pos + |pieces[k]| + 1] == Join(pieces)[pos..pos + |pieces[k]| + 1];
  }

  lemma {:induction false} ResolveSnoc(maps: seq<MapEntry>, names: seq<seq<byte>>, name: seq<byte>)
    ensures Resolve(maps, names + [name]) ==
      match (Resolve(maps, names), Lookup(maps, name))
      case (Some(ids), Some(i)) => Some(ids + [maps[i].id])
      case _ => None
  {
    hide Lookup;
    if names == [] {
      assert names + [name] == [name] && [name][1..] == [];
      assert Resolve(maps, [name][1..]) == Some([]);
      if Lookup(maps, name).Some? {
        var id := maps[Lookup(maps, name).value].id;
        assert [id] + [] == [] + [id];
      }
    } else {
      assert (names + [name])[1..] == names[1..] + [name];
      ResolveSnoc(maps, names[1..], name);
      if Lookup(maps, names[0]).Some? && Resolve(maps, names[1..]).Some? && Lookup(maps, name).Some? {
        var x, ids, z := maps[Lookup(maps, names[0]).value].id, Resolve(maps, names[1..]).value,
                         maps[Lookup(maps, name).value].id;
        assert [x] + (ids + [z]) == ([x] + ids) + [z];
      }
    }
  }

  lemma {:induction false} ResolveFails(maps: seq<MapEntry>, names: seq<seq<byte>>, k: nat)
    requires k < |names| && Lookup(maps, names[k]).None?
    ensures Resolve(maps, names).None?
  {
    if k > 0 { ResolveFails(maps, names[1..], k - 1); }
  }

  lemma {:induction false} ResolveLength(maps: seq<MapEntry>, names: seq<seq<byte>>)
    ensures Resolve(maps, names).Some? ==> |Resolve(maps, names).value| == |names|
  {
    if names != [] { ResolveLength(maps, names[1..]); }
  }
}
