/** Updating a partition table on disk from the user's list of partitions to save and to remove. */
module Psdisk {

  datatype Part = Part(name: string, offset: nat, size: nat, kind: nat)
  datatype Node = Node(part: Part, remove: bool)

  const ZERO := Part("", 0, 0, 0)

  // ---------- what one table entry does to the list ----------

  /** The first node of a name; the length of the list if there is none. */
  function Find(list: seq<Node>, name: string): (k: nat)
    ensures k <= |list|
    ensures k < |list| ==> list[k].part.name == name
    ensures forall j :: 0 <= j < k ==> list[j].part.name != name
  {
    if list == [] || list[0].part.name == name then 0 else 1 + Find(list[1..], name)
  }

  function Without(list: seq<Node>, k: nat): seq<Node>
    requires k < |list|
  {
    list[..k] + list[k + 1..]
  }

  /** A partition the user did not mention joins the list; one to be removed takes its request with it;
      one that the user saves anew gives way. */
  function UpdateOne(list: seq<Node>, p: Part): seq<Node> {
    var k := Find(list, p.name);
    if k == |list| then [Node(p, false)] + list
    else if list[k].remove then Without(list, k)
    else list
  }

  /** An entry meets the first node of its name, or joins in front if there is none. */
  lemma MeetsFirst(list: seq<Node>, p: Part)
    ensures (forall j :: 0 <= j < |list| ==> list[j].part.name != p.name) ==> UpdateOne(list, p) == [Node(p, false)] + list
    ensures forall k :: 0 <= k < |list| && list[k].part.name == p.name && (forall j :: 0 <= j < k ==> list[j].part.name != p.name) ==>
      UpdateOne(list, p) == if list[k].remove then list[..k] + list[k + 1..] else list
  {
  }

  function UpdateAll(list: seq<Node>, table: seq<Part>): seq<Node>
    decreases |table|
  {
    if table == [] then list else UpdateAll(UpdateOne(list, table[0]), table[1..])
  }

  lemma {:induction false} UpdateSnoc(list: seq<Node>, table: seq<Part>, p: Part)
    ensures UpdateAll(list, table + [p]) == UpdateOne(UpdateAll(list, table), p)
    decreases |table|
  {
    hide UpdateOne;
    if table == [] {
      assert UpdateAll(UpdateOne(list, p), [p][1..]) == UpdateOne(list, p);
      assert table + [p] == [p];
    } else {
      assert (table + [p])[1..] == table[1..] + [p];
      UpdateSnoc(UpdateOne(list, table[0]), table[1..], p);
    }
  }

  predicate Settled(list: seq<Node>) { forall k :: 0 <= k < |list| ==> !list[k].remove }

  // ---------- name by name ----------

  /** The nodes of one name, in order. */
  function Named(list: seq<Node>, name: string): seq<Node> {
    if list == [] then [] else (if list[0].part.name == name then [list[0]] else []) + Named(list[1..], name)
  }

  function PartsNamed(table: seq<Part>, name: string): seq<Part> {
    if table == [] then [] else (if table[0].name == name then [table[0]] else []) + PartsNamed(table[1..], name)
  }

  lemma {:induction false} NamedConcat(a: seq<Node>, b: seq<Node>, name: string)
    ensures Named(a + b, name) == Named(a, name) + Named(b, name)
    decreases |a|
  {
    if a == [] {
      assert a + b == b;
    } else {
      var head := if a[0].part.name == name then [a[0]] else [];
      assert (a + b)[1..] == a[1..] + b && (a + b)[0] == a[0];
      NamedConcat(a[1..], b, name);
      assert Named(a + b, name) == head + Named(a[1..] + b, name);
      assert head + (Named(a[1..], name) + Named(b, name)) == (head + Named(a[1..], name)) + Named(b, name);
    }
  }

  lemma {:induction false} NamedNone(list: seq<Node>, name: string)
    requires forall j :: 0 <= j < |list| ==> list[j].part.name != name
    ensures Named(list, name) == []
  {
    if list != [] { NamedNone(list[1..], name); }
  }

  /** A list as what precedes a node, the node, and the rest. */
  lemma SplitAt(list: seq<Node>, k: nat, name: string)
    requires k < |list|
    ensures Named(list, name) == Named(list[..k], name) + Named([list[k]], name) + Named(list[k + 1..], name)
    ensures Named(Without(list, k), name) == Named(list[..k], name) + Named(list[k + 1..], name)
  {
    assert list == (list[..k] + [list[k]]) + list[k + 1..];
    NamedConcat(list[..k] + [list[k]], list[k + 1..], name);
    NamedConcat(list[..k], [list[k]], name);
    NamedConcat(list[..k], list[k + 1..], name);
  }

  lemma NamedOne(n: Node, name: string)
    ensures Named([n], name) == if n.part.name == name then [n] else []
  {
    assert Named([n][1..], name) == [];
  }

  /** Entries of other names leave the nodes of a name alone, and its own entries see nothing else. */
  lemma UpdateNamed(list: seq<Node>, p: Part, name: string)
    ensures Named(UpdateOne(list, p), name) == if p.name == name then UpdateOne(Named(list, name), p) else Named(list, name)
  {
    hide Named;
    var k := Find(list, p.name);
    if k == |list| {
      NamedConcat([Node(p, false)], list, name);
      NamedOne(Node(p, false), name);
      if p.name == name { NamedNone(list, name); }
    } else {
      SplitAt(list, k, name);
      NamedOne(list[k], name);
      NamedNone(list[..k], p.name);
      if p.name == name {
        assert Named(list, name) == [list[k]] + Named(list[k + 1..], name);
        assert Without(Named(list, name), 0) == Named(list[k + 1..], name);
      }
    }
  }

  lemma {:induction false} UpdateAllNamed(list: seq<Node>, table: seq<Part>, name: string)
    ensures Named(UpdateAll(list, table), name) == UpdateAll(Named(list, name), PartsNamed(table, name))
    decreases |table|
  {
    hide UpdateOne, Named;
    if table != [] {
      UpdateNamed(list, table[0], name);
      UpdateAllNamed(UpdateOne(list, table[0]), table[1..], name);
      if table[0].name == name {
        assert PartsNamed(table, name)[1..] == PartsNamed(table[1..], name);
      } else {
        assert PartsNamed(table, name) == PartsNamed(table[1..], name);
      }
    }
  }

  // ---------- when an update succeeds ----------

  /** How many requests to remove come first. */
  function Leading(ns: seq<Node>): (n: nat)
    ensures n <= |ns|
  {
    if ns == [] || !ns[0].remove then 0 else 1 + Leading(ns[1..])
  }

  /** Every request to remove comes first: none follows a partition to save. */
  predicate RemovesLead(ns: seq<Node>) { Settled(ns[Leading(ns)..]) }

  lemma {:induction false} LeadingBound(ns: seq<Node>)
    ensures Leading(ns) <= |ns|
    ensures Leading(ns) < |ns| ==> !ns[Leading(ns)].remove
    ensures Leading(ns) > 0 <==> ns != [] && ns[0].remove
  {
    if ns != [] && ns[0].remove { LeadingBound(ns[1..]); }
  }

  /** Nodes of a single name, all of them met by entries of that name. */
  predicate AllNamed(ns: seq<Node>, ps: seq<Part>, name: string) {
    && (forall k :: 0 <= k < |ns| ==> ns[k].part.name == name)
    && (forall k :: 0 <= k < |ps| ==> ps[k].name == name)
  }

  /** Entries of one name settle its nodes exactly when the requests to remove come first and are not more
      than the entries. */
  lemma {:induction false} OneNameSettles(ns: seq<Node>, ps: seq<Part>, name: string)
    requires AllNamed(ns, ps, name)
    ensures Settled(UpdateAll(ns, ps)) <==> RemovesLead(ns) && Leading(ns) <= |ps|
    decreases |ps|
  {
    hide Settled, RemovesLead, Leading, UpdateOne;
    LeadingBound(ns);
    if ps == [] {
      NothingMeets(ns);
    } else {
      OneNameStep(ns, ps[0], name);
      OneNameSettles(UpdateOne(ns, ps[0]), ps[1..], name);
    }
  }

  lemma NothingMeets(ns: seq<Node>)
    ensures Settled(ns) <==> RemovesLead(ns) && Leading(ns) == 0
  {
    LeadingBound(ns);
    if Leading(ns) == 0 { assert ns[0..] == ns; }
  }

  lemma OneNameStep(ns: seq<Node>, p: Part, name: string)
    requires AllNamed(ns, [p], name)
    ensures var next := UpdateOne(ns, p);
      && AllNamed(next, [], name) && (RemovesLead(next) <==> RemovesLead(ns))
      && Leading(next) == if Leading(ns) > 0 then Leading(ns) - 1 else 0
  {
    hide Settled;
    var next := UpdateOne(ns, p);
    assert [p][0] == p;
    LeadingBound(ns);
    if ns == [] {
      assert next == [Node(p, false)];
      OneSettled(Node(p, false));
    } else {
      assert Find(ns, p.name) == 0;
      if ns[0].remove {
        assert next == ns[1..];
        assert ns[Leading(ns)..] == ns[1..][Leading(ns[1..])..];
      }
    }
  }

  lemma OneSettled(n: Node)
    requires !n.remove
    ensures Settled([]) && Settled([n]) && Settled([n][0..]) && Settled([][0..])
  {
  }

  lemma {:induction false} NamedNames(list: seq<Node>, table: seq<Part>, name: string)
    ensures AllNamed(Named(list, name), PartsNamed(table, name), name)
    decreases |list| + |table|
  {
    if list != [] {
      NamedNames(list[1..], table, name);
    } else if table != [] {
      NamedNames(list, table[1..], name);
    }
  }

  lemma {:induction false} NamedHas(list: seq<Node>, k: nat)
    requires k < |list|
    ensures list[k] in Named(list, list[k].part.name)
  {
    if k > 0 { NamedHas(list[1..], k - 1); }
  }

  lemma {:induction false} NamedFrom(list: seq<Node>, name: string)
    ensures forall n :: n in Named(list, name) ==> n in list && n.part.name == name
  {
    if list != [] { NamedFrom(list[1..], name); }
  }

  lemma SettledByName(list: seq<Node>)
    ensures Settled(list) <==> forall name: string :: Settled(Named(list, name))
  {
    if Settled(list) {
      forall name: string ensures Settled(Named(list, name)) {
        NamedFrom(list, name);
        forall j | 0 <= j < |Named(list, name)| ensures !Named(list, name)[j].remove {
          assert Named(list, name)[j] in list;
        }
      }
    } else {
      var k :| 0 <= k < |list| && list[k].remove;
      NamedHas(list, k);
      var j :| 0 <= j < |Named(list, list[k].part.name)| && Named(list, list[k].part.name)[j] == list[k];
      assert !Settled(Named(list, list[k].part.name));
    }
  }

  /** What a user's list asks of the table, for one name. */
  predicate Removable(list: seq<Node>, table: seq<Part>, name: string) {
    RemovesLead(Named(list, name)) && Leading(Named(list, name)) <= |PartsNamed(table, name)|
  }

  /** An update succeeds exactly when, for every name, no request to remove it lies behind a partition saved
      under it, and the table has at least as many partitions of the name as there are requests. */
  lemma SucceedsWhen(list: seq<Node>, table: seq<Part>)
    ensures Settled(UpdateAll(list, table)) <==> forall name: string :: Removable(list, table, name)
  {
    hide Settled, UpdateAll, Named, PartsNamed, RemovesLead, Leading;
    var end := UpdateAll(list, table);
    SettledByName(end);
    forall name: string ensures Settled(Named(end, name)) <==> Removable(list, table, name) {
      UpdateAllNamed(list, table, name);
      NamedNames(list, table, name);
      OneNameSettles(Named(list, name), PartsNamed(table, name), name);
    }
    if Settled(end) {
      forall name: string ensures Removable(list, table, name) { assert Settled(Named(end, name)); }
    } else {
      var name: string :| !Settled(Named(end, name));
      assert !Removable(list, table, name);
    }
  }

  // ---------- when no name is repeated ----------

  predicate UserUnique(list: seq<Node>) {
    forall i, j :: 0 <= i < j < |list| ==> list[i].part.name != list[j].part.name
  }

  predicate TableUnique(table: seq<Part>) {
    forall i, j :: 0 <= i < j < |table| ==> table[i].name != table[j].name
  }

  predicate InTable(table: seq<Part>, name: string) { exists k :: 0 <= k < |table| && table[k].name == name }
  predicate InList(list: seq<Node>, name: string) { exists k :: 0 <= k < |list| && list[k].part.name == name }

  /** The user's nodes that stay: those to save, and requests to remove what is not in the table. */
  function Staying(list: seq<Node>, table: seq<Part>): seq<Node> {
    if list == [] then []
    else (if list[0].remove && InTable(table, list[0].part.name) then [] else [list[0]]) + Staying(list[1..], table)
  }

  /** The table's partitions that the user did not mention, the last of them first. */
  function Joining(list: seq<Node>, table: seq<Part>): seq<Node>
    decreases |table|
  {
    if table == [] then []
    else
      var p := table[|table| - 1];
      (if InList(list, p.name) then [] else [Node(p, false)]) + Joining(list, table[..|table| - 1])
  }

  lemma {:induction false} JoiningNames(list: seq<Node>, table: seq<Part>)
    ensures forall n :: n in Joining(list, table) ==> InTable(table, n.part.name) && !InList(list, n.part.name) && !n.remove
    decreases |table|
  {
    hide InList;
    if table != [] {
      var front := table[..|table| - 1];
      JoiningNames(list, front);
      forall n | n in Joining(list, table) ensures InTable(table, n.part.name) {
        if n in Joining(list, front) {
          var k :| 0 <= k < |front| && front[k].name == n.part.name;
          assert table[k] == front[k];
        }
      }
    }
  }

  lemma InTableSnoc(table: seq<Part>, p: Part, name: string)
    ensures InTable(table + [p], name) <==> InTable(table, name) || p.name == name
  {
    if InTable(table, name) {
      var k :| 0 <= k < |table| && table[k].name == name;
      assert (table + [p])[k] == table[k];
    }
    if p.name == name { assert (table + [p])[|table|] == p; }
  }

  /** One more table entry only decides about its own name. */
  lemma {:induction false} StayingOther(list: seq<Node>, table: seq<Part>, p: Part)
    requires forall k :: 0 <= k < |list| ==> list[k].part.name != p.name || !list[k].remove
    ensures Staying(list, table + [p]) == Staying(list, table)
  {
    hide InTable;
    if list != [] {
      InTableSnoc(table, p, list[0].part.name);
      StayingOther(list[1..], table, p);
    }
  }

  function Head(n: Node, table: seq<Part>): seq<Node> {
    if n.remove && InTable(table, n.part.name) then [] else [n]
  }

  lemma StayingStep(list: seq<Node>, table: seq<Part>)
    requires list != []
    ensures Staying(list, table) == Head(list[0], table) + Staying(list[1..], table)
  {
    hide InTable;
  }

  lemma HeadOther(n: Node, table: seq<Part>, p: Part)
    requires n.part.name != p.name
    ensures Head(n, table + [p]) == Head(n, table) && forall m :: m in Head(n, table) ==> m.part.name != p.name
  {
    hide InTable;
    InTableSnoc(table, p, n.part.name);
  }

  lemma FindFirst(n: Node, rest: seq<Node>)
    ensures Find([n] + rest, n.part.name) == 0 && Without([n] + rest, 0) == rest
  {
  }

  /** A node whose name is not in the table stays; an entry of that name takes it, if it is a request. */
  lemma {:induction false} StayingFind(list: seq<Node>, table: seq<Part>, k: nat, p: Part)
    requires k < |list| && UserUnique(list) && !InTable(table, p.name) && list[k].part.name == p.name
    ensures var st := Staying(list, table);
      var f := Find(st, p.name);
      && f < |st| && st[f] == list[k]
      && (list[k].remove ==> Staying(list, table + [p]) == Without(st, f))
  {
    hide InTable, Staying, Find, Without;
    var st, rest := Staying(list, table), list[1..];
    StayingStep(list, table);
    StayingStep(list, table + [p]);
    InTableSnoc(table, p, p.name);
    if k == 0 {
      FindFirst(list[0], Staying(rest, table));
      StayingOther(rest, table, p);
      assert [] + Staying(rest, table) == Staying(rest, table);
    } else {
      assert rest[k - 1] == list[k] && list[0].part.name != p.name;
      StayingFind(rest, table, k - 1, p);
      HeadOther(list[0], table, p);
      FindBehind(Head(list[0], table), Staying(rest, table), p.name);
    }
  }

  lemma FindBehind(head: seq<Node>, tail: seq<Node>, name: string)
    requires |head| <= 1 && forall n :: n in head ==> n.part.name != name
    ensures Find(head + tail, name) == |head| + Find(tail, name)
    ensures Find(tail, name) < |tail| ==>
      Without(head + tail, |head| + Find(tail, name)) == head + Without(tail, Find(tail, name))
  {
    hide Find, Without;
    FindSkips(head, tail, name);
    if Find(tail, name) < |tail| { WithoutBehind(head, tail, Find(tail, name)); }
  }

  lemma WithoutBehind(head: seq<Node>, tail: seq<Node>, k: nat)
    requires k < |tail|
    ensures Without(head + tail, |head| + k) == head + Without(tail, k)
  {
    assert (head + tail)[..|head| + k] == head + tail[..k];
    assert (head + tail)[|head| + k + 1..] == tail[k + 1..];
  }

  lemma {:induction false} FindSkips(head: seq<Node>, tail: seq<Node>, name: string)
    requires forall n :: n in head ==> n.part.name != name
    ensures Find(head + tail, name) == |head| + Find(tail, name)
    decreases |head|
  {
    if head == [] {
      assert head + tail == tail;
    } else {
      assert head[0] in head;
      assert (head + tail)[1..] == head[1..] + tail;
      FindSkips(head[1..], tail, name);
    }
  }

  lemma {:induction false} StayingFrom(list: seq<Node>, table: seq<Part>)
    ensures forall n :: n in Staying(list, table) <==> n in list && !(n.remove && InTable(table, n.part.name))
  {
    hide InTable;
    if list != [] { StayingFrom(list[1..], table); }
  }

  lemma NotFound(list: seq<Node>, name: string)
    requires forall k :: 0 <= k < |list| ==> list[k].part.name != name
    ensures Find(list, name) == |list|
  {
  }

  lemma InListHas(list: seq<Node>, n: Node)
    requires n in list
    ensures InList(list, n.part.name)
  {
  }

  lemma NotInFront(table: seq<Part>)
    requires TableUnique(table) && table != []
    ensures TableUnique(table[..|table| - 1]) && !InTable(table[..|table| - 1], table[|table| - 1].name)
  {
  }

  /** With every name mentioned once by the user and once by the table, the list after the update: what joins
      from the table, then what stays of the user's own. */
  lemma {:induction false} UpdateExact(list: seq<Node>, table: seq<Part>)
    requires UserUnique(list) && TableUnique(table)
    ensures UpdateAll(list, table) == Joining(list, table) + Staying(list, table)
    decreases |table|
  {
    hide UpdateAll, UpdateOne, Staying, InTable, InList, TableUnique, UserUnique;
    if table == [] {
      NothingUpdated(list);
    } else {
      var front, p := table[..|table| - 1], table[|table| - 1];
      assert table == front + [p];
      NotInFront(table);
      UpdateSnoc(list, front, p);
      UpdateExact(list, front);
      if InList(list, p.name) { MentionedEntry(list, front, p); } else { NewEntry(list, front, p); }
    }
  }

  lemma {:induction false} NothingUpdated(list: seq<Node>)
    ensures UpdateAll(list, []) == list && Staying(list, []) == list
    ensures [] + list == list
  {
    if list != [] {
      NothingUpdated(list[1..]);
      assert [list[0]] + list[1..] == list;
    }
  }

  lemma NewEntry(list: seq<Node>, front: seq<Part>, p: Part)
    requires !InList(list, p.name) && !InTable(front, p.name)
    ensures UpdateOne(Joining(list, front) + Staying(list, front), p) ==
      [Node(p, false)] + Joining(list, front) + Staying(list, front + [p])
  {
    hide Joining, Staying, InTable;
    var j, st := Joining(list, front), Staying(list, front);
    JoiningNames(list, front);
    StayingFrom(list, front);
    var all: seq<Node> := j + st;
    forall k | 0 <= k < |all| ensures all[k].part.name != p.name {
      var n := all[k];
      assert n in j || n in st;
      if n in list { InListHas(list, n); }
    }
    NotFound(j + st, p.name);
    StayingOther(list, front, p);
    assert [Node(p, false)] + (j + st) == [Node(p, false)] + j + st;
  }

  lemma MentionedEntry(list: seq<Node>, front: seq<Part>, p: Part)
    requires UserUnique(list) && InList(list, p.name) && !InTable(front, p.name)
    ensures UpdateOne(Joining(list, front) + Staying(list, front), p) == Joining(list, front) + Staying(list, front + [p])
  {
    hide Joining, Staying, InTable, Find, Without, UserUnique;
    var j, st := Joining(list, front), Staying(list, front);
    var k :| 0 <= k < |list| && list[k].part.name == p.name;
    JoiningNames(list, front);
    FindSkips(j, st, p.name);
    StayingFind(list, front, k, p);
    var f := Find(st, p.name);
    assert (j + st)[|j| + f] == list[k];
    if list[k].remove {
      WithoutBehind(j, st, f);
    } else {
      OnlyOne(list, k);
      StayingOther(list, front, p);
    }
  }

  lemma OnlyOne(list: seq<Node>, k: nat)
    requires UserUnique(list) && k < |list| && !list[k].remove
    ensures forall i :: 0 <= i < |list| ==> list[i].part.name != list[k].part.name || !list[i].remove
  {
    forall i | 0 <= i < |list| ensures list[i].part.name != list[k].part.name || !list[i].remove {
      if i != k { assert list[if i < k then i else k].part.name != list[if i < k then k else i].part.name; }
    }
  }

  /** With no name repeated, an update succeeds exactly when the table has every partition to be removed,
      and then leaves the user's own partitions and those of the table that the user did not mention. */
  lemma UniqueUpdate(list: seq<Node>, table: seq<Part>)
    requires UserUnique(list) && TableUnique(table)
    ensures var end := UpdateAll(list, table);
      && (Settled(end) <==> forall n :: n in list && n.remove ==> InTable(table, n.part.name))
      && (Settled(end) ==> forall n :: n in end <==>
            (n in list && !n.remove) || (!n.remove && n.part in table && !InList(list, n.part.name)))
      && UserUnique(end)
  {
    hide UpdateAll, Joining, Staying, InTable, InList, UserUnique;
    var end, j, st := UpdateAll(list, table), Joining(list, table), Staying(list, table);
    UpdateExact(list, table);
    JoiningNames(list, table);
    JoiningFrom(list, table);
    StayingFrom(list, table);
    if forall n :: n in list && n.remove ==> InTable(table, n.part.name) {
      forall k | 0 <= k < |end| ensures !end[k].remove { assert end[k] in end; }
    } else {
      var n :| n in list && n.remove && !InTable(table, n.part.name);
      assert n in end;
      var k :| 0 <= k < |end| && end[k] == n;
    }
    UpdateKeepsUnique(list, table);
  }

  lemma {:induction false} JoiningFrom(list: seq<Node>, table: seq<Part>)
    ensures forall n :: n in Joining(list, table) <==> !n.remove && n.part in table && !InList(list, n.part.name)
    decreases |table|
  {
    hide InList;
    if table != [] {
      var front, p := table[..|table| - 1], table[|table| - 1];
      JoiningFrom(list, front);
      assert table == front + [p];
      assert forall n: Node :: n.part == p && !n.remove ==> n == Node(p, false);
    }
  }

  lemma UniqueOne(list: seq<Node>, p: Part)
    requires UserUnique(list)
    ensures UserUnique(UpdateOne(list, p))
  {
    var k := Find(list, p.name);
    if k < |list| && list[k].remove {
      var w := Without(list, k);
      forall i, j | 0 <= i < j < |w| ensures w[i].part.name != w[j].part.name {
        assert w[i] == list[if i < k then i else i + 1] && w[j] == list[if j < k then j else j + 1];
      }
    }
  }

  lemma {:induction false} UpdateKeepsUnique(list: seq<Node>, table: seq<Part>)
    requires UserUnique(list)
    ensures UserUnique(UpdateAll(list, table))
    decreases |table|
  {
    hide UserUnique, UpdateOne;
    if table != [] {
      UniqueOne(list, table[0]);
      UpdateKeepsUnique(UpdateOne(list, table[0]), table[1..]);
    }
  }

  /** Requests only, met by entries of their name: each entry takes one, and any further one joins. */
  lemma {:induction false} RequestsMet(ns: seq<Node>, ps: seq<Part>, name: string)
    requires AllNamed(ns, ps, name) && forall k :: 0 <= k < |ns| ==> ns[k].remove
    ensures UpdateAll(ns, ps) == [] <==> |ps| == |ns|
    decreases |ps|
  {
    hide UpdateOne;
    if ps != [] {
      OneNameStep(ns, ps[0], name);
      if ns == [] {
        JoinsEmpty(ps[0]);
        NeverEmpty(UpdateOne(ns, ps[0]), ps[1..]);
      } else {
        TakesFirst(ns, ps[0]);
        RequestsMet(ns[1..], ps[1..], name);
      }
    }
  }

  lemma JoinsEmpty(p: Part)
    ensures UpdateOne([], p) == [Node(p, false)]
  {
    assert [Node(p, false)] + [] == [Node(p, false)];
  }

  lemma TakesFirst(ns: seq<Node>, p: Part)
    requires ns != [] && ns[0].remove && ns[0].part.name == p.name
    ensures UpdateOne(ns, p) == ns[1..]
  {
    assert Without(ns, 0) == ns[1..];
  }

  /** Where the user has saved nothing under a name, it is gone after the update exactly when the table has it as often
      as there are requests to remove it: with fewer entries a request is left over, and one more joins as a new one. */
  lemma RemovedGone(list: seq<Node>, table: seq<Part>, name: string)
    requires forall n :: n in Named(list, name) ==> n.remove
    ensures Named(UpdateAll(list, table), name) == [] <==> |PartsNamed(table, name)| == |Named(list, name)|
  {
    hide UpdateAll;
    UpdateAllNamed(list, table, name);
    NamedNames(list, table, name);
    RequestsMet(Named(list, name), PartsNamed(table, name), name);
  }

  /** A table with a name twice, one request to remove it: the update succeeds and the second one is there. */
  lemma RemovedReturns(first: Part, second: Part)
    requires first.name == second.name
    ensures var list := [Node(Part(first.name, 0, 0, 0), true)];
      UpdateAll(list, [first, second]) == [Node(second, false)] && Settled(UpdateAll(list, [first, second]))
  {
    var n, ps := Node(Part(first.name, 0, 0, 0), true), [first, second];
    FirstEntries(n, ps, first.name);
    assert ps[..2] == ps;
  }

  lemma FirstEntries(n: Node, ps: seq<Part>, name: string)
    requires n.remove && n.part.name == name && ps != [] && forall k :: 0 <= k < |ps| ==> ps[k].name == name
    ensures UpdateAll([n], ps[..1]) == []
    ensures |ps| > 1 ==> UpdateAll([n], ps[..2]) == [Node(ps[1], false)]
  {
    assert UpdateOne([n], ps[0]) == [];
    assert UpdateAll([], ps[..1][1..]) == [];
    if |ps| > 1 {
      var rest := ps[..2][1..];
      assert rest[0] == ps[1] && rest[1..] == [];
      assert UpdateOne([], ps[1]) == [Node(ps[1], false)] + [] == [Node(ps[1], false)];
      assert UpdateAll([], rest) == UpdateAll([Node(ps[1], false)], rest[1..]);
      assert UpdateAll([n], ps[..2]) == UpdateAll([], rest);
    }
  }

  lemma {:induction false} NeverEmpty(list: seq<Node>, table: seq<Part>)
    requires list != [] && Settled(list)
    ensures UpdateAll(list, table) != []
    decreases |table|
  {
    if table != [] { NeverEmpty(UpdateOne(list, table[0]), table[1..]); }
  }

  // ---------- the tool's list ----------

  function Saved(list: seq<Node>): seq<Part> {
    if list == [] then [] else (if list[0].remove then [] else [list[0].part]) + Saved(list[1..])
  }

  lemma {:induction false} SavedSnoc(list: seq<Node>, n: Node)
    ensures Saved(list + [n]) == Saved(list) + if n.remove then [] else [n.part]
    decreases |list|
  {
    if list == [] {
      assert Saved([n][1..]) == [] && list + [n] == [n];
    } else {
      var first := if list[0].remove then [] else [list[0].part];
      var last := if n.remove then [] else [n.part];
      assert (list + [n])[1..] == list[1..] + [n] && (list + [n])[0] == list[0];
      SavedSnoc(list[1..], n);
      assert Saved(list + [n]) == first + (Saved(list[1..]) + last);
      assert first + (Saved(list[1..]) + last) == (first + Saved(list[1..])) + last;
    }
  }

  lemma {:induction false} SavedLength(list: seq<Node>)
    ensures |Saved(list)| <= |list|
    ensures |Saved(list)| == |list| <==> Settled(list)
  {
    if list != [] {
      SavedLength(list[1..]);
      if Settled(list[1..]) && !list[0].remove {
        assert forall k :: 0 <= k < |list| ==> list[k] == if k == 0 then list[0] else list[1..][k - 1];
      }
      if Settled(list) { assert forall k :: 0 <= k < |list[1..]| ==> list[1..][k] == list[k + 1]; }
    }
  }

  /** Of a list without requests, the partitions in order. */
  lemma {:induction false} SavedAt(list: seq<Node>)
    requires Settled(list)
    ensures |Saved(list)| == |list| && forall k :: 0 <= k < |list| ==> Saved(list)[k] == list[k].part
  {
    if list != [] {
      assert forall k :: 0 <= k < |list[1..]| ==> list[1..][k] == list[k + 1];
      SavedAt(list[1..]);
    }
  }

  class Disk {
    const nameSize: nat
    const blksz: nat
    var list: seq<Node>
    var count: nat
    var image: seq<Part>

    /** The count kept beside the list is its length. */
    ghost predicate Valid()
      reads this
    {
      count == |list|
    }

    constructor (nameSize: nat, blksz: nat, image: seq<Part>)
      ensures Valid() && list == [] && this.image == image && this.nameSize == nameSize && this.blksz == blksz
    {
      this.nameSize, this.blksz, this.image := nameSize, blksz, image;
      list, count := [], 0;
    }

    /** Ask for a partition to be removed. */
    method ParseToRm(name: string) returns (ret: int)
      requires Valid()
      modifies this`list, this`count
      ensures Valid()
      ensures ret == if 0 < |name| < nameSize then 0 else -1
      ensures list == if ret == 0 then [Node(Part(name, 0, 0, 0), true)] + old(list) else old(list)
    {
      if |name| == 0 || |name| >= nameSize { return -1; }
      list := [Node(Part(name, 0, 0, 0), true)] + list;
      count := count + 1;
      ret := 0;
    }

    /** Declare a partition, whose numbers have been read; its type may not be a known one. */
    method ParseToSave(part: Part, known: bool) returns (ret: int)
      requires Valid()
      modifies this`list, this`count
      ensures Valid()
      ensures ret == if 0 < |part.name| < nameSize && known then 0 else -1
      ensures list == if ret == 0 then [Node(part, false)] + old(list) else old(list)
    {
      if |part.name| == 0 || |part.name| >= nameSize { return -1; }
      if !known { return -1; }
      list := [Node(part, false)] + list;
      count := count + 1;
      ret := 0;
    }

    method UpdatePartsList(table: seq<Part>) returns (ret: int)
      requires Valid()
      modifies this`list, this`count
      ensures Valid() && list == UpdateAll(old(list), table)
      ensures ret == if Settled(list) then 0 else -1
    {
      hide UpdateAll;
      var i := 0;
      assert table[..0] == [];
      NothingUpdated(list);
      while i < |table|
        invariant 0 <= i <= |table| && Valid() && list == UpdateAll(old(list), table[..i])
      {
        assert table[..i + 1] == table[..i] + [table[i]];
        UpdateSnoc(old(list), table[..i], table[i]);
        var p, k := table[i], 0;
        while k < |list| && list[k].part.name != p.name
          invariant 0 <= k <= |list|
          invariant forall j :: 0 <= j < k ==> list[j].part.name != p.name
        {
          k := k + 1;
        }
        assert k == Find(list, p.name);
        if k == |list| {
          list := [Node(p, false)] + list;
          count := count + 1;
        } else if list[k].remove {
          list := list[..k] + list[k + 1..];
          count := count - 1;
        }
        i := i + 1;
      }
      assert table[..i] == table;
      var k := 0;
      while k < |list|
        invariant 0 <= k <= |list| && forall j :: 0 <= j < k ==> !list[j].remove
      {
        if list[k].remove { return -1; }
        k := k + 1;
      }
      ret := 0;
    }

    /** Fill a table of `count` entries with the partitions to save, in place, and write it. */
    method CreatePartsTable(size: nat) returns (ret: int)
      requires Valid() && Settled(list)
      modifies this`image
      ensures ret == if size <= blksz then 0 else -1
      ensures image == if ret == 0 then Saved(list) else old(image)
      ensures ret == 0 ==> |image| == count
    {
      if size > blksz { return -1; }
      SavedLength(list);
      var parts := new Part[count](_ => ZERO);
      var i, k := 0, 0;
      while k < |list|
        invariant 0 <= k <= |list| && i == k
        invariant parts[..i] == Saved(list[..k])
      {
        assert list[..k + 1] == list[..k] + [list[k]];
        SavedSnoc(list[..k], list[k]);
        if !list[k].remove {
          parts[i] := list[k].part;
          i := i + 1;
        }
        k := k + 1;
      }
      assert list[..k] == list && parts[..i] == parts[..];
      image := parts[..];
      ret := 0;
    }

    /** Whether the image holds the list's partitions, in order. */
    method VerifyPartsTable() returns (ret: int)
      requires Valid() && |image| == count
      ensures ret == if Saved(list) <= image then 0 else -1
    {
      SavedLength(list);
      var i, k := 0, 0;
      while k < |list|
        invariant 0 <= k <= |list| && 0 <= i <= k && image[..i] == Saved(list[..k])
      {
        assert list[..k + 1] == list[..k] + [list[k]];
        SavedSnoc(list[..k], list[k]);
        if !list[k].remove {
          if i >= count || list[k].part != image[i] {
            SavedPrefix(list, k + 1);
            assert Saved(list[..k + 1])[i] == list[k].part;
            return -1;
          }
          assert image[..i + 1] == image[..i] + [image[i]];
          i := i + 1;
        }
        k := k + 1;
      }
      assert list[..k] == list;
      ret := 0;
    }

    /** Update the image. It succeeds exactly when the user's list fits the table and the new table fits its
        block; then the image holds exactly the partitions of the updated list. */
    method UpdateImg(size: nat) returns (ret: int)
      requires Valid()
      modifies this`list, this`count, this`image
      ensures Valid() && list == UpdateAll(old(list), old(image))
      ensures ret == if Settled(list) && size <= blksz then 0 else -1
      ensures image == if ret == 0 then Saved(list) else old(image)
      ensures ret == 0 ==> |image| == count == |list| && forall k :: 0 <= k < |list| ==> image[k] == list[k].part
    {
      hide UpdateAll, Saved;
      ret := UpdatePartsList(image);
      if ret < 0 { return -1; }
      ret := CreatePartsTable(size);
      if ret < 0 { return -1; }
      SavedAt(list);
      ret := VerifyPartsTable();
    }
  }

  lemma {:induction false} SavedPrefix(list: seq<Node>, k: nat)
    requires k <= |list|
    ensures Saved(list[..k]) <= Saved(list)
    decreases |list| - k
  {
    if k < |list| {
      assert list[..k + 1] == list[..k] + [list[k]];
      SavedSnoc(list[..k], list[k]);
      SavedPrefix(list, k + 1);
    } else {
      assert list[..k] == list;
    }
  }
}
