/** What a log of packets says about tracks and slices, read from its start. */
module EmitterLog {
  import opened Basics
  import opened EmitterNames
  import opened EmitterSpec

  // ---------- open slices of a name ----------

  predicate On(p: Packet, tracks: set<Uid>, name: string) {
    p.Slice? && !p.phase.Instant? && p.track in tracks && p.name == name
  }

  function Delta(p: Packet, tracks: set<Uid>, name: string): int {
    if !On(p, tracks, name) then 0 else if p.phase.Begin? then 1 else -1
  }

  /** How many slices of a name are open on some tracks; negative for good once one ended that was
      not open. */
  function Level(log: seq<Packet>, tracks: set<Uid>, name: string): int
    decreases |log|
  {
    if log == [] then 0
    else
      var before := Level(log[..|log| - 1], tracks, name);
      if before < 0 then before else before + Delta(log[|log| - 1], tracks, name)
  }

  lemma LevelPut(log: seq<Packet>, p: Packet, tracks: set<Uid>, name: string)
    ensures Level(log + [p], tracks, name) ==
      var before := Level(log, tracks, name); if before < 0 then before else before + Delta(p, tracks, name)
  {
    assert (log + [p])[..|log|] == log;
  }

  function Count(log: seq<Packet>, begin: bool, tracks: set<Uid>, name: string): nat
    decreases |log|
  {
    if log == [] then 0
    else
      var p := log[|log| - 1];
      Count(log[..|log| - 1], begin, tracks, name) + if On(p, tracks, name) && p.phase.Begin? == begin then 1 else 0
  }

  /** A level that is not negative counts begins minus ends, and no prefix of the log has more ends than
      begins. */
  lemma {:induction false} LevelMeaning(log: seq<Packet>, tracks: set<Uid>, name: string)
    requires Level(log, tracks, name) >= 0
    ensures Level(log, tracks, name) == Count(log, true, tracks, name) - Count(log, false, tracks, name)
    ensures forall k :: 0 <= k <= |log| ==> Count(log[..k], true, tracks, name) >= Count(log[..k], false, tracks, name)
    decreases |log|
  {
    if log == [] {
      assert log[..0] == log;
    } else {
      var front := log[..|log| - 1];
      LevelMeaning(front, tracks, name);
      forall k | 0 <= k <= |log|
        ensures Count(log[..k], true, tracks, name) >= Count(log[..k], false, tracks, name)
      {
        if k < |log| { assert log[..k] == front[..k]; } else { assert log[..k] == log; }
      }
    }
  }

  lemma {:induction false} LevelSame(log: seq<Packet>, tracks: set<Uid>, tracks': set<Uid>, name: string)
    requires forall i :: 0 <= i < |log| && log[i].Slice? ==> (log[i].track in tracks <==> log[i].track in tracks')
    ensures Level(log, tracks, name) == Level(log, tracks', name)
    decreases |log|
  {
    if log != [] { LevelSame(log[..|log| - 1], tracks, tracks', name); }
  }

  lemma {:induction false} LevelNowhere(log: seq<Packet>, name: string)
    ensures Level(log, {}, name) == 0
    decreases |log|
  {
    if log != [] { LevelNowhere(log[..|log| - 1], name); }
  }

  function Matching(ps: seq<Packet>, tracks: set<Uid>, name: string): nat
    decreases |ps|
  {
    if ps == [] then 0
    else Matching(ps[..|ps| - 1], tracks, name) + if On(ps[|ps| - 1], tracks, name) then 1 else 0
  }

  lemma {:induction false} MatchingConcat(a: seq<Packet>, b: seq<Packet>, tracks: set<Uid>, name: string)
    ensures Matching(a + b, tracks, name) == Matching(a, tracks, name) + Matching(b, tracks, name)
    decreases |b|
  {
    if b == [] {
      assert a + b == a;
    } else {
      assert (a + b)[..|a + b| - 1] == a + b[..|b| - 1];
      MatchingConcat(a, b[..|b| - 1], tracks, name);
    }
  }

  lemma {:induction false} MatchingNone(ps: seq<Packet>, tracks: set<Uid>, name: string)
    requires forall i :: 0 <= i < |ps| ==> !On(ps[i], tracks, name)
    ensures Matching(ps, tracks, name) == 0
    decreases |ps|
  {
    if ps != [] { MatchingNone(ps[..|ps| - 1], tracks, name); }
  }

  lemma {:induction false} MatchingSame(ps: seq<Packet>, tracks: set<Uid>, tracks': set<Uid>, name: string)
    requires forall i :: 0 <= i < |ps| ==> (On(ps[i], tracks, name) <==> On(ps[i], tracks', name))
    ensures Matching(ps, tracks, name) == Matching(ps, tracks', name)
    decreases |ps|
  {
    if ps != [] { MatchingSame(ps[..|ps| - 1], tracks, tracks', name); }
  }

  /** Ending slices that were begun lowers the level by as many. */
  lemma {:induction false} LevelEnds(log: seq<Packet>, ps: seq<Packet>, tracks: set<Uid>, name: string)
    requires forall i :: 0 <= i < |ps| ==> ps[i].Slice? && ps[i].phase.Begin?
    requires Level(log, tracks, name) >= Matching(ps, tracks, name)
    ensures Level(log + Ends(ps), tracks, name) == Level(log, tracks, name) - Matching(ps, tracks, name)
    decreases |ps|
  {
    if ps == [] {
      assert log + Ends(ps) == log;
    } else {
      var front, p := ps[..|ps| - 1], ps[|ps| - 1];
      LevelEnds(log, front, tracks, name);
      assert log + Ends(ps) == (log + Ends(front)) + [Ended(p)];
      LevelPut(log + Ends(front), Ended(p), tracks, name);
    }
  }

  // ---------- one slice at a time ----------

  /** A choice of slices: those on a track, or those of a name. */
  datatype Sel = OnTrack(uid: Uid) | WithName(name: string)

  predicate Picks(sel: Sel, p: Packet) {
    p.Slice? && !p.phase.Instant? &&
    match sel
    case OnTrack(u) => p.track == u
    case WithName(n) => p.name == n
  }

  /** At most one of the chosen slices is open; broken for good once they overlap or do not match. */
  datatype Seat = Empty | Taken(name: string, track: Uid) | Broken

  function Sit(seat: Seat, p: Packet): Seat
    requires p.Slice?
  {
    match seat
    case Empty => if p.phase.Begin? then Taken(p.name, p.track) else Broken
    case Taken(n, t) => if p.phase.End? && p.name == n && p.track == t then Empty else Broken
    case Broken => Broken
  }

  function Scan(log: seq<Packet>, sel: Sel): Seat
    decreases |log|
  {
    if log == [] then Empty
    else
      var before, p := Scan(log[..|log| - 1], sel), log[|log| - 1];
      if Picks(sel, p) then Sit(before, p) else before
  }

  lemma ScanPut(log: seq<Packet>, p: Packet, sel: Sel)
    ensures Scan(log + [p], sel) == if Picks(sel, p) then Sit(Scan(log, sel), p) else Scan(log, sel)
  {
    assert (log + [p])[..|log|] == log;
  }

  lemma {:induction false} ScanSkips(log: seq<Packet>, q: seq<Packet>, sel: Sel)
    requires forall i :: 0 <= i < |q| ==> !Picks(sel, q[i])
    ensures Scan(log + q, sel) == Scan(log, sel)
    decreases |q|
  {
    if q == [] {
      assert log + q == log;
    } else {
      assert log + q == (log + q[..|q| - 1]) + [q[|q| - 1]];
      ScanSkips(log, q[..|q| - 1], sel);
      ScanPut(log + q[..|q| - 1], q[|q| - 1], sel);
    }
  }

  function Picked(log: seq<Packet>, sel: Sel): seq<Packet>
    decreases |log|
  {
    if log == [] then []
    else Picked(log[..|log| - 1], sel) + if Picks(sel, log[|log| - 1]) then [log[|log| - 1]] else []
  }

  /** Begins and ends take turns, and each end has the name and the track of the begin before it. */
  predicate TakeTurns(ps: seq<Packet>) {
    && (forall i :: 0 <= i < |ps| ==> ps[i].Slice?)
    && (forall i :: 0 <= i < |ps| ==> ps[i].phase == if i % 2 == 0 then Begin else End)
    && (forall i :: 0 < i < |ps| && i % 2 == 1 ==> ps[i].name == ps[i - 1].name && ps[i].track == ps[i - 1].track)
  }

  function SeatAfter(ps: seq<Packet>): Seat {
    if |ps| % 2 == 0 || !ps[|ps| - 1].Slice? then Empty else Taken(ps[|ps| - 1].name, ps[|ps| - 1].track)
  }

  /** What a scan that is not broken has seen: slices that take turns, the last of them still open if the
      seat is taken. */
  lemma {:induction false} ScanMeaning(log: seq<Packet>, sel: Sel)
    requires !Scan(log, sel).Broken?
    ensures TakeTurns(Picked(log, sel))
    ensures Scan(log, sel) == SeatAfter(Picked(log, sel))
    decreases |log|
  {
    hide TakeTurns, SeatAfter, Sit;
    NoTurns();
    if log != [] {
      var front, p := log[..|log| - 1], log[|log| - 1];
      if p.Slice? { BrokenStays(p); }
      ScanMeaning(front, sel);
      assert Picked(front, sel) + [] == Picked(front, sel);
      if Picks(sel, p) { TurnTaken(Picked(front, sel), p); }
    }
  }

  lemma NoTurns()
    ensures TakeTurns([]) && SeatAfter([]) == Empty
  {
  }

  lemma BrokenStays(p: Packet)
    requires p.Slice?
    ensures Sit(Broken, p).Broken?
  {
  }

  lemma TurnTaken(ps: seq<Packet>, p: Packet)
    requires TakeTurns(ps) && p.Slice? && !p.phase.Instant? && !Sit(SeatAfter(ps), p).Broken?
    ensures TakeTurns(ps + [p]) && SeatAfter(ps + [p]) == Sit(SeatAfter(ps), p)
  {
    var n, qs := |ps|, ps + [p];
    assert n % 2 == 1 ==> p.phase.End? && p.name == ps[n - 1].name && p.track == ps[n - 1].track;
    assert n % 2 == 0 ==> p.phase.Begin?;
    assert forall i :: 0 <= i < n ==> qs[i] == ps[i];
  }

  // ---------- described tracks ----------

  /** The tracks a log has described. */
  function Uuids(log: seq<Packet>): set<Uid> {
    set i | 0 <= i < |log| && log[i].Descriptor? :: log[i].uuid
  }

  lemma UuidsPut(log: seq<Packet>, p: Packet)
    ensures Uuids(log + [p]) == Uuids(log) + (if p.Descriptor? then {p.uuid} else {})
  {
    var m := log + [p];
    forall u | u in Uuids(log) ensures u in Uuids(m) {
      var i :| 0 <= i < |log| && log[i].Descriptor? && log[i].uuid == u;
      assert m[i] == log[i];
    }
    forall u | u in Uuids(m) ensures u in Uuids(log) || (p.Descriptor? && u == p.uuid) {
      var i :| 0 <= i < |m| && m[i].Descriptor? && m[i].uuid == u;
      if i < |log| { assert m[i] == log[i]; }
    }
    if p.Descriptor? { assert m[|log|] == p; }
  }

  /** The tracks a packet mentions. */
  function Refs(p: Packet): set<Uid> {
    match p
    case Descriptor(_, parent, _) => if parent.Some? then {parent.value} else {}
    case Slice(_, _, track) => {track}
    case Counter(_, track) => {track}
  }

  /** Every track is described before it is mentioned. */
  ghost predicate Ordered(log: seq<Packet>) {
    forall k :: 0 <= k < |log| ==> Refs(log[k]) <= Uuids(log[..k])
  }

  lemma OrderedPut(log: seq<Packet>, p: Packet)
    requires Ordered(log) && Refs(p) <= Uuids(log)
    ensures Ordered(log + [p])
  {
    var m := log + [p];
    forall k | 0 <= k < |m| ensures Refs(m[k]) <= Uuids(m[..k]) {
      if k < |log| { assert m[..k] == log[..k] && m[k] == log[k]; } else { assert m[..k] == log; }
    }
  }

  /** A track is described once, or is a process's, described again by its own process. */
  ghost predicate Distinct(log: seq<Packet>) {
    forall i, j :: 0 <= i < j < |log| && log[i].Descriptor? && log[j].Descriptor? && log[i].uuid == log[j].uuid ==>
      log[i].what.Process? && log[j].what.Process? && log[i].what.pid == log[j].what.pid
  }

  /** Every prefix of a good log is good. */
  lemma GoodPrefix(log: seq<Packet>, k: nat)
    requires Ordered(log) && Distinct(log) && k <= |log|
    ensures Ordered(log[..k]) && Distinct(log[..k])
  {
    forall i | 0 <= i < k ensures Refs(log[..k][i]) <= Uuids(log[..k][..i]) { assert log[..k][..i] == log[..i]; }
  }
}
