/** Beginning, ending and replacing slices keeps what holds of the log. */
module EmitterSlices {
  import opened Basics
  import opened EmitterNames
  import opened EmitterSpec
  import opened EmitterLog
  import opened EmitterCore

  // ---------- stacks ----------

  function One(p: Packet, tracks: set<Uid>, name: string): nat {
    if On(p, tracks, name) then 1 else 0
  }

  lemma MatchingPut(ps: seq<Packet>, p: Packet, tracks: set<Uid>, name: string)
    ensures Matching(ps + [p], tracks, name) == Matching(ps, tracks, name) + One(p, tracks, name)
  {
    assert (ps + [p])[..|ps|] == ps;
  }

  lemma {:induction false} PushMatching(stacks: seq<Stack>, p: Packet, tracks: set<Uid>, name: string)
    requires p.Slice?
    ensures Matching(All(PushOn(stacks, p)), tracks, name) == Matching(All(stacks), tracks, name) + One(p, tracks, name)
    decreases |stacks|
  {
    hide On, Matching, One;
    if stacks == [] {
      assert All([Stack(p.name, [p])]) == [] + [p];
      MatchingPut([], p, tracks, name);
    } else {
      var ps, rest := stacks[0].packets, All(stacks[1..]);
      MatchingConcat(ps, rest, tracks, name);
      if stacks[0].name == p.name {
        MatchingPut(ps, p, tracks, name);
        MatchingConcat(ps + [p], rest, tracks, name);
        assert PushOn(stacks, p)[1..] == stacks[1..];
      } else {
        PushMatching(stacks[1..], p, tracks, name);
        MatchingConcat(ps, All(PushOn(stacks[1..], p)), tracks, name);
        assert PushOn(stacks, p)[1..] == PushOn(stacks[1..], p);
      }
    }
  }

  function Top(stacks: seq<Stack>, name: string): Packet
    requires HasTop(stacks, name)
  {
    if stacks[0].name == name then stacks[0].packets[|stacks[0].packets| - 1] else Top(stacks[1..], name)
  }

  lemma {:induction false} PopMatching(stacks: seq<Stack>, top: string, tracks: set<Uid>, name: string)
    requires HasTop(stacks, top)
    ensures Matching(All(stacks), tracks, name) ==
      Matching(All(PopFrom(stacks, top)), tracks, name) + One(Top(stacks, top), tracks, name)
    decreases |stacks|
  {
    hide On, Matching, One;
    var ps, rest := stacks[0].packets, All(stacks[1..]);
    MatchingConcat(ps, rest, tracks, name);
    if stacks[0].name == top {
      var n := |ps| - 1;
      assert ps == ps[..n] + [ps[n]];
      MatchingPut(ps[..n], ps[n], tracks, name);
      MatchingConcat(ps[..n], rest, tracks, name);
      assert PopFrom(stacks, top)[1..] == stacks[1..];
    } else {
      PopMatching(stacks[1..], top, tracks, name);
      MatchingConcat(ps, All(PopFrom(stacks[1..], top)), tracks, name);
      assert PopFrom(stacks, top)[1..] == PopFrom(stacks[1..], top);
    }
  }

  lemma StacksTail(tid: Tid, stacks: seq<Stack>, slots: map<Slot, Uid>)
    requires StacksOk(tid, stacks, slots) && stacks != []
    ensures StacksOk(tid, stacks[1..], slots) && StacksOk(tid, [stacks[0]], slots)
  {
    hide Home;
    forall i, j | 0 <= i < |stacks[1..]| && 0 <= j < |stacks[1..][i].packets|
      ensures Home(stacks[1..][i].packets[j], tid, stacks[1..][i].name, slots)
    {
      assert stacks[1..][i] == stacks[i + 1];
    }
  }

  lemma StacksJoin(tid: Tid, st: Stack, rest: seq<Stack>, slots: map<Slot, Uid>)
    requires StacksOk(tid, [st], slots) && StacksOk(tid, rest, slots)
    ensures StacksOk(tid, [st] + rest, slots)
  {
    hide Home;
    var all := [st] + rest;
    forall i, j | 0 <= i < |all| && 0 <= j < |all[i].packets| ensures Home(all[i].packets[j], tid, all[i].name, slots) {
      if i == 0 { assert all[0] == [st][0]; } else { assert all[i] == rest[i - 1]; }
    }
  }

  lemma {:induction false} PushStacks(tid: Tid, stacks: seq<Stack>, p: Packet, slots: map<Slot, Uid>)
    requires StacksOk(tid, stacks, slots) && HomeOwn(p, tid, slots)
    ensures StacksOk(tid, PushOn(stacks, p), slots)
    decreases |stacks|
  {
    hide Home;
    if stacks != [] {
      StacksTail(tid, stacks, slots);
      if stacks[0].name == p.name {
        var st := Stack(p.name, stacks[0].packets + [p]);
        forall j | 0 <= j < |st.packets| ensures Home(st.packets[j], tid, st.name, slots) {
          if j < |stacks[0].packets| { assert st.packets[j] == stacks[0].packets[j]; }
        }
        StacksJoin(tid, st, stacks[1..], slots);
      } else {
        PushStacks(tid, stacks[1..], p, slots);
        StacksJoin(tid, stacks[0], PushOn(stacks[1..], p), slots);
      }
    }
  }

  lemma {:induction false} PopStacks(tid: Tid, stacks: seq<Stack>, name: string, slots: map<Slot, Uid>)
    requires StacksOk(tid, stacks, slots) && HasTop(stacks, name)
    ensures StacksOk(tid, PopFrom(stacks, name), slots) && Home(Top(stacks, name), tid, name, slots)
    decreases |stacks|
  {
    hide Home;
    StacksTail(tid, stacks, slots);
    if stacks[0].name == name {
      var ps := stacks[0].packets;
      var st := Stack(name, ps[..|ps| - 1]);
      forall j | 0 <= j < |st.packets| ensures Home(st.packets[j], tid, st.name, slots) {
        assert st.packets[j] == stacks[0].packets[j];
      }
      StacksJoin(tid, st, stacks[1..], slots);
    } else {
      PopStacks(tid, stacks[1..], name, slots);
      StacksJoin(tid, stacks[0], PopFrom(stacks[1..], name), slots);
    }
  }

  // ---------- the stack of one name ----------

  lemma {:induction false} PushOfName(stacks: seq<Stack>, p: Packet, name: string)
    requires p.Slice?
    ensures OfName(PushOn(stacks, p), name) == OfName(stacks, name) + if p.name == name then [p] else []
    decreases |stacks|
  {
    if stacks != [] {
      assert PushOn(stacks, p)[1..] == if stacks[0].name == p.name then stacks[1..] else PushOn(stacks[1..], p);
      PushOfName(stacks[1..], p, name);
    } else {
      assert [Stack(p.name, [p])][1..] == [];
    }
  }

  lemma {:induction false} PopOfName(stacks: seq<Stack>, top: string, name: string)
    ensures HasTop(stacks, top) <==> OfName(stacks, top) != []
    ensures HasTop(stacks, top) ==> var ps := OfName(stacks, name);
      OfName(PopFrom(stacks, top), name) == if name == top then ps[..|ps| - 1] else ps
    decreases |stacks|
  {
    if stacks != [] {
      PopOfName(stacks[1..], top, name);
      if HasTop(stacks, top) {
        assert PopFrom(stacks, top)[1..] == if stacks[0].name == top then stacks[1..] else PopFrom(stacks[1..], top);
      }
    }
  }

  function NamesOf(stacks: seq<Stack>): seq<string> {
    seq(|stacks|, i requires 0 <= i < |stacks| => stacks[i].name)
  }

  lemma {:induction false} PushNames(stacks: seq<Stack>, p: Packet)
    requires p.Slice?
    ensures NamesOf(PushOn(stacks, p)) == NamesOf(stacks) + if p.name in NamesOf(stacks) then [] else [p.name]
    decreases |stacks|
  {
    if stacks == [] {
      assert NamesOf([Stack(p.name, [p])]) == [p.name];
    } else {
      PushNames(stacks[1..], p);
      assert NamesOf(stacks) == [stacks[0].name] + NamesOf(stacks[1..]);
      assert NamesOf(PushOn(stacks, p)) == [stacks[0].name] + NamesOf(PushOn(stacks, p)[1..]);
      assert PushOn(stacks, p)[1..] == if stacks[0].name == p.name then stacks[1..] else PushOn(stacks[1..], p);
    }
  }

  lemma {:induction false} PopNames(stacks: seq<Stack>, top: string)
    requires HasTop(stacks, top)
    ensures NamesOf(PopFrom(stacks, top)) == NamesOf(stacks)
    decreases |stacks|
  {
    if stacks[0].name == top {
      assert PopFrom(stacks, top)[1..] == stacks[1..];
    } else {
      PopNames(stacks[1..], top);
      assert NamesOf(stacks) == [stacks[0].name] + NamesOf(stacks[1..]);
      assert NamesOf(PopFrom(stacks, top)) == [stacks[0].name] + NamesOf(PopFrom(stacks[1..], top));
    }
  }

  lemma SingleNames(stacks: seq<Stack>, stacks': seq<Stack>, name: string)
    requires Single(stacks)
    requires NamesOf(stacks') == NamesOf(stacks) || (name !in NamesOf(stacks) && NamesOf(stacks') == NamesOf(stacks) + [name])
    ensures Single(stacks')
  {
    var ns, ns' := NamesOf(stacks), NamesOf(stacks');
    forall i, j | 0 <= i < j < |stacks'| ensures stacks'[i].name != stacks'[j].name {
      assert stacks'[i].name == ns'[i] && stacks'[j].name == ns'[j];
      assert ns'[i] == ns[i] == stacks[i].name;
      if j < |stacks| { assert ns'[j] == ns[j] == stacks[j].name; } else { assert ns[i] in ns; }
    }
  }

  /** Without repeated names, the slices of a name are those of its one stack. */
  lemma {:induction false} AllOfName(stacks: seq<Stack>, tracks: set<Uid>, name: string)
    requires Single(stacks)
    requires forall i, j :: 0 <= i < |stacks| && 0 <= j < |stacks[i].packets| ==>
      stacks[i].packets[j].Slice? && stacks[i].packets[j].name == stacks[i].name
    ensures Matching(All(stacks), tracks, name) == Matching(OfName(stacks, name), tracks, name)
    decreases |stacks|
  {
    hide Matching;
    if stacks != [] {
      var rest := stacks[1..];
      assert forall i :: 0 <= i < |rest| ==> rest[i] == stacks[i + 1];
      MatchingConcat(stacks[0].packets, All(rest), tracks, name);
      AllOfName(rest, tracks, name);
      if stacks[0].name == name {
        NotNamed(rest, name);
        MatchingNone([], tracks, name);
      } else {
        MatchingNone(stacks[0].packets, tracks, name);
      }
    }
  }

  lemma {:induction false} NotNamed(stacks: seq<Stack>, name: string)
    requires forall i :: 0 <= i < |stacks| ==> stacks[i].name != name
    ensures OfName(stacks, name) == []
  {
    if stacks != [] { NotNamed(stacks[1..], name); }
  }

  // ---------- one slice of a thread or of the kernel ----------

  /** The slot of a slice: the one its name tells, or one of the kernel's. */
  predicate Proper(a: Slot, tid: Tid, name: string, slots: map<Slot, Uid>) {
    && a in slots && !IsRunning(name)
    && if tid == KERNEL_TID then a.KernelCpu? else a == SlotFor(tid, PlaceOf(name))
  }

  lemma ProperHome(a: Slot, tid: Tid, name: string, slots: map<Slot, Uid>)
    requires Proper(a, tid, name, slots)
    ensures HomeOwn(Slice(Begin, name, slots[a]), tid, slots)
  {
  }

  lemma KernelTracksAre(slots: map<Slot, Uid>, uid: Uid, a: Slot)
    requires SlotsOk(slots, uid) && a in slots
    ensures slots[a] in KernelTracks(slots) <==> a.KernelCpu?
  {
  }

  /** A slice counts for a group of tracks exactly when the group belongs to its thread, is its slot's, and
      the name is the same. */
  lemma CountsFor(phase: Phase, a: Slot, tid: Tid, name: string, slots: map<Slot, Uid>, uid: Uid)
    requires SlotsOk(slots, uid) && Proper(a, tid, name, slots) && !phase.Instant?
    ensures forall b, n :: b in slots && Owner(b).Some? ==>
      (On(Slice(phase, name, slots[a]), {slots[b]}, n) <==> a == b && n == name)
    ensures forall n :: On(Slice(phase, name, slots[a]), KernelTracks(slots), n) <==> tid == KERNEL_TID && n == name
  {
    hide IsRunning, PlaceOf;
    KernelTracksAre(slots, uid, a);
  }

  lemma OwnersDiffer(a: Slot, tid: Tid, name: string, slots: map<Slot, Uid>)
    requires Proper(a, tid, name, slots)
    ensures Owner(a) == if tid == KERNEL_TID then None else Some(tid)
  {
  }

  lemma BeginSlices(log: seq<Packet>, slots: map<Slot, Uid>, uid: Uid, ongoing: map<Tid, seq<Stack>>, tid: Tid, a: Slot, name: string)
    requires SlotsOk(slots, uid) && SlicesOk(log, slots, ongoing)
    requires tid in ongoing && Proper(a, tid, name, slots)
    ensures var p := Slice(Begin, name, slots[a]); SlicesOk(log + [p], slots, ongoing[tid := PushOn(ongoing[tid], p)])
  {
    hide Level, Matching, All, KernelTracks, IsRunning, StacksOk, SlotsOk, Proper, PushOn, HomeOwn, Owner, On, Single, NamesOf;
    ProperIn(a, tid, name, slots);
    var p := Slice(Begin, name, slots[a]);
    var stacks := PushOn(ongoing[tid], p);
    ProperHome(a, tid, name, slots);
    PushStacks(tid, ongoing[tid], p, slots);
    PushNames(ongoing[tid], p);
    SingleNames(ongoing[tid], stacks, name);
    CountsFor(Begin, a, tid, name, slots, uid);
    OwnersDiffer(a, tid, name, slots);
    var log', kernel := log + [p], StacksOf(ongoing[tid := stacks], KERNEL_TID);
    forall t, b, n | t in ongoing && t != KERNEL_TID && b in slots && Tracked(b, t, n)
      ensures Balanced(log', ongoing[tid := stacks][t], {slots[b]}, n)
    {
      assert Balanced(log, ongoing[t], {slots[b]}, n);
      LevelPut(log, p, {slots[b]}, n);
      PushMatching(ongoing[tid], p, {slots[b]}, n);
    }
    forall n ensures Balanced(log', kernel, KernelTracks(slots), n) {
      assert Balanced(log, StacksOf(ongoing, KERNEL_TID), KernelTracks(slots), n);
      LevelPut(log, p, KernelTracks(slots), n);
      PushMatching(ongoing[tid], p, KernelTracks(slots), n);
    }
  }

  lemma ProperIn(a: Slot, tid: Tid, name: string, slots: map<Slot, Uid>)
    requires Proper(a, tid, name, slots)
    ensures a in slots
  {
  }

  /** The slice that ends counts for the same groups as the one it takes from the stack. */
  lemma TopCounts(top: Packet, a: Slot, tid: Tid, name: string, slots: map<Slot, Uid>, uid: Uid)
    requires SlotsOk(slots, uid) && Proper(a, tid, name, slots) && Home(top, tid, name, slots)
    ensures forall b, n :: b in slots && Owner(b).Some? ==> (On(top, {slots[b]}, n) <==> a == b && n == name)
    ensures forall n :: On(top, KernelTracks(slots), n) <==> tid == KERNEL_TID && n == name
  {
    hide IsRunning, PlaceOf;
    if tid == KERNEL_TID {
      var c :| c in slots && c.KernelCpu? && slots[c] == top.track;
      KernelTracksAre(slots, uid, c);
    } else {
      KernelTracksAre(slots, uid, a);
    }
  }

  lemma EndSlices(log: seq<Packet>, slots: map<Slot, Uid>, uid: Uid, ongoing: map<Tid, seq<Stack>>, tid: Tid, a: Slot, name: string)
    requires SlotsOk(slots, uid) && SlicesOk(log, slots, ongoing)
    requires tid in ongoing && Proper(a, tid, name, slots) && HasTop(ongoing[tid], name)
    ensures var p := Slice(End, name, slots[a]); SlicesOk(log + [p], slots, ongoing[tid := PopFrom(ongoing[tid], name)])
  {
    hide Level, Matching, All, KernelTracks, IsRunning, StacksOk, SlotsOk, Proper, PopFrom, HasTop, Top, Home, Owner, On, Single, NamesOf;
    ProperIn(a, tid, name, slots);
    var p := Slice(End, name, slots[a]);
    var stacks, top := PopFrom(ongoing[tid], name), Top(ongoing[tid], name);
    PopStacks(tid, ongoing[tid], name, slots);
    PopNames(ongoing[tid], name);
    SingleNames(ongoing[tid], stacks, name);
    CountsFor(End, a, tid, name, slots, uid);
    TopCounts(top, a, tid, name, slots, uid);
    OwnersDiffer(a, tid, name, slots);
    var log', kernel := log + [p], StacksOf(ongoing[tid := stacks], KERNEL_TID);
    forall t, b, n | t in ongoing && t != KERNEL_TID && b in slots && Tracked(b, t, n)
      ensures Balanced(log', ongoing[tid := stacks][t], {slots[b]}, n)
    {
      assert Balanced(log, ongoing[t], {slots[b]}, n);
      LevelPut(log, p, {slots[b]}, n);
      PopMatching(ongoing[tid], name, {slots[b]}, n);
    }
    forall n ensures Balanced(log', kernel, KernelTracks(slots), n) {
      assert Balanced(log, StacksOf(ongoing, KERNEL_TID), KernelTracks(slots), n);
      LevelPut(log, p, KernelTracks(slots), n);
      PopMatching(ongoing[tid], name, KernelTracks(slots), n);
    }
  }

  lemma ProperElsewhere(phase: Phase, a: Slot, tid: Tid, name: string, slots: map<Slot, Uid>, uid: Uid)
    requires SlotsOk(slots, uid) && Proper(a, tid, name, slots)
    ensures NoCpuSlice(Slice(phase, name, slots[a]), slots) && NoRunningSlice(Slice(phase, name, slots[a]))
  {
    hide PlaceOf, IsRunning, RunName;
    forall cpu: Cpu ensures name != RunName(cpu) { RunNames(cpu, cpu); }
  }

  /** Emit a slice of a thread or of the kernel, or an instant on any track. */
  lemma EmitSliceCore(s: State, tid: Tid, phase: Phase, name: string, a: Slot)
    requires Core(s, {}) && tid in s.ongoing && a in s.slots && !a.Flow?
    requires phase.Instant? || Proper(a, tid, name, s.slots)
    ensures Core(EmitSlice(s, tid, phase, name, s.slots[a]), {})
  {
    hide SlotsOk, DescOk, SlicesOk, CpusOk, RunningOk, Uuids, Proper, NoCpuSlice, NoRunningSlice, HasTop, PushOn, PopFrom;
    var p := Slice(phase, name, s.slots[a]);
    InUuids(s, {}, a);
    DescPut(s.log, p, s.slots, s.uid, {});
    if phase.Instant? {
      InstantQuiet(p, s.slots);
      QuietPut(s, p, {});
    } else {
      ProperElsewhere(phase, a, tid, name, s.slots, s.uid);
      CpusSkip(s.log, p, s.slots, s.prevCpu);
      RunningSkip(s.log, p, s.slots, s.prevRunning);
      if phase.Begin? {
        BeginSlices(s.log, s.slots, s.uid, s.ongoing, tid, a, name);
      } else if HasTop(s.ongoing[tid], name) {
        EndSlices(s.log, s.slots, s.uid, s.ongoing, tid, a, name);
      }
    }
  }

  lemma InstantQuiet(p: Packet, slots: map<Slot, Uid>)
    requires p.Slice? && p.phase.Instant?
    ensures NoThreadSlice(p, slots) && NoCpuSlice(p, slots) && NoRunningSlice(p)
  {
  }

  // ---------- the end of a thread ----------

  lemma HomeElsewhere(p: Packet, tid: Tid, slots: map<Slot, Uid>, uid: Uid)
    requires SlotsOk(slots, uid) && HomeOwn(p, tid, slots)
    ensures forall b, n :: b in slots && Owner(b).Some? && Owner(b) != Some(tid) ==> !On(p, {slots[b]}, n)
    ensures tid != KERNEL_TID ==> forall n :: !On(p, KernelTracks(slots), n)
    ensures NoCpuSlice(p, slots) && NoRunningSlice(p)
    ensures Shown(p, slots)
  {
    hide IsRunning, PlaceOf, RunName;
    var b: Slot;
    if tid == KERNEL_TID {
      b :| b in slots && b.KernelCpu? && slots[b] == p.track;
    } else {
      b := SlotFor(tid, PlaceOf(p.name));
    }
    KernelTracksAre(slots, uid, b);
    forall cpu: Cpu ensures p.name != RunName(cpu) { RunNames(cpu, cpu); }
  }

  lemma EndAllSlices(log: seq<Packet>, slots: map<Slot, Uid>, uid: Uid, ongoing: map<Tid, seq<Stack>>, tid: Tid)
    requires SlotsOk(slots, uid) && SlicesOk(log, slots, ongoing) && tid in ongoing
    ensures SlicesOk(log + Ends(All(ongoing[tid])), slots, ongoing[tid := []])
  {
    hide Level, Matching, All, KernelTracks, IsRunning, SlotsOk, HomeOwn, Owner, On, Home, Single, NamesOf;
    var ps, log', ongoing' := All(ongoing[tid]), log + Ends(All(ongoing[tid])), ongoing[tid := []];
    HeldBegun(tid, ongoing[tid], slots);
    NoneHeld();
    forall i | 0 <= i < |ps| ensures HomeOwn(ps[i], tid, slots) { AllTracks(tid, ongoing[tid], slots); }
    forall t, b, n | t in ongoing' && t != KERNEL_TID && b in slots && Tracked(b, t, n)
      ensures Balanced(log', ongoing'[t], {slots[b]}, n)
    {
      assert Balanced(log, ongoing[t], {slots[b]}, n);
      if t != tid {
        forall i | 0 <= i < |ps| ensures !On(ps[i], {slots[b]}, n) { HomeElsewhere(ps[i], tid, slots, uid); }
        MatchingNone(ps, {slots[b]}, n);
      }
      LevelEnds(log, ps, {slots[b]}, n);
      MatchingNone([], {slots[b]}, n);
    }
    var kernel := StacksOf(ongoing', KERNEL_TID);
    forall n ensures Balanced(log', kernel, KernelTracks(slots), n) {
      assert Balanced(log, StacksOf(ongoing, KERNEL_TID), KernelTracks(slots), n);
      if tid != KERNEL_TID {
        forall i | 0 <= i < |ps| ensures !On(ps[i], KernelTracks(slots), n) { HomeElsewhere(ps[i], tid, slots, uid); }
        MatchingNone(ps, KernelTracks(slots), n);
      }
      LevelEnds(log, ps, KernelTracks(slots), n);
      MatchingNone([], KernelTracks(slots), n);
    }
  }

  lemma NoneHeld()
    ensures All([]) == [] && Single([])
  {
  }

  lemma HeldBegun(tid: Tid, stacks: seq<Stack>, slots: map<Slot, Uid>)
    requires StacksOk(tid, stacks, slots)
    ensures forall i :: 0 <= i < |All(stacks)| ==> All(stacks)[i].Slice? && All(stacks)[i].phase.Begin?
  {
    AllTracks(tid, stacks, slots);
  }

  /** A slice on the track of some slot that has one. */
  ghost predicate Shown(p: Packet, slots: map<Slot, Uid>) {
    p.Slice? && exists b :: b in slots && !b.Flow? && slots[b] == p.track
  }

  lemma EndsShown(ps: seq<Packet>, slots: map<Slot, Uid>)
    requires forall i :: 0 <= i < |ps| ==> Shown(ps[i], slots)
    ensures forall i :: 0 <= i < |Ends(ps)| ==> Shown(Ends(ps)[i], slots)
  {
    forall i | 0 <= i < |Ends(ps)| ensures Shown(Ends(ps)[i], slots) {
      assert Shown(ps[i], slots);
      var b :| b in slots && !b.Flow? && slots[b] == ps[i].track;
      assert Ends(ps)[i] == Ended(ps[i]) && slots[b] == Ends(ps)[i].track;
    }
  }

  lemma {:induction false} DescPutAll(log: seq<Packet>, q: seq<Packet>, slots: map<Slot, Uid>, uid: Uid)
    requires DescOk(log, slots, uid, {})
    requires forall i :: 0 <= i < |q| ==> Shown(q[i], slots)
    ensures DescOk(log + q, slots, uid, {})
    decreases |q|
  {
    if q == [] {
      assert log + q == log;
    } else {
      var front, p := q[..|q| - 1], q[|q| - 1];
      DescPutAll(log, front, slots, uid);
      var b :| b in slots && !b.Flow? && slots[b] == p.track;
      assert log + q == (log + front) + [p];
      DescPut(log + front, p, slots, uid, {});
    }
  }

  lemma EndAllScans(log: seq<Packet>, ps: seq<Packet>, slots: map<Slot, Uid>, prevCpu: map<Cpu, Packet>, prevRunning: map<Cpu, Packet>)
    requires CpusOk(log, slots, prevCpu) && RunningOk(log, slots, prevRunning)
    requires forall i :: 0 <= i < |ps| ==> ps[i].Slice? && ps[i].phase.Begin? && NoCpuSlice(ps[i], slots) && NoRunningSlice(ps[i])
    ensures CpusOk(log + Ends(ps), slots, prevCpu) && RunningOk(log + Ends(ps), slots, prevRunning)
  {
    hide Scan, RunName;
    forall cpu | CpuTrack(cpu) in slots ensures Scan(log + Ends(ps), OnTrack(slots[CpuTrack(cpu)])) == SeatOf(prevCpu, cpu) {
      ScanSkips(log, Ends(ps), OnTrack(slots[CpuTrack(cpu)]));
    }
    forall cpu: Cpu ensures Scan(log + Ends(ps), WithName(RunName(cpu))) == SeatOf(prevRunning, cpu) {
      ScanSkips(log, Ends(ps), WithName(RunName(cpu)));
    }
  }

  lemma EndAllCore(s: State, tid: Tid)
    requires Core(s, {}) && tid in s.ongoing
    ensures Core(EndAll(s, tid), {})
  {
    hide SlotsOk, DescOk, CpusOk, RunningOk, HomeOwn, Home, NoCpuSlice, NoRunningSlice, Balanced, StacksOk, All;
    var ps := All(s.ongoing[tid]);
    EndAllSlices(s.log, s.slots, s.uid, s.ongoing, tid);
    HeldBegun(tid, s.ongoing[tid], s.slots);
    AllTracks(tid, s.ongoing[tid], s.slots);
    forall i | 0 <= i < |ps|
      ensures NoCpuSlice(ps[i], s.slots) && NoRunningSlice(ps[i]) && Shown(ps[i], s.slots)
    {
      HomeElsewhere(ps[i], tid, s.slots, s.uid);
    }
    EndsShown(ps, s.slots);
    DescPutAll(s.log, Ends(ps), s.slots, s.uid);
    EndAllScans(s.log, ps, s.slots, s.prevCpu, s.prevRunning);
  }

  // ---------- the thread that runs on a processor ----------

  lemma CloseRunning(log: seq<Packet>, slots: map<Slot, Uid>, m: map<Cpu, Packet>, cpu: Cpu)
    requires RunningOk(log, slots, m) && cpu in m
    ensures RunningOk(log + [Ended(m[cpu])], slots, m - {cpu})
  {
    hide Scan, RunName;
    forall c: Cpu ensures Scan(log + [Ended(m[cpu])], WithName(RunName(c))) == SeatOf(m - {cpu}, c) {
      ScanPut(log, Ended(m[cpu]), WithName(RunName(c)));
      RunNames(c, cpu);
      assert Scan(log, WithName(RunName(c))) == SeatOf(m, c);
    }
  }

  lemma OpenRunning(log: seq<Packet>, slots: map<Slot, Uid>, m: map<Cpu, Packet>, cpu: Cpu, p: Packet)
    requires RunningOk(log, slots, m) && cpu !in m && RunningSlice(p, cpu, slots)
    ensures RunningOk(log + [p], slots, m[cpu := p])
  {
    hide Scan, RunName;
    forall c: Cpu ensures Scan(log + [p], WithName(RunName(c))) == SeatOf(m[cpu := p], c) {
      ScanPut(log, p, WithName(RunName(c)));
      RunNames(c, cpu);
      assert Scan(log, WithName(RunName(c))) == SeatOf(m, c);
    }
  }

  /** A running slice concerns no one else. */
  lemma RunningElsewhere(p: Packet, cpu: Cpu, slots: map<Slot, Uid>, uid: Uid)
    requires SlotsOk(slots, uid) && RunningSlice(p, cpu, slots)
    ensures NoThreadSlice(p, slots) && NoCpuSlice(p, slots) && NoThreadSlice(Ended(p), slots) && NoCpuSlice(Ended(p), slots)
    ensures Shown(p, slots)
  {
    hide RunName, IsRunning;
    var tid: Tid :| SchedOf(tid) in slots && slots[SchedOf(tid)] == p.track;
    KernelTracksAre(slots, uid, SchedOf(tid));
    RunNames(cpu, cpu);
  }

  lemma RunningPut(s: State, p: Packet, cpu: Cpu, q: Packet)
    requires Core(s, {}) && RunningSlice(p, cpu, s.slots) && (q == p || q == Ended(p))
    ensures SlotsOk(s.slots, s.uid) && DescOk(s.log + [q], s.slots, s.uid, {})
    ensures SlicesOk(s.log + [q], s.slots, s.ongoing) && CpusOk(s.log + [q], s.slots, s.prevCpu)
  {
    hide SlicesOk, CpusOk, RunningOk, Uuids, RunName;
    RunningElsewhere(p, cpu, s.slots, s.uid);
    DescPutAll(s.log, [q], s.slots, s.uid);
    SlicesSkip(s.log, q, s.slots, s.ongoing);
    CpusSkip(s.log, q, s.slots, s.prevCpu);
  }

  lemma SwitchRunningCore(s: State, tid: Tid, cpu: Cpu)
    requires Core(s, {}) && SchedOf(tid) in s.slots
    ensures Core(SwitchRunning(s, tid, cpu), {})
  {
    hide SlotsOk, DescOk, SlicesOk, CpusOk, Scan, RunName;
    var m := s.prevRunning;
    var s1 := if cpu in m then Put(s, Ended(m[cpu])).(prevRunning := m - {cpu}) else s;
    if cpu in m {
      CloseRunning(s.log, s.slots, m, cpu);
      RunningPut(s, m[cpu], cpu, Ended(m[cpu]));
    }
    var p := Slice(Begin, RunName(cpu), s.slots[SchedOf(tid)]);
    assert RunningSlice(p, cpu, s.slots);
    OpenRunning(s1.log, s.slots, s1.prevRunning, cpu, p);
    RunningPut(s1, p, cpu, p);
    assert (m - {cpu})[cpu := p] == m[cpu := p];
  }

  lemma CloseCpu(log: seq<Packet>, slots: map<Slot, Uid>, uid: Uid, m: map<Cpu, Packet>, cpu: Cpu)
    requires SlotsOk(slots, uid) && CpusOk(log, slots, m) && cpu in m
    ensures CpusOk(log + [Ended(m[cpu])], slots, m - {cpu})
  {
    hide Scan, NoRunningSlice;
    assert CpuSlice(m[cpu], cpu, slots);
    forall c | CpuTrack(c) in slots
      ensures Scan(log + [Ended(m[cpu])], OnTrack(slots[CpuTrack(c)])) == SeatOf(m - {cpu}, c)
    {
      ScanPut(log, Ended(m[cpu]), OnTrack(slots[CpuTrack(c)]));
      assert Scan(log, OnTrack(slots[CpuTrack(c)])) == SeatOf(m, c);
    }
  }

  lemma OpenCpu(log: seq<Packet>, slots: map<Slot, Uid>, uid: Uid, m: map<Cpu, Packet>, cpu: Cpu, p: Packet)
    requires SlotsOk(slots, uid) && CpusOk(log, slots, m) && cpu !in m && CpuSlice(p, cpu, slots)
    ensures CpusOk(log + [p], slots, m[cpu := p])
  {
    hide Scan, NoRunningSlice;
    forall c | CpuTrack(c) in slots ensures Scan(log + [p], OnTrack(slots[CpuTrack(c)])) == SeatOf(m[cpu := p], c) {
      ScanPut(log, p, OnTrack(slots[CpuTrack(c)]));
      assert Scan(log, OnTrack(slots[CpuTrack(c)])) == SeatOf(m, c);
    }
  }

  lemma CpuElsewhere(p: Packet, cpu: Cpu, slots: map<Slot, Uid>, uid: Uid)
    requires SlotsOk(slots, uid) && CpuSlice(p, cpu, slots)
    ensures NoThreadSlice(p, slots) && NoThreadSlice(Ended(p), slots) && NoRunningSlice(Ended(p))
    ensures Shown(p, slots)
  {
    hide RunName, IsRunning;
    KernelTracksAre(slots, uid, CpuTrack(cpu));
  }

  lemma CpuPut(s: State, p: Packet, cpu: Cpu, q: Packet)
    requires Core(s, {}) && CpuSlice(p, cpu, s.slots) && (q == p || q == Ended(p))
    ensures SlotsOk(s.slots, s.uid) && DescOk(s.log + [q], s.slots, s.uid, {})
    ensures SlicesOk(s.log + [q], s.slots, s.ongoing) && RunningOk(s.log + [q], s.slots, s.prevRunning)
  {
    hide SlicesOk, CpusOk, RunningOk, Uuids, NoRunningSlice;
    CpuElsewhere(p, cpu, s.slots, s.uid);
    DescPutAll(s.log, [q], s.slots, s.uid);
    SlicesSkip(s.log, q, s.slots, s.ongoing);
    RunningSkip(s.log, q, s.slots, s.prevRunning);
  }

  /** Show another thread on a processor's track. */
  lemma ShowOnCpu(s: State, cpu: Cpu, name: string, tid: Tid)
    requires Core(s, {}) && CpuTrack(cpu) in s.slots
    ensures var s1 := if cpu in s.prevCpu then Put(s, Ended(s.prevCpu[cpu])) else s;
      var p := Slice(Begin, ThreadName(name, tid), s.slots[CpuTrack(cpu)]);
      Core(Put(s1, p).(prevCpu := s1.prevCpu[cpu := p]), {})
  {
    hide SlotsOk, DescOk, SlicesOk, RunningOk, Scan, ThreadName;
    var m := s.prevCpu;
    var s1 := if cpu in m then Put(s, Ended(m[cpu])).(prevCpu := m - {cpu}) else s;
    if cpu in m {
      CloseCpu(s.log, s.slots, s.uid, m, cpu);
      CpuPut(s, m[cpu], cpu, Ended(m[cpu]));
    }
    var p := Slice(Begin, ThreadName(name, tid), s.slots[CpuTrack(cpu)]);
    forall c: Cpu ensures p.name != RunName(c) { RunNotThread(c, name, tid); }
    OpenCpu(s1.log, s.slots, s.uid, s1.prevCpu, cpu, p);
    CpuPut(s1, p, cpu, p);
    assert (m - {cpu})[cpu := p] == m[cpu := p];
  }

  // ---------- what the steps leave alone ----------

  lemma PutFields(s: State, p: Packet)
    ensures Put(s, p) == s.(log := s.log + [p])
  {
  }

  lemma EmitSliceRest(s: State, tid: Tid, phase: Phase, name: string, track: Uid)
    ensures var s' := EmitSlice(s, tid, phase, name, track); s' == s.(log := s'.log, ongoing := s'.ongoing)
  {
    hide PushOn, PopFrom, HasTop, StacksOf, Put;
    PutFields(s, Slice(phase, name, track));
  }

  lemma SwitchRunningRest(s: State, tid: Tid, cpu: Cpu)
    ensures var s' := SwitchRunning(s, tid, cpu); s' == s.(log := s'.log, prevRunning := s'.prevRunning)
  {
    hide RunName, Ended, UidOf;
  }
}
