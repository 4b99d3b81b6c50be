/** The guarantees of the converter, for every sequence of events and every prefix of its output. */
module EmitterRuns {
  import opened Basics
  import opened EmitterNames
  import opened EmitterSpec
  import opened EmitterLog
  import opened EmitterCore
  import opened EmitterSlices
  import opened EmitterSafety

  // ---------- tracks ----------

  /** Every track is described before it is used; a track is described once, or again as the same process;
      different purposes have different tracks; and no number below the first is ever used, so no look-up
      of a track has failed. */
  lemma TracksDescribed(syscalls: seq<string>, evs: seq<Ev>)
    ensures var s := Run(syscalls, evs);
      && Ordered(s.log) && Distinct(s.log)
      && (forall u :: u in Uuids(s.log) ==> u >= FIRST_UID)
      && (forall a, b :: a in s.slots && b in s.slots && s.slots[a] == s.slots[b] ==> a == b)
      && (forall a :: a in s.slots && !a.Flow? ==> s.slots[a] in Uuids(s.log))
  {
    hide Run, Shape, SlicesOk, CpusOk, RunningOk, Uuids, Ordered, Distinct, Fits;
    RunInv(syscalls, evs);
  }

  // ---------- slices of a thread ----------

  lemma {:induction false} MatchingEvery(ps: seq<Packet>, tracks: set<Uid>, name: string)
    requires forall i :: 0 <= i < |ps| ==> On(ps[i], tracks, name)
    ensures Matching(ps, tracks, name) == |ps|
    decreases |ps|
  {
    if ps != [] { MatchingEvery(ps[..|ps| - 1], tracks, name); }
  }

  lemma {:induction false} OfNameFrom(stacks: seq<Stack>, name: string)
    ensures OfName(stacks, name) == [] || exists i :: 0 <= i < |stacks| && stacks[i].name == name && OfName(stacks, name) == stacks[i].packets
    decreases |stacks|
  {
    if stacks != [] && stacks[0].name != name {
      OfNameFrom(stacks[1..], name);
      if OfName(stacks[1..], name) != [] {
        var i :| 0 <= i < |stacks[1..]| && stacks[1..][i].name == name && OfName(stacks, name) == stacks[1..][i].packets;
        assert stacks[i + 1] == stacks[1..][i];
      }
    }
  }

  /** The slices held under a name count for a group of tracks that has them all, or has none. */
  lemma MatchingIsHeld(stacks: seq<Stack>, tid: Tid, slots: map<Slot, Uid>, tracks: set<Uid>, name: string, all: bool)
    requires Single(stacks) && StacksOk(tid, stacks, slots)
    requires forall p: Packet :: Home(p, tid, name, slots) ==> (p.track in tracks <==> all)
    ensures Matching(All(stacks), tracks, name) == if all then |OfName(stacks, name)| else 0
  {
    hide IsRunning, PlaceOf, Matching, All, KernelTracks;
    var ps := OfName(stacks, name);
    AllOfName(stacks, tracks, name);
    OfNameFrom(stacks, name);
    forall j | 0 <= j < |ps| ensures On(ps[j], tracks, name) <==> all { assert Home(ps[j], tid, name, slots); }
    if all { MatchingEvery(ps, tracks, name); } else { MatchingNone(ps, tracks, name); }
  }

  /** A thread's held slices of a name are all on the track its name tells. */
  lemma HeldAtHome(tid: Tid, stacks: seq<Stack>, slots: map<Slot, Uid>, uid: Uid, a: Slot, name: string)
    requires SlotsOk(slots, uid) && StacksOk(tid, stacks, slots) && Single(stacks) && tid != KERNEL_TID && a in slots
    ensures Matching(All(stacks), {slots[a]}, name) == if a == SlotFor(tid, PlaceOf(name)) then |OfName(stacks, name)| else 0
  {
    hide IsRunning, PlaceOf, Matching, All, StacksOk, OfName, Single;
    MatchingIsHeld(stacks, tid, slots, {slots[a]}, name, a == SlotFor(tid, PlaceOf(name)));
  }

  /** On each track of a thread, the slices of a name that were begun and not ended are exactly those on the
      thread's stack, all of them on the one track that the name tells; and at no point of the output has a
      slice ended on a track more often than it was begun there. */
  lemma ThreadSlices(syscalls: seq<string>, evs: seq<Ev>, tid: Tid, a: Slot, name: string)
    requires tid in Run(syscalls, evs).emitted && a in Run(syscalls, evs).slots
    requires Tracked(a, tid, name)
    ensures var s := Run(syscalls, evs); var tracks := {s.slots[a]};
      && Count(s.log, true, tracks, name) - Count(s.log, false, tracks, name) ==
         (if a == SlotFor(tid, PlaceOf(name)) then |OfName(StacksOf(s.ongoing, tid), name)| else 0)
      && forall k :: 0 <= k <= |s.log| ==> Count(s.log[..k], true, tracks, name) >= Count(s.log[..k], false, tracks, name)
  {
    hide Run, DescOk, CpusOk, RunningOk, SlotsOk, Owner, IsRunning, PlaceOf, Matching, All, Level, StacksOk, OfName, Count;
    RunInv(syscalls, evs);
    var s := Run(syscalls, evs);
    assert Balanced(s.log, s.ongoing[tid], {s.slots[a]}, name);
    HeldAtHome(tid, s.ongoing[tid], s.slots, s.uid, a, name);
    LevelMeaning(s.log, {s.slots[a]}, name);
  }

  /** The same for the kernel, whose slices share one stack and are counted over all its tracks together. */
  lemma KernelSlices(syscalls: seq<string>, evs: seq<Ev>, name: string)
    ensures var s := Run(syscalls, evs); var tracks := KernelTracks(s.slots);
      && Count(s.log, true, tracks, name) - Count(s.log, false, tracks, name) == |OfName(StacksOf(s.ongoing, KERNEL_TID), name)|
      && forall k :: 0 <= k <= |s.log| ==> Count(s.log[..k], true, tracks, name) >= Count(s.log[..k], false, tracks, name)
  {
    hide Run, DescOk, CpusOk, RunningOk, SlotsOk, IsRunning, PlaceOf, Matching, All, Level, OfName, Count, KernelTracks;
    RunInv(syscalls, evs);
    var s := Run(syscalls, evs);
    var stacks := StacksOf(s.ongoing, KERNEL_TID);
    assert StacksOk(KERNEL_TID, stacks, s.slots) && Single(stacks);
    assert Balanced(s.log, stacks, KernelTracks(s.slots), name);
    MatchingIsHeld(stacks, KERNEL_TID, s.slots, KernelTracks(s.slots), name, true);
    LevelMeaning(s.log, KernelTracks(s.slots), name);
  }

  /** After the end of a thread nothing it began is left open, on any of its tracks. */
  lemma NothingLeftOpen(syscalls: seq<string>, evs: seq<Ev>, tid: Tid, cpu: Cpu, a: Slot, name: string)
    requires Run(syscalls, evs).ok && tid != KERNEL_TID && Tracked(a, tid, name)
    requires a in Run(syscalls, evs + [Ev(tid, cpu, ThreadEnd)]).slots
    ensures var s := Run(syscalls, evs + [Ev(tid, cpu, ThreadEnd)]);
      s.ok && Count(s.log, true, {s.slots[a]}, name) == Count(s.log, false, {s.slots[a]}, name)
  {
    hide Run, Count, PlaceOf, IsRunning, OfName;
    var evs' := evs + [Ev(tid, cpu, ThreadEnd)];
    RunSnoc(syscalls, evs, Ev(tid, cpu, ThreadEnd));
    AfterThreadEnd(Run(syscalls, evs), syscalls, tid, cpu);
    RunInv(syscalls, evs');
    OwnedByEmitted(Run(syscalls, evs'), a, tid);
    ThreadSlices(syscalls, evs', tid, a, name);
    NothingOngoing(name);
  }

  lemma NothingOngoing(name: string)
    ensures OfName([], name) == []
  {
  }

  lemma RunSnoc(syscalls: seq<string>, evs: seq<Ev>, ev: Ev)
    ensures Run(syscalls, evs + [ev]) == Emit(Run(syscalls, evs), syscalls, ev)
  {
    hide Emit;
    assert (evs + [ev])[..|evs|] == evs;
  }

  lemma OwnedByEmitted(s: State, a: Slot, tid: Tid)
    requires Inv(s) && a in s.slots && Owner(a) == Some(tid)
    ensures tid in s.emitted
  {
    hide Core;
  }

  lemma NeedTrackFields(s: State, a: Slot, parent: Slot, name: string)
    ensures var s' := NeedTrack(s, a, parent, name); s'.ok == s.ok && s'.ongoing == s.ongoing
  {
    hide UidOf;
  }

  lemma InstantFields(s: State, tid: Tid, cpu: Cpu, name: string)
    ensures var s' := EmitAt(s, tid, cpu, Instant, name, OnEvents); s'.ok == s.ok && s'.ongoing == s.ongoing
  {
    hide Dec, PushOn, PopFrom, HasTop, NeedTrack, UidOf;
    NeedTrackFields(s, KernelCpu(cpu), Kernel, "CPU " + Dec(cpu));
  }

  lemma AfterThreadEnd(s: State, syscalls: seq<string>, tid: Tid, cpu: Cpu)
    requires s.ok
    ensures var s' := Emit(s, syscalls, Ev(tid, cpu, ThreadEnd)); s'.ok && StacksOf(s'.ongoing, tid) == []
  {
    hide Start, Introduce, EmitAt, All, Ends;
    StartOk(s);
    var s1 := if s.started then s else Start(s);
    IntroduceOk(s1, tid);
    var s2 := if tid != KERNEL_TID && tid !in s1.emitted then Introduce(s1, tid) else s1;
    InstantFields(EndAll(s2, tid), tid, cpu, "thread_end");
  }

  lemma StartOk(s: State)
    ensures Start(s).ok == s.ok
  {
  }

  lemma IntroduceOk(s: State, tid: Tid)
    ensures Introduce(s, tid).ok == s.ok
  {
    hide KnownThread, UidOf;
  }

  // ---------- processors ----------

  lemma {:induction false} NeverBroken(log: seq<Packet>, sel: Sel, k: nat)
    requires !Scan(log, sel).Broken? && k <= |log|
    ensures !Scan(log[..k], sel).Broken?
    decreases |log|
  {
    if k == |log| {
      assert log[..k] == log;
    } else {
      var front := log[..|log| - 1];
      assert front[..k] == log[..k];
      if log[|log| - 1].Slice? { BrokenStays(log[|log| - 1]); }
      NeverBroken(front, sel, k);
    }
  }

  /** On a processor's track slices begin and end in turns, each end with the name of its begin. */
  lemma CpuTurns(syscalls: seq<string>, evs: seq<Ev>, cpu: Cpu, k: nat)
    requires CpuTrack(cpu) in Run(syscalls, evs).slots && k <= |Run(syscalls, evs).log|
    ensures var s := Run(syscalls, evs); TakeTurns(Picked(s.log[..k], OnTrack(s.slots[CpuTrack(cpu)])))
    ensures var s := Run(syscalls, evs);
      SeatAfter(Picked(s.log, OnTrack(s.slots[CpuTrack(cpu)]))) == SeatOf(s.prevCpu, cpu)
  {
    hide Run, Scan, TakeTurns, SeatAfter, Picked, DescOk, SlicesOk, RunningOk, SlotsOk, Shape;
    RunInv(syscalls, evs);
    var s := Run(syscalls, evs);
    var sel := OnTrack(s.slots[CpuTrack(cpu)]);
    NeverBroken(s.log, sel, k);
    ScanMeaning(s.log[..k], sel);
    ScanMeaning(s.log, sel);
  }

  /** A processor runs at most one thread at a time, and the running slice ends on the track of the thread
      that it began on. */
  lemma RunningTurns(syscalls: seq<string>, evs: seq<Ev>, cpu: Cpu, k: nat)
    requires k <= |Run(syscalls, evs).log|
    ensures var s := Run(syscalls, evs); TakeTurns(Picked(s.log[..k], WithName(RunName(cpu))))
    ensures var s := Run(syscalls, evs);
      SeatAfter(Picked(s.log, WithName(RunName(cpu)))) == SeatOf(s.prevRunning, cpu)
  {
    hide Run, Scan, TakeTurns, SeatAfter, Picked, RunName, DescOk, SlicesOk, CpusOk, SlotsOk, Shape;
    RunInv(syscalls, evs);
    var s := Run(syscalls, evs);
    var sel := WithName(RunName(cpu));
    assert Scan(s.log, sel) == SeatOf(s.prevRunning, cpu);
    NeverBroken(s.log, sel, k);
    ScanMeaning(s.log[..k], sel);
    ScanMeaning(s.log, sel);
  }

  // ---------- the kernel's tracks are not paired one by one ----------

  /** An interrupt that begins on one processor and ends on another ends on a track where it never began. */
  lemma KernelTracksUnpaired(syscalls: seq<string>)
    ensures var s := Run(syscalls, [Ev(KERNEL_TID, 0, Interrupt(true, 5)), Ev(KERNEL_TID, 1, Interrupt(false, 5))]);
      && KernelCpu(1) in s.slots
      && Count(s.log, true, {s.slots[KernelCpu(1)]}, IRQ + Dec(5)) == 0
      && Count(s.log, false, {s.slots[KernelCpu(1)]}, IRQ + Dec(5)) == 1
  {
    hide Dec, Count, Emit;
    var e0, e1 := Ev(KERNEL_TID, 0, Interrupt(true, 5)), Ev(KERNEL_TID, 1, Interrupt(false, 5));
    var name := IRQ + Dec(5);
    assert [e0, e1] == [e0] + [e1] && [e0] == [] + [e0];
    RunSnoc(syscalls, [], e0);
    RunSnoc(syscalls, [e0], e1);
    FirstInterrupt(syscalls);
    SecondInterrupt(syscalls, Emit(INITIAL, syscalls, e0), name);
    CountsOf(name, Dec(0), Dec(1));
  }

  lemma SecondInterrupt(syscalls: seq<string>, s: State, name: string)
    requires s.ok && s.started && s.uid == 45 && Kernel in s.slots && s.slots[Kernel] == 43 && KernelCpu(1) !in s.slots
    requires name == IRQ + Dec(5) && HasTop(StacksOf(s.ongoing, KERNEL_TID), name)
    ensures var s' := Emit(s, syscalls, Ev(KERNEL_TID, 1, Interrupt(false, 5)));
      && KernelCpu(1) in s'.slots && s'.slots[KernelCpu(1)] == 45
      && s'.log == s.log + [Descriptor(45, Some(43), Named("CPU " + Dec(1)))] + [Slice(End, name, 45)]
  {
    hide Dec, HasTop, PopFrom;
  }

  lemma FirstInterrupt(syscalls: seq<string>)
    ensures var s := Emit(INITIAL, syscalls, Ev(KERNEL_TID, 0, Interrupt(true, 5)));
      var name := IRQ + Dec(5);
      && s.ok && s.started && s.uid == 45 && s.slots == map[Cpus := 42, Kernel := 43, KernelCpu(0) := 44]
      && s.ongoing == map[KERNEL_TID := [Stack(name, [Slice(Begin, name, 44)])]]
      && s.log == [Descriptor(42, None, Named("CPUs")), Descriptor(43, None, Named("KERNEL"))]
           + [Descriptor(44, Some(43), Named("CPU " + Dec(0)))] + [Slice(Begin, name, 44)]
  {
    hide Dec;
    assert Start(INITIAL).log == [Descriptor(42, None, Named("CPUs")), Descriptor(43, None, Named("KERNEL"))];
  }

  lemma CountsOf(name: string, c0: string, c1: string)
    ensures var log := [Descriptor(42, None, Named("CPUs")), Descriptor(43, None, Named("KERNEL"))]
      + [Descriptor(44, Some(43), Named("CPU " + c0))] + [Slice(Begin, name, 44)]
      + [Descriptor(45, Some(43), Named("CPU " + c1))] + [Slice(End, name, 45)];
      Count(log, true, {45}, name) == 0 && Count(log, false, {45}, name) == 1
  {
    var l2 := [Descriptor(42, None, Named("CPUs")), Descriptor(43, None, Named("KERNEL"))];
    var l3 := l2 + [Descriptor(44, Some(43), Named("CPU " + c0))];
    var l4 := l3 + [Slice(Begin, name, 44)];
    var l5 := l4 + [Descriptor(45, Some(43), Named("CPU " + c1))];
    var l6 := l5 + [Slice(End, name, 45)];
    forall b ensures Count(l2, b, {45}, name) == 0 {
      assert l2[..1] == [Descriptor(42, None, Named("CPUs"))];
      assert l2[..1][..0] == [];
      assert Count(l2[..1], b, {45}, name) == 0;
    }
    forall b ensures Count(l3, b, {45}, name) == 0 { assert l3[..2] == l2; }
    forall b ensures Count(l4, b, {45}, name) == 0 { assert l4[..3] == l3; }
    forall b ensures Count(l5, b, {45}, name) == 0 { assert l5[..4] == l4; }
    assert l6[..5] == l5;
  }
}
