/** When the slices of a single kernel track pair up, told from the events alone. */
module EmitterKernel {
  import opened Basics
  import opened EmitterNames
  import opened EmitterSpec
  import opened EmitterLog
  import opened EmitterCore
  import opened EmitterSlices
  import opened EmitterSafety
  import opened EmitterRuns
  import opened EmitterEvents

  // ---------- the condition on the events ----------

  /** For one name and one processor: where the slices the kernel holds were begun, the last of them last;
      how many are open on the processor; and whether one has ended there that was not open there. */
  datatype Ledger = Ledger(held: seq<Cpu>, open: int, stray: bool)

  function Times(held: seq<Cpu>, cpu: Cpu): nat {
    if held == [] then 0 else Times(held[..|held| - 1], cpu) + if held[|held| - 1] == cpu then 1 else 0
  }

  /** An end takes the last slice held, wherever that was begun, and is stray if none is open on its own
      processor. */
  function Noted(l: Ledger, begin: bool, at: Cpu, n: string, cpu: Cpu, name: string): Ledger {
    if n != name then l
    else if begin then Ledger(l.held + [at], if at == cpu then l.open + 1 else l.open, l.stray)
    else if l.held == [] then l
    else
      Ledger(l.held[..|l.held| - 1], if at == cpu then l.open - 1 else l.open, l.stray || (at == cpu && l.open == 0))
  }

  /** The end of the kernel's own thread ends every slice held, each where it was begun. */
  function Note(l: Ledger, syscalls: seq<string>, lockNames: map<Lid, string>, ev: Ev, cpu: Cpu, name: string): Ledger {
    if ev.tid != KERNEL_TID then l
    else if ev.body.ThreadEnd? then
      Ledger([], l.open - Times(l.held, cpu), l.stray || l.open < Times(l.held, cpu))
    else
      match SliceOf(syscalls, lockNames, ev)
      case None => l
      case Some((begin, n)) => Noted(l, begin, ev.cpu, n, cpu, name)
  }

  /** The ledger after some events; those behind an exception are not seen. */
  function LedgerOf(syscalls: seq<string>, evs: seq<Ev>, cpu: Cpu, name: string): Ledger
    decreases |evs|
  {
    if evs == [] then Ledger([], 0, false)
    else
      var front := evs[..|evs| - 1];
      var before := LedgerOf(syscalls, front, cpu, name);
      if Stopped(syscalls, front) then before
      else Note(before, syscalls, KnownAfter(front).lockNames, evs[|evs| - 1], cpu, name)
  }

  predicate StrayEnd(syscalls: seq<string>, evs: seq<Ev>, cpu: Cpu, name: string) {
    LedgerOf(syscalls, evs, cpu, name).stray
  }

  /** The track of the kernel on a processor, if it has one. */
  function TrackOf(slots: map<Slot, Uid>, cpu: Cpu): set<Uid> {
    if KernelCpu(cpu) in slots then {slots[KernelCpu(cpu)]} else {}
  }

  /** In no prefix of the log have more slices ended than begun. */
  ghost predicate Paired(log: seq<Packet>, tracks: set<Uid>, name: string) {
    forall k :: 0 <= k <= |log| ==> Count(log[..k], true, tracks, name) >= Count(log[..k], false, tracks, name)
  }

  lemma {:induction false} LevelIsPaired(log: seq<Packet>, tracks: set<Uid>, name: string)
    ensures Level(log, tracks, name) >= 0 <==> Paired(log, tracks, name)
    decreases |log|
  {
    if Level(log, tracks, name) >= 0 {
      LevelMeaning(log, tracks, name);
    } else {
      var front := log[..|log| - 1];
      LevelIsPaired(front, tracks, name);
      if Level(front, tracks, name) >= 0 {
        LevelMeaning(front, tracks, name);
        assert log[..|log|] == log;
      } else {
        var k :| 0 <= k <= |front| && Count(front[..k], true, tracks, name) < Count(front[..k], false, tracks, name);
        assert log[..k] == front[..k];
      }
    }
  }

  // ---------- the kernel's stack of one name ----------

  /** The slices of a name that are held, and on which processors. */
  ghost predicate HeldOn(ps: seq<Packet>, held: seq<Cpu>, name: string, slots: map<Slot, Uid>) {
    |ps| == |held| &&
    forall i :: 0 <= i < |held| ==> KernelCpu(held[i]) in slots && ps[i] == Slice(Begin, name, slots[KernelCpu(held[i])])
  }

  lemma {:induction false} MatchingTimes(ps: seq<Packet>, held: seq<Cpu>, name: string, slots: map<Slot, Uid>, uid: Uid, cpu: Cpu)
    requires SlotsOk(slots, uid) && HeldOn(ps, held, name, slots)
    ensures Matching(ps, TrackOf(slots, cpu), name) == Times(held, cpu)
    decreases |ps|
  {
    if ps != [] {
      var n := |ps| - 1;
      MatchingTimes(ps[..n], held[..n], name, slots, uid, cpu);
      assert On(ps[n], TrackOf(slots, cpu), name) <==> held[n] == cpu;
    }
  }

  /** Ending more slices than are open turns the level negative. */
  lemma {:induction false} LevelOverdrawn(log: seq<Packet>, ps: seq<Packet>, tracks: set<Uid>, name: string)
    requires forall i :: 0 <= i < |ps| ==> ps[i].Slice? && ps[i].phase.Begin?
    requires Level(log, tracks, name) < Matching(ps, tracks, name)
    ensures Level(log + Ends(ps), tracks, name) < 0
    decreases |ps|
  {
    if ps == [] {
      assert log + Ends(ps) == log;
    } else {
      var front, p := ps[..|ps| - 1], ps[|ps| - 1];
      assert log + Ends(ps) == (log + Ends(front)) + [Ended(p)];
      LevelPut(log + Ends(front), Ended(p), tracks, name);
      if Level(log, tracks, name) < Matching(front, tracks, name) {
        LevelOverdrawn(log, front, tracks, name);
      } else {
        LevelEnds(log, front, tracks, name);
      }
    }
  }

  // ---------- steps that leave the kernel's tracks alone ----------

  ghost predicate OffKernel(p: Packet, slots: map<Slot, Uid>) {
    p.Slice? && !p.phase.Instant? ==> exists b :: b in slots && !b.KernelCpu? && slots[b] == p.track
  }

  ghost predicate Elsewhere(s: State, s': State) {
    && s.log <= s'.log && s.uid <= s'.uid
    && (forall i :: |s.log| <= i < |s'.log| ==> OffKernel(s'.log[i], s'.slots))
    && (forall a :: a in s.slots ==> a in s'.slots && s'.slots[a] == s.slots[a])
    && (forall a :: a in s'.slots && a !in s.slots ==> s'.slots[a] >= s.uid)
    && StacksOf(s'.ongoing, KERNEL_TID) == StacksOf(s.ongoing, KERNEL_TID)
  }

  lemma Chain(s: State, s1: State, s2: State)
    requires Elsewhere(s, s1) && Elsewhere(s1, s2)
    ensures Elsewhere(s, s2)
  {
    forall i | |s.log| <= i < |s2.log| ensures OffKernel(s2.log[i], s2.slots) {
      if i < |s1.log| {
        assert s2.log[i] == s1.log[i] && OffKernel(s1.log[i], s1.slots);
      }
    }
  }

  lemma {:induction false} LevelSkips(log: seq<Packet>, log': seq<Packet>, tracks: set<Uid>, name: string)
    requires log <= log' && forall i :: |log| <= i < |log'| ==> !On(log'[i], tracks, name)
    ensures Level(log', tracks, name) == Level(log, tracks, name)
    decreases |log'|
  {
    if |log'| == |log| {
      assert log' == log;
    } else {
      LevelSkips(log, log'[..|log'| - 1], tracks, name);
    }
  }

  lemma LevelElsewhere(s: State, s': State, cpu: Cpu, name: string)
    requires Inv(s) && Inv(s') && Elsewhere(s, s')
    ensures Level(s'.log, TrackOf(s'.slots, cpu), name) == Level(s.log, TrackOf(s.slots, cpu), name)
  {
    hide Level, Uuids, SlicesOk, CpusOk, RunningOk, Shape, Distinct, Fits;
    var t, t' := TrackOf(s.slots, cpu), TrackOf(s'.slots, cpu);
    UsedBelow(s.log, s.uid);
    LevelSame(s.log, t, t', name);
    forall i | |s.log| <= i < |s'.log| ensures !On(s'.log[i], t', name) {
      assert OffKernel(s'.log[i], s'.slots);
    }
    LevelSkips(s.log, s'.log, t', name);
  }

  lemma Stays(s: State, s': State)
    requires s' == s.(started := s'.started, ok := s'.ok, threads := s'.threads, emitted := s'.emitted,
                      lockNames := s'.lockNames, prevCpu := s'.prevCpu, prevRunning := s'.prevRunning, ongoing := s'.ongoing)
    requires StacksOf(s'.ongoing, KERNEL_TID) == StacksOf(s.ongoing, KERNEL_TID)
    ensures Elsewhere(s, s')
  {
  }

  lemma AllocElsewhere(s: State, a: Slot)
    requires a !in s.slots
    ensures Elsewhere(s, Alloc(s, a))
  {
  }

  lemma PutElsewhere(s: State, p: Packet)
    requires OffKernel(p, s.slots)
    ensures Elsewhere(s, Put(s, p))
  {
  }

  lemma DescribeElsewhere(s: State, a: Slot, parent: Option<Slot>, what: Label)
    ensures Elsewhere(s, Describe(s, a, parent, what))
  {
    hide UidOf;
  }

  lemma ChangePrioElsewhere(s: State, tid: Tid, prio: int)
    ensures Elsewhere(s, ChangePrio(s, tid, prio))
  {
    hide UidOf;
  }

  lemma StartElsewhere(s: State)
    requires Inv(s) && !s.started
    ensures Elsewhere(s, Start(s))
  {
    hide Elsewhere, Describe, Alloc, Core, StacksOf;
    NoSlots(s);
    var s1 := Alloc(s, Cpus);
    AllocFields(s, Cpus);
    AllocElsewhere(s, Cpus);
    var s2 := Describe(s1, Cpus, None, Named("CPUs"));
    DescribeElsewhere(s1, Cpus, None, Named("CPUs"));
    DescribeFields(s1, Cpus, None, Named("CPUs"));
    Chain(s, s1, s2);
    var s3 := Alloc(s2, Kernel);
    AllocFields(s2, Kernel);
    AllocElsewhere(s2, Kernel);
    Chain(s, s2, s3);
    var s4 := Describe(s3, Kernel, None, Named("KERNEL"));
    DescribeElsewhere(s3, Kernel, None, Named("KERNEL"));
    DescribeFields(s3, Kernel, None, Named("KERNEL"));
    Chain(s, s3, s4);
    NoStacks(s4.ongoing);
    Stays(s4, Start(s));
    Chain(s, s4, Start(s));
  }

  lemma NoSlots(s: State)
    requires Inv(s) && !s.started
    ensures s.slots == map[] && s.ongoing == map[]
  {
    hide Core;
  }

  lemma NoStacks(ongoing: map<Tid, seq<Stack>>)
    requires KERNEL_TID !in ongoing
    ensures StacksOf(ongoing[KERNEL_TID := []], KERNEL_TID) == StacksOf(ongoing, KERNEL_TID)
  {
  }

  lemma DescribeFields(s: State, a: Slot, parent: Option<Slot>, what: Label)
    ensures var s' := Describe(s, a, parent, what); s' == s.(log := s'.log)
  {
  }

  lemma AllocThreadElsewhere(s: State, tid: Tid)
    requires Root(tid) !in s.slots && SchedOf(tid) !in s.slots && EventsOf(tid) !in s.slots && PrioOf(tid) !in s.slots
    requires tid != KERNEL_TID
    ensures Elsewhere(s, AllocThread(s, tid))
  {
    hide Elsewhere, Alloc;
    var s0 := s.(ongoing := s.ongoing[tid := []]);
    Stays(s, s0);
    var s1 := Alloc(s0, Root(tid));
    AllocFields(s0, Root(tid));
    AllocElsewhere(s0, Root(tid));
    Chain(s, s0, s1);
    var s2 := Alloc(s1, SchedOf(tid));
    AllocFields(s1, SchedOf(tid));
    AllocElsewhere(s1, SchedOf(tid));
    Chain(s, s1, s2);
    var s3 := Alloc(s2, EventsOf(tid));
    AllocFields(s2, EventsOf(tid));
    AllocElsewhere(s2, EventsOf(tid));
    Chain(s, s2, s3);
    AllocElsewhere(s3, PrioOf(tid));
    Chain(s, s3, Alloc(s3, PrioOf(tid)));
  }

  lemma AddProcessElsewhere(s: State, t: Thread)
    ensures Elsewhere(s, AddProcess(s, t))
  {
    hide Elsewhere, Describe, Alloc;
    var a := Proc(t.pid);
    if a in s.slots {
      Stays(s, s);
    } else {
      AllocElsewhere(s, a);
      DescribeElsewhere(Alloc(s, a), a, None, Process(t.pid, "'" + t.name + "'"));
      Chain(s, Alloc(s, a), AddProcess(s, t));
    }
  }

  lemma DescribeThreadElsewhere(s: State, tid: Tid, pid: Pid)
    ensures Elsewhere(s, DescribeThread(s, tid, pid))
  {
    hide Elsewhere, Describe;
    var s1 := Describe(s, Root(tid), None, ThreadOf(pid, tid));
    DescribeElsewhere(s, Root(tid), None, ThreadOf(pid, tid));
    var s2 := Describe(s1, SchedOf(tid), Some(Root(tid)), Named("sched"));
    DescribeElsewhere(s1, SchedOf(tid), Some(Root(tid)), Named("sched"));
    Chain(s, s1, s2);
    var s3 := Describe(s2, EventsOf(tid), Some(Root(tid)), Named("events"));
    DescribeElsewhere(s2, EventsOf(tid), Some(Root(tid)), Named("events"));
    Chain(s, s2, s3);
    DescribeElsewhere(s3, PrioOf(tid), Some(Root(tid)), Named("prio"));
    Chain(s, s3, Describe(s3, PrioOf(tid), Some(Root(tid)), Named("prio")));
  }

  lemma IntroduceElsewhere(s: State, tid: Tid)
    requires Inv(s) && tid !in s.emitted && tid != KERNEL_TID
    ensures Elsewhere(s, Introduce(s, tid))
  {
    hide Core, Shape, KnownThread, AddProcess, DescribeThread, AllocThread, ChangePrio, Elsewhere;
    assert Shape(s);
    NotYet(s, tid);
    var t := KnownThread(s.threads, tid);
    var s1 := AllocThread(s, tid);
    AllocThreadElsewhere(s, tid);
    var s2 := AddProcess(s1, t);
    AddProcessElsewhere(s1, t);
    Chain(s, s1, s2);
    var s3 := DescribeThread(s2, tid, t.pid);
    DescribeThreadElsewhere(s2, tid, t.pid);
    Chain(s, s2, s3);
    var s4 := ChangePrio(s3, tid, t.prio);
    ChangePrioElsewhere(s3, tid, t.prio);
    Chain(s, s3, s4);
    Stays(s4, Introduce(s, tid));
    Chain(s, s4, Introduce(s, tid));
  }

  lemma NeedTrackElsewhere(s: State, a: Slot, parent: Slot, name: string)
    ensures Elsewhere(s, NeedTrack(s, a, parent, name))
  {
    hide Elsewhere, Describe, Alloc;
    if a in s.slots {
      Stays(s, s);
    } else {
      AllocElsewhere(s, a);
      DescribeElsewhere(Alloc(s, a), a, Some(parent), Named(name));
      Chain(s, Alloc(s, a), NeedTrack(s, a, parent, name));
    }
  }

  /** A thread's slice, or an instant of the kernel. */
  lemma EmitSliceElsewhere(s: State, tid: Tid, phase: Phase, name: string, a: Slot)
    requires a in s.slots && (phase.Instant? || (tid != KERNEL_TID && !a.KernelCpu?))
    ensures Elsewhere(s, EmitSlice(s, tid, phase, name, s.slots[a]))
  {
    hide PushOn, PopFrom, HasTop, Elsewhere;
    var p := Slice(phase, name, s.slots[a]);
    var s1, s2 := Put(s, p), EmitSlice(s, tid, phase, name, s.slots[a]);
    assert OffKernel(p, s.slots);
    PutElsewhere(s, p);
    if s2.log == s.log { Stays(s, s2); } else { Stays(s1, s2); Chain(s, s1, s2); }
  }

  lemma EmitAtElsewhere(s: State, tid: Tid, cpu: Cpu, phase: Phase, name: string, place: Place)
    requires Inv(s) && Active(s, tid) && (phase.Instant? || tid != KERNEL_TID)
    ensures Elsewhere(s, EmitAt(s, tid, cpu, phase, name, place))
  {
    hide Inv, Elsewhere, EmitSlice, Dec;
    Known(s, tid);
    var a := if tid == KERNEL_TID then KernelCpu(cpu) else SlotFor(tid, place);
    var parent := if tid == KERNEL_TID then Kernel else Root(tid);
    var title := if tid == KERNEL_TID then "CPU " + Dec(cpu) else "locked";
    var s1 := NeedTrack(s, a, parent, title);
    NeedTrackElsewhere(s, a, parent, title);
    EmitSliceElsewhere(s1, tid, phase, name, a);
    Chain(s, s1, EmitSlice(s1, tid, phase, name, s1.slots[a]));
  }

  lemma EndAllElsewhere(s: State, tid: Tid)
    requires Inv(s) && Active(s, tid) && tid != KERNEL_TID
    ensures Elsewhere(s, EndAll(s, tid))
  {
    hide All, StacksOk, Home, HomeOwn, DescOk, CpusOk, RunningOk, Balanced, Shape;
    Known(s, tid);
    AllTracks(tid, s.ongoing[tid], s.slots);
    var s' := EndAll(s, tid);
    forall i | |s.log| <= i < |s'.log| ensures OffKernel(s'.log[i], s'.slots) {
      var p := All(s.ongoing[tid])[i - |s.log|];
      assert s'.log[i] == Ended(p);
      ThreadHome(p, tid, s.slots);
    }
  }

  lemma ThreadHome(p: Packet, tid: Tid, slots: map<Slot, Uid>)
    requires HomeOwn(p, tid, slots) && tid != KERNEL_TID
    ensures OffKernel(Ended(p), slots)
  {
    hide IsRunning, PlaceOf;
    var b := SlotFor(tid, PlaceOf(p.name));
    assert b in slots && !b.KernelCpu? && slots[b] == p.track;
  }

  lemma NeedCpuElsewhere(s: State, cpu: Cpu)
    requires Shape(s)
    ensures Elsewhere(s, NeedCpu(s, cpu))
  {
    hide Elsewhere, Describe, Alloc, Dec;
    var a, f := CpuTrack(cpu), Flow(cpu);
    if a in s.slots {
      Stays(s, s);
    } else {
      AllocFields(s, a);
      AllocElsewhere(s, a);
      AllocElsewhere(Alloc(s, a), f);
      Chain(s, Alloc(s, a), Alloc(Alloc(s, a), f));
      DescribeElsewhere(Alloc(Alloc(s, a), f), a, Some(Cpus), Named("CPU " + Dec(cpu)));
      Chain(s, Alloc(Alloc(s, a), f), NeedCpu(s, cpu));
    }
  }

  lemma SwitchRunningElsewhere(s: State, tid: Tid, cpu: Cpu)
    requires SchedOf(tid) in s.slots && (cpu in s.prevRunning ==> RunningSlice(s.prevRunning[cpu], cpu, s.slots))
    ensures Elsewhere(s, SwitchRunning(s, tid, cpu))
  {
    hide Elsewhere, RunName;
    var s1 := if cpu in s.prevRunning then Put(s, Ended(s.prevRunning[cpu])) else s;
    if cpu in s.prevRunning {
      var t: Tid :| SchedOf(t) in s.slots && s.slots[SchedOf(t)] == s.prevRunning[cpu].track;
      assert OffKernel(Ended(s.prevRunning[cpu]), s.slots);
      PutElsewhere(s, Ended(s.prevRunning[cpu]));
    } else {
      Stays(s, s1);
    }
    var p := Slice(Begin, RunName(cpu), s.slots[SchedOf(tid)]);
    assert OffKernel(p, s1.slots);
    PutElsewhere(s1, p);
    Chain(s, s1, Put(s1, p));
    Stays(Put(s1, p), SwitchRunning(s, tid, cpu));
    Chain(s, Put(s1, p), SwitchRunning(s, tid, cpu));
  }

  lemma ShowElsewhere(s: State, cpu: Cpu, p: Packet, s': State)
    requires CpuTrack(cpu) in s.slots && p.Slice? && p.track == s.slots[CpuTrack(cpu)]
    requires cpu in s.prevCpu ==> CpuSlice(s.prevCpu[cpu], cpu, s.slots)
    requires var s1 := if cpu in s.prevCpu then Put(s, Ended(s.prevCpu[cpu])) else s; s' == Put(s1, p).(prevCpu := s1.prevCpu[cpu := p])
    ensures Elsewhere(s, s')
  {
    hide Elsewhere, NoRunningSlice;
    var s1 := if cpu in s.prevCpu then Put(s, Ended(s.prevCpu[cpu])) else s;
    if cpu in s.prevCpu {
      assert OffKernel(Ended(s.prevCpu[cpu]), s.slots);
      PutElsewhere(s, Ended(s.prevCpu[cpu]));
    } else {
      Stays(s, s1);
    }
    assert OffKernel(p, s1.slots);
    PutElsewhere(s1, p);
    Chain(s, s1, Put(s1, p));
    Stays(Put(s1, p), s');
    Chain(s, Put(s1, p), s');
  }

  lemma PrevSlices(s: State, tid: Tid, cpu: Cpu)
    requires Inv(s)
    ensures cpu in s.prevCpu ==> CpuSlice(s.prevCpu[cpu], cpu, s.slots)
    ensures cpu in s.prevRunning ==> RunningSlice(s.prevRunning[cpu], cpu, s.slots)
    ensures Shape(s)
  {
    hide SlotsOk, DescOk, SlicesOk, CpuSlice, RunningSlice, Scan;
  }

  lemma SwitchCpuElsewhere(s: State, tid: Tid, cpu: Cpu)
    requires Inv(s) && Active(s, tid) && tid != KERNEL_TID
    ensures Elsewhere(s, SwitchCpu(s, tid, cpu))
  {
    hide Inv, Elsewhere, NeedCpu, SwitchRunning, ThreadName, KnownThread, CpuSlice, RunningSlice, Ended;
    PrevSlices(s, tid, cpu);
    NeedCpuElsewhere(s, cpu);
    NeedCpuInv(s, cpu);
    var s1 := NeedCpu(s, cpu);
    PrevSlices(s1, tid, cpu);
    Known(s1, tid);
    var tname := ThreadName(KnownThread(s.threads, tid).name, tid);
    if !(cpu in s1.prevCpu && s1.prevCpu[cpu].Slice? && s1.prevCpu[cpu].name == tname) {
      var s2 := if cpu in s1.prevCpu then Put(s1, Ended(s1.prevCpu[cpu])) else s1;
      var p := Slice(Begin, tname, s1.slots[CpuTrack(cpu)]);
      var s3 := Put(s2, p).(prevCpu := s2.prevCpu[cpu := p]);
      ShowElsewhere(s1, cpu, p, s3);
      SwitchRunningElsewhere(s3, tid, cpu);
      Chain(s, s1, s3);
      Chain(s, s3, SwitchRunning(s3, tid, cpu));
    }
  }

  // ---------- the kernel's own steps ----------

  /** The ledger tells the kernel's stack of a name, and the level of one of its tracks. */
  ghost predicate ToldBy(log: seq<Packet>, stacks: seq<Stack>, slots: map<Slot, Uid>, cpu: Cpu, name: string, l: Ledger) {
    && Single(stacks)
    && HeldOn(OfName(stacks, name), l.held, name, slots)
    && (l.stray <==> Level(log, TrackOf(slots, cpu), name) < 0)
    && (!l.stray ==> Level(log, TrackOf(slots, cpu), name) == l.open)
  }

  ghost predicate Told(s: State, cpu: Cpu, name: string, l: Ledger) {
    ToldBy(s.log, StacksOf(s.ongoing, KERNEL_TID), s.slots, cpu, name, l)
  }

  lemma ToldElsewhere(s: State, s': State, cpu: Cpu, name: string, l: Ledger)
    requires Inv(s) && Inv(s') && Elsewhere(s, s') && Told(s, cpu, name, l)
    ensures Told(s', cpu, name, l)
  {
    hide Inv, Level, OfName, Single;
    LevelElsewhere(s, s', cpu, name);
  }

  lemma OnOneTrack(phase: Phase, at: Cpu, n: string, slots: map<Slot, Uid>, uid: Uid, cpu: Cpu, name: string)
    requires SlotsOk(slots, uid) && KernelCpu(at) in slots && !phase.Instant?
    ensures On(Slice(phase, n, slots[KernelCpu(at)]), TrackOf(slots, cpu), name) <==> at == cpu && n == name
  {
  }

  lemma BeginToldBy(log: seq<Packet>, stacks: seq<Stack>, slots: map<Slot, Uid>, uid: Uid, at: Cpu, n: string,
                    cpu: Cpu, name: string, l: Ledger)
    requires SlotsOk(slots, uid) && KernelCpu(at) in slots && ToldBy(log, stacks, slots, cpu, name, l)
    ensures var p := Slice(Begin, n, slots[KernelCpu(at)]);
      ToldBy(log + [p], PushOn(stacks, p), slots, cpu, name, Noted(l, true, at, n, cpu, name))
  {
    hide Level, OfName, Single, PushOn, SlotsOk, On, TrackOf, NamesOf;
    var p := Slice(Begin, n, slots[KernelCpu(at)]);
    PushOfName(stacks, p, name);
    PushNames(stacks, p);
    SingleNames(stacks, PushOn(stacks, p), n);
    LevelPut(log, p, TrackOf(slots, cpu), name);
    OnOneTrack(Begin, at, n, slots, uid, cpu, name);
  }

  lemma EndToldBy(log: seq<Packet>, stacks: seq<Stack>, slots: map<Slot, Uid>, uid: Uid, at: Cpu, n: string,
                  cpu: Cpu, name: string, l: Ledger)
    requires SlotsOk(slots, uid) && KernelCpu(at) in slots && ToldBy(log, stacks, slots, cpu, name, l)
    requires HasTop(stacks, n)
    ensures var p := Slice(End, n, slots[KernelCpu(at)]);
      ToldBy(log + [p], PopFrom(stacks, n), slots, cpu, name, Noted(l, false, at, n, cpu, name))
  {
    hide Level, OfName, Single, PopFrom, HasTop, SlotsOk, On, TrackOf, NamesOf;
    var p := Slice(End, n, slots[KernelCpu(at)]);
    PopOfName(stacks, n, name);
    PopNames(stacks, n);
    SingleNames(stacks, PopFrom(stacks, n), n);
    LevelPut(log, p, TrackOf(slots, cpu), name);
    OnOneTrack(End, at, n, slots, uid, cpu, name);
  }

  lemma InvSlots(s: State)
    requires Inv(s)
    ensures SlotsOk(s.slots, s.uid)
  {
    hide SlotsOk, DescOk, SlicesOk, CpusOk, RunningOk, Shape;
  }

  lemma KernelStack(ongoing: map<Tid, seq<Stack>>, stacks: seq<Stack>)
    ensures StacksOf(ongoing[KERNEL_TID := stacks], KERNEL_TID) == stacks
  {
  }

  /** A slice of the kernel, begun or ended on a processor. */
  lemma SliceTold(s: State, at: Cpu, begin: bool, n: string, cpu: Cpu, name: string, l: Ledger)
    requires Inv(s) && KernelCpu(at) in s.slots && Told(s, cpu, name, l)
    ensures Told(EmitSlice(s, KERNEL_TID, PhaseOf(begin), n, s.slots[KernelCpu(at)]), cpu, name, Noted(l, begin, at, n, cpu, name))
  {
    hide Inv, ToldBy, PushOn, PopFrom, HasTop, SlotsOk, StacksOf, Noted;
    var stacks := StacksOf(s.ongoing, KERNEL_TID);
    InvSlots(s);
    if begin {
      BeginToldBy(s.log, stacks, s.slots, s.uid, at, n, cpu, name, l);
      KernelStack(s.ongoing, PushOn(stacks, Slice(Begin, n, s.slots[KernelCpu(at)])));
    } else if HasTop(stacks, n) {
      EndToldBy(s.log, stacks, s.slots, s.uid, at, n, cpu, name, l);
      KernelStack(s.ongoing, PopFrom(stacks, n));
    } else {
      NothingEnds(s.log, stacks, s.slots, at, n, cpu, name, l);
    }
  }

  lemma NothingEnds(log: seq<Packet>, stacks: seq<Stack>, slots: map<Slot, Uid>, at: Cpu, n: string, cpu: Cpu, name: string, l: Ledger)
    requires ToldBy(log, stacks, slots, cpu, name, l) && !HasTop(stacks, n)
    ensures Noted(l, false, at, n, cpu, name) == l
  {
    hide Level, OfName, Single, TrackOf, HasTop;
    PopOfName(stacks, n, n);
  }

  lemma KernelStacks(s: State)
    requires Inv(s)
    ensures forall i, j :: var st := StacksOf(s.ongoing, KERNEL_TID); 0 <= i < |st| && 0 <= j < |st[i].packets| ==>
      st[i].packets[j].Slice? && st[i].packets[j].phase.Begin? && st[i].packets[j].name == st[i].name
    ensures StacksOk(KERNEL_TID, StacksOf(s.ongoing, KERNEL_TID), s.slots)
  {
    hide SlotsOk, DescOk, CpusOk, RunningOk, Balanced, Shape, KernelTracks, IsRunning;
  }

  lemma EndAllToldBy(log: seq<Packet>, stacks: seq<Stack>, slots: map<Slot, Uid>, uid: Uid, cpu: Cpu, name: string, l: Ledger)
    requires SlotsOk(slots, uid) && StacksOk(KERNEL_TID, stacks, slots) && ToldBy(log, stacks, slots, cpu, name, l)
    requires forall i, j :: 0 <= i < |stacks| && 0 <= j < |stacks[i].packets| ==>
      stacks[i].packets[j].Slice? && stacks[i].packets[j].name == stacks[i].name
    ensures ToldBy(log + Ends(All(stacks)), [], slots, cpu, name,
                   Ledger([], l.open - Times(l.held, cpu), l.stray || l.open < Times(l.held, cpu)))
  {
    hide Level, All, OfName, Matching, StacksOk, SlotsOk, TrackOf, Ends, Times;
    var t := TrackOf(slots, cpu);
    AllOfName(stacks, t, name);
    MatchingTimes(OfName(stacks, name), l.held, name, slots, uid, cpu);
    HeldBegun(KERNEL_TID, stacks, slots);
    NotNamed([], name);
    if Level(log, t, name) >= Matching(All(stacks), t, name) {
      LevelEnds(log, All(stacks), t, name);
    } else {
      LevelOverdrawn(log, All(stacks), t, name);
    }
  }

  lemma EndAllTold(s: State, cpu: Cpu, name: string, l: Ledger)
    requires Inv(s) && Told(s, cpu, name, l)
    ensures Told(EndAll(s, KERNEL_TID), cpu, name,
                 Ledger([], l.open - Times(l.held, cpu), l.stray || l.open < Times(l.held, cpu)))
  {
    hide Inv, ToldBy, StacksOf, SlotsOk, StacksOk, All, Ends, Times;
    InvSlots(s);
    KernelStacks(s);
    EndAllToldBy(s.log, StacksOf(s.ongoing, KERNEL_TID), s.slots, s.uid, cpu, name, l);
    KernelStack(s.ongoing, []);
  }

  // ---------- every event ----------

  /** An event of the kernel that begins, ends or marks a slice. */
  lemma EmitTold(s: State, at: Cpu, begin: bool, n: string, cpu: Cpu, name: string, l: Ledger)
    requires Inv(s) && Active(s, KERNEL_TID) && Told(s, cpu, name, l)
    ensures Told(EmitAt(s, KERNEL_TID, at, PhaseOf(begin), n, OnEvents), cpu, name, Noted(l, begin, at, n, cpu, name))
  {
    hide Inv, Told, Elsewhere, EmitSlice, Dec, NeedTrack, Noted;
    Known(s, KERNEL_TID);
    NeedTrackInv(s, KernelCpu(at), Kernel, "CPU " + Dec(at));
    NeedTrackElsewhere(s, KernelCpu(at), Kernel, "CPU " + Dec(at));
    var s1 := NeedTrack(s, KernelCpu(at), Kernel, "CPU " + Dec(at));
    ToldElsewhere(s, s1, cpu, name, l);
    SliceTold(s1, at, begin, n, cpu, name, l);
  }

  /** Events that leave the kernel's slices alone: those of threads, and some of the kernel. */
  predicate Aside(syscalls: seq<string>, ev: Ev) {
    ev.tid != KERNEL_TID || (!ev.body.ThreadEnd? && SliceOf(syscalls, map[], ev).None?)
  }

  lemma HandleElsewhere(s: State, syscalls: seq<string>, ev: Ev)
    requires Inv(s) && Active(s, ev.tid) && !ev.body.ThreadCreate? && Aside(syscalls, ev)
    ensures Elsewhere(s, Handle(s, syscalls, ev))
  {
    hide Inv, Elsewhere, EmitAt, EndAll, SwitchCpu, PlaceOf, IsRunning, Dec, LockSetName, LockedName, NameOfLock, ChangePrio, Within, Describe, Digits, StacksOf;
    var tid, cpu := ev.tid, ev.cpu;
    Stays(s, Raise(s));
    match ev.body {
      case ProcessExec(info) =>
        if tid in s.threads {
          var s1 := s.(threads := s.threads[tid := info]);
          Stays(s, s1);
          Stays(s, Raise(s1));
          DescribeElsewhere(s1, Proc(info.pid), None, Process(info.pid, "'" + info.name + "'"));
          Chain(s, s1, Describe(s1, Proc(info.pid), None, Process(info.pid, "'" + info.name + "'")));
        }
      case LockName(lid, name) => Stays(s, s.(lockNames := s.lockNames[lid := name]));
      case ThreadPriority(prio) => ChangePrioElsewhere(s, tid, prio);
      case ThreadEnd =>
        EndAllElsewhere(s, tid);
        EndAllInv(s, tid);
        EmitAtElsewhere(EndAll(s, tid), tid, cpu, Instant, "thread_end", OnEvents);
        Chain(s, EndAll(s, tid), Handle(s, syscalls, ev));
      case Syscall(begin, n) =>
        if n < |syscalls| { EmitAtElsewhere(s, tid, cpu, PhaseOf(begin), SYSCALL + syscalls[n], OnEvents); }
      case Interrupt(begin, irq) => EmitAtElsewhere(s, tid, cpu, PhaseOf(begin), IRQ + Dec(irq), OnEvents);
      case InLockSet(begin, lid) =>
        EmitAtElsewhere(s, tid, cpu, PhaseOf(begin), LockSetName(NameOfLock(s.lockNames, lid), lid), OnEvents);
      case Locked(begin, lid) =>
        if tid != KERNEL_TID {
          EmitAtElsewhere(s, tid, cpu, PhaseOf(begin), LockedName(NameOfLock(s.lockNames, lid), lid), OnLock(lid));
        }
      case Sched(begin) => EmitAtElsewhere(s, tid, cpu, PhaseOf(begin), SCHED, OnEvents);
      case Runnable(begin) => if tid != KERNEL_TID { RunnableElsewhere(s, tid, cpu, begin); }
      case Plain(name, lock) =>
        if !Within("lock_", name) {
          EmitAtElsewhere(s, tid, cpu, Instant, name, OnEvents);
        } else if lock.Some? {
          EmitAtElsewhere(s, tid, cpu, Instant, name + "(" + NameOfLock(s.lockNames, lock.value) + ")", OnEvents);
        }
    }
  }

  lemma RunnableElsewhere(s: State, tid: Tid, cpu: Cpu, begin: bool)
    requires Inv(s) && Active(s, tid) && tid != KERNEL_TID
    ensures var s1 := EmitAt(s, tid, cpu, PhaseOf(begin), RUNNABLE, OnSched);
      Elsewhere(s, s1) && Elsewhere(s, SwitchCpu(s1, tid, cpu))
  {
    hide Inv, Elsewhere, EmitAt, SwitchCpu, PlaceOf, IsRunning;
    OtherPlaces("", 0, "", 0);
    EmitAtInv(s, tid, cpu, PhaseOf(begin), RUNNABLE, OnSched);
    var s1 := EmitAt(s, tid, cpu, PhaseOf(begin), RUNNABLE, OnSched);
    EmitAtElsewhere(s, tid, cpu, PhaseOf(begin), RUNNABLE, OnSched);
    SwitchCpuElsewhere(s1, tid, cpu);
    Chain(s, s1, SwitchCpu(s1, tid, cpu));
  }

  lemma HandleTold(s: State, syscalls: seq<string>, ev: Ev, cpu: Cpu, name: string, l: Ledger)
    requires Inv(s) && Active(s, ev.tid) && !ev.body.ThreadCreate? && Told(s, cpu, name, l)
    ensures Told(Handle(s, syscalls, ev), cpu, name, Note(l, syscalls, s.lockNames, ev, cpu, name))
  {
    hide Inv, Told, Elsewhere, EmitAt, EndAll, Dec, LockSetName, NameOfLock, Noted, Digits, Times;
    if Aside(syscalls, ev) {
      HandleInv(s, syscalls, ev);
      AsideNotes(l, syscalls, s.lockNames, ev, cpu, name);
      HandleElsewhere(s, syscalls, ev);
      ToldElsewhere(s, Handle(s, syscalls, ev), cpu, name, l);
    } else if ev.body.ThreadEnd? {
      EndAllInv(s, KERNEL_TID);
      EndAllTold(s, cpu, name, l);
      var s1 := EndAll(s, KERNEL_TID);
      EmitAtInv(s1, KERNEL_TID, ev.cpu, Instant, "thread_end", OnEvents);
      EmitAtElsewhere(s1, KERNEL_TID, ev.cpu, Instant, "thread_end", OnEvents);
      ToldElsewhere(s1, EmitAt(s1, KERNEL_TID, ev.cpu, Instant, "thread_end", OnEvents), cpu, name,
                    Note(l, syscalls, s.lockNames, ev, cpu, name));
    } else {
      var (begin, n) := SliceOf(syscalls, s.lockNames, ev).value;
      EmitTold(s, ev.cpu, begin, n, cpu, name, l);
    }
  }

  lemma AsideNotes(l: Ledger, syscalls: seq<string>, lockNames: map<Lid, string>, ev: Ev, cpu: Cpu, name: string)
    requires Aside(syscalls, ev)
    ensures Note(l, syscalls, lockNames, ev, cpu, name) == l
  {
    hide Dec, LockSetName, NameOfLock;
  }

  lemma StartedTold(s: State, tid: Tid, cpu: Cpu, name: string, l: Ledger)
    requires Inv(s) && Told(s, cpu, name, l)
    ensures var s1 := if s.started then s else Start(s); Inv(s1) && s1.started && Told(s1, cpu, name, l) && s1.lockNames == s.lockNames
  {
    hide Inv, Told, Elsewhere, Alloc, Describe;
    if !s.started {
      StartInv(s);
      StartElsewhere(s);
      ToldElsewhere(s, Start(s), cpu, name, l);
      StartLockNames(s);
    }
  }

  lemma StartLockNames(s: State)
    ensures Start(s).lockNames == s.lockNames
  {
    hide UidOf;
  }

  lemma IntroduceLockNames(s: State, tid: Tid)
    ensures Introduce(s, tid).lockNames == s.lockNames
  {
    hide KnownThread, UidOf;
  }

  lemma EmitTells(s: State, syscalls: seq<string>, ev: Ev, cpu: Cpu, name: string, l: Ledger)
    requires Inv(s) && s.ok && Told(s, cpu, name, l)
    ensures Told(Emit(s, syscalls, ev), cpu, name, Note(l, syscalls, s.lockNames, ev, cpu, name))
  {
    hide Inv, Told, Elsewhere, Handle, Introduce, Start, Note;
    StartedTold(s, ev.tid, cpu, name, l);
    var s1 := if s.started then s else Start(s);
    if ev.body.ThreadCreate? {
      var s2 := s1.(threads := s1.threads[ev.tid := ev.body.info]);
      MetaInv(s1, s2);
      Stays(s1, s2);
      ToldElsewhere(s1, s2, cpu, name, l);
      AsideNotes(l, syscalls, s.lockNames, ev, cpu, name);
    } else if ev.tid != KERNEL_TID && ev.tid !in s1.emitted {
      IntroduceInv(s1, ev.tid);
      IntroduceElsewhere(s1, ev.tid);
      ToldElsewhere(s1, Introduce(s1, ev.tid), cpu, name, l);
      IntroduceLockNames(s1, ev.tid);
      HandleTold(Introduce(s1, ev.tid), syscalls, ev, cpu, name, l);
    } else {
      HandleTold(s1, syscalls, ev, cpu, name, l);
    }
  }

  lemma NothingTold(cpu: Cpu, name: string)
    ensures Told(INITIAL, cpu, name, Ledger([], 0, false))
  {
  }

  lemma {:induction false} RunTold(syscalls: seq<string>, evs: seq<Ev>, cpu: Cpu, name: string)
    ensures Told(Run(syscalls, evs), cpu, name, LedgerOf(syscalls, evs, cpu, name))
    decreases |evs|
  {
    hide Told, Inv, Emit, Note, Knows, Learn, Fails;
    if evs == [] {
      NothingTold(cpu, name);
    } else {
      var front, ev := evs[..|evs| - 1], evs[|evs| - 1];
      RunInv(syscalls, front);
      RunTold(syscalls, front, cpu, name);
      EventsTell(syscalls, front, 0, name);
      if !Stopped(syscalls, front) {
        LockNamesKnown(Run(syscalls, front), KnownAfter(front));
        EmitTells(Run(syscalls, front), syscalls, ev, cpu, name, LedgerOf(syscalls, front, cpu, name));
      } else {
        StoppedStays(Run(syscalls, front), syscalls, ev);
      }
    }
  }

  /** On the kernel's track of one processor, no prefix of the log has more ends of a name than begins, if and
      only if the events have no stray end of that name there. */
  lemma KernelTrackPaired(syscalls: seq<string>, evs: seq<Ev>, cpu: Cpu, name: string)
    ensures var s := Run(syscalls, evs);
      Paired(s.log, TrackOf(s.slots, cpu), name) <==> !StrayEnd(syscalls, evs, cpu, name)
  {
    hide Run, LedgerOf, OfName, Single, HeldOn, TrackOf, Paired, Level;
    RunTold(syscalls, evs, cpu, name);
    var s := Run(syscalls, evs);
    LevelIsPaired(s.log, TrackOf(s.slots, cpu), name);
  }

  /** If the kernel's events all come from one processor, none of their ends is stray. */
  lemma {:induction false} OneProcessor(syscalls: seq<string>, evs: seq<Ev>, cpu: Cpu, name: string)
    requires forall i :: 0 <= i < |evs| && evs[i].tid == KERNEL_TID ==> evs[i].cpu == cpu
    ensures var l := LedgerOf(syscalls, evs, cpu, name); !l.stray && l.open == |l.held| == Times(l.held, cpu)
    decreases |evs|
  {
    hide Stopped, SliceOf;
    if evs != [] {
      OneProcessor(syscalls, evs[..|evs| - 1], cpu, name);
      var l := LedgerOf(syscalls, evs[..|evs| - 1], cpu, name);
      if l.held != [] { TimesInit(l.held, cpu); }
      assert (l.held + [cpu])[..|l.held|] == l.held;
    }
  }

  lemma TimesInit(held: seq<Cpu>, cpu: Cpu)
    requires Times(held, cpu) == |held| && held != []
    ensures Times(held[..|held| - 1], cpu) == |held| - 1
  {
    TimesBound(held[..|held| - 1], cpu);
  }

  lemma {:induction false} TimesBound(held: seq<Cpu>, cpu: Cpu)
    ensures Times(held, cpu) <= |held|
  {
    if held != [] { TimesBound(held[..|held| - 1], cpu); }
  }

  lemma LedgerSnoc(syscalls: seq<string>, evs: seq<Ev>, ev: Ev, cpu: Cpu, name: string)
    requires !Stopped(syscalls, evs)
    ensures LedgerOf(syscalls, evs + [ev], cpu, name) ==
      Note(LedgerOf(syscalls, evs, cpu, name), syscalls, KnownAfter(evs).lockNames, ev, cpu, name)
  {
    hide Stopped, Note, KnownAfter;
    assert (evs + [ev])[..|evs|] == evs;
  }

  function Irq(begin: bool, cpu: Cpu, irq: nat): Ev { Ev(KERNEL_TID, cpu, Interrupt(begin, irq)) }

  lemma InterruptNoted(syscalls: seq<string>, evs: seq<Ev>, begin: bool, at: Cpu, irq: nat, cpu: Cpu)
    requires !Stopped(syscalls, evs)
    ensures var evs', name := evs + [Irq(begin, at, irq)], IRQ + Dec(irq);
      && !Stopped(syscalls, evs')
      && LedgerOf(syscalls, evs', cpu, name) == Noted(LedgerOf(syscalls, evs, cpu, name), begin, at, name, cpu, name)
  {
    hide LedgerOf, Noted, Dec, KnownAfter;
    assert (evs + [Irq(begin, at, irq)])[..|evs|] == evs;
    LedgerSnoc(syscalls, evs, Irq(begin, at, irq), cpu, IRQ + Dec(irq));
  }

  lemma ThreeInterrupts(syscalls: seq<string>, irq: nat, cpu: Cpu)
    ensures var evs := [Irq(true, 0, irq), Irq(true, 1, irq), Irq(false, 0, irq)];
      !Stopped(syscalls, evs) && LedgerOf(syscalls, evs, cpu, IRQ + Dec(irq)) == Ledger([0], if cpu == 1 then 1 else 0, false)
  {
    hide Stopped, LedgerOf, Dec, Irq;
    var e0, e1, e2 := Irq(true, 0, irq), Irq(true, 1, irq), Irq(false, 0, irq);
    NothingNoted(syscalls, cpu, IRQ + Dec(irq));
    InterruptNoted(syscalls, [], true, 0, irq, cpu);
    InterruptNoted(syscalls, [] + [e0], true, 1, irq, cpu);
    InterruptNoted(syscalls, [] + [e0] + [e1], false, 0, irq, cpu);
    assert [e0, e1, e2] == [] + [e0] + [e1] + [e2];
    assert [] + [0] == [0] && ([0] + [1])[..1] == [0];
  }

  /** Not only an end on the wrong processor can be stray: of two slices begun on two processors, an end on the
      first takes the one of the second, and the end of the kernel's thread then ends the first once more. */
  lemma ThreadEndStrays(syscalls: seq<string>, irq: nat)
    ensures var evs := [Irq(true, 0, irq), Irq(true, 1, irq), Irq(false, 0, irq)];
      && (forall cpu: Cpu :: !StrayEnd(syscalls, evs, cpu, IRQ + Dec(irq)))
      && StrayEnd(syscalls, evs + [Ev(KERNEL_TID, 0, ThreadEnd)], 0, IRQ + Dec(irq))
  {
    hide Stopped, LedgerOf, Dec, Irq;
    var evs, name := [Irq(true, 0, irq), Irq(true, 1, irq), Irq(false, 0, irq)], IRQ + Dec(irq);
    forall cpu: Cpu ensures !StrayEnd(syscalls, evs, cpu, name) { ThreeInterrupts(syscalls, irq, cpu); }
    ThreeInterrupts(syscalls, irq, 0);
    LedgerSnoc(syscalls, evs, Ev(KERNEL_TID, 0, ThreadEnd), 0, name);
    assert [0][..0] == [];
    assert Times([0], 0) == Times([0][..0], 0) + 1;
  }

  lemma NothingNoted(syscalls: seq<string>, cpu: Cpu, name: string)
    ensures LedgerOf(syscalls, [], cpu, name) == Ledger([], 0, false) && !Stopped(syscalls, [])
  {
  }
}
