/** What holds of the whole log after any events. */
module EmitterSafety {
  import opened Basics
  import opened EmitterNames
  import opened EmitterSpec
  import opened EmitterLog
  import opened EmitterCore
  import opened EmitterSlices

  ghost predicate Shape(s: State) {
    && (!s.started ==> s.slots == map[] && s.emitted == {} && s.ongoing == map[])
    && (s.started ==> Cpus in s.slots && Kernel in s.slots && KERNEL_TID in s.ongoing)
    && KERNEL_TID !in s.emitted
    && (forall tid :: tid in s.emitted ==> tid in s.ongoing && HasTracks(s.slots, tid))
    && (forall tid :: tid in s.ongoing ==> tid == KERNEL_TID || tid in s.emitted)
    && (forall a :: a in s.slots && Owner(a).Some? ==> Owner(a).value in s.emitted)
    && (forall cpu :: Flow(cpu) in s.slots ==> CpuTrack(cpu) in s.slots)
  }

  predicate HasTracks(slots: map<Slot, Uid>, tid: Tid) {
    Root(tid) in slots && SchedOf(tid) in slots && EventsOf(tid) in slots && PrioOf(tid) in slots
  }

  ghost predicate Inv(s: State) { Core(s, {}) && Shape(s) }

  lemma InvShape(s: State)
    requires Inv(s)
    ensures Shape(s)
  {
  }

  lemma NewStacks(s: State, tid: Tid, pending: set<Slot>)
    requires Core(s, pending) && tid !in s.ongoing
    requires forall a :: a in s.slots ==> Owner(a) != Some(tid)
    ensures Core(s.(ongoing := s.ongoing[tid := []]), pending)
  {
    hide SlotsOk, DescOk, CpusOk, RunningOk, Level, Matching, All;
    var ongoing' := s.ongoing[tid := []];
    var kernel := StacksOf(ongoing', KERNEL_TID);
    assert kernel == StacksOf(s.ongoing, KERNEL_TID);
    forall n ensures Balanced(s.log, kernel, KernelTracks(s.slots), n) {
      assert Balanced(s.log, StacksOf(s.ongoing, KERNEL_TID), KernelTracks(s.slots), n);
    }
    forall t, a, n | t in ongoing' && t != KERNEL_TID && a in s.slots && Tracked(a, t, n)
      ensures Balanced(s.log, ongoing'[t], {s.slots[a]}, n)
    {
      assert Balanced(s.log, s.ongoing[t], {s.slots[a]}, n);
    }
  }

  lemma InitialInv()
    ensures Inv(INITIAL)
  {
    hide RunName;
    assert KernelTracks(map[]) == {};
  }

  lemma StartInv(s: State)
    requires Inv(s) && !s.started
    ensures Inv(Start(s)) && Start(s).started
  {
    hide Core;
    assert {} + {Cpus} == {Cpus} && {} + {Kernel} == {Kernel} && {Cpus} - {Cpus} == {} && {Kernel} - {Kernel} == {};
    var a1 := Alloc(s, Cpus);
    AllocCore(s, Cpus, {});
    var s1 := Describe(a1, Cpus, None, Named("CPUs"));
    DescribeCore(a1, Cpus, None, Named("CPUs"), {Cpus});
    var a2 := Alloc(s1, Kernel);
    AllocCore(s1, Kernel, {});
    var s2 := Describe(a2, Kernel, None, Named("KERNEL"));
    DescribeCore(a2, Kernel, None, Named("KERNEL"), {Kernel});
    NewStacks(s2, KERNEL_TID, {});
    SameCore(s2.(ongoing := s2.ongoing[KERNEL_TID := []]), Start(s), {});
  }

  /** The invariants look only at some of the state. */
  lemma SameCore(s: State, s': State, pending: set<Slot>)
    requires Core(s, pending)
    requires s'.log == s.log && s'.uid == s.uid && s'.slots == s.slots && s'.ongoing == s.ongoing
    requires s'.prevCpu == s.prevCpu && s'.prevRunning == s.prevRunning
    ensures Core(s', pending)
  {
    hide SlotsOk, DescOk, SlicesOk, CpusOk, RunningOk;
  }

  lemma AllocFields(s: State, a: Slot)
    ensures Alloc(s, a).slots == s.slots[a := s.uid]
    ensures Alloc(s, a).ongoing == s.ongoing && Alloc(s, a).emitted == s.emitted && Alloc(s, a).started == s.started
    ensures Alloc(s, a).threads == s.threads
  {
  }

  lemma AllocThreadFields(s: State, tid: Tid)
    ensures var s' := AllocThread(s, tid);
      && s'.ongoing == s.ongoing[tid := []] && s'.emitted == s.emitted && s'.started == s.started
      && s'.threads == s.threads && HasTracks(s'.slots, tid)
      && forall a :: a in s'.slots <==> a in s.slots || a in {Root(tid), SchedOf(tid), EventsOf(tid), PrioOf(tid)}
  {
    hide Alloc;
    var s0 := s.(ongoing := s.ongoing[tid := []]);
    var s1 := Alloc(s0, Root(tid));
    var s2 := Alloc(s1, SchedOf(tid));
    var s3 := Alloc(s2, EventsOf(tid));
    AllocFields(s0, Root(tid));
    AllocFields(s1, SchedOf(tid));
    AllocFields(s2, EventsOf(tid));
    AllocFields(s3, PrioOf(tid));
  }

  lemma AllocThreadCore(s: State, tid: Tid)
    requires Inv(s) && tid !in s.emitted && tid != KERNEL_TID
    ensures Core(AllocThread(s, tid), {Root(tid), SchedOf(tid), EventsOf(tid), PrioOf(tid)})
  {
    hide Core, Alloc, Owner;
    var r, c, e, p := Root(tid), SchedOf(tid), EventsOf(tid), PrioOf(tid);
    NotYet(s, tid);
    var s0 := s.(ongoing := s.ongoing[tid := []]);
    NewStacks(s, tid, {});
    var s1 := Alloc(s0, r);
    AllocCore(s0, r, {});
    AllocFields(s0, r);
    var s2 := Alloc(s1, c);
    AllocCore(s1, c, {} + {r});
    AllocFields(s1, c);
    var s3 := Alloc(s2, e);
    AllocCore(s2, e, {} + {r} + {c});
    AllocFields(s2, e);
    AllocCore(s3, p, {} + {r} + {c} + {e});
    assert {} + {r} + {c} + {e} + {p} == {r, c, e, p};
  }

  lemma NotYet(s: State, tid: Tid)
    requires Shape(s) && tid !in s.emitted && tid != KERNEL_TID
    ensures tid !in s.ongoing && forall a :: a in s.slots ==> Owner(a) != Some(tid)
    ensures Root(tid) !in s.slots && SchedOf(tid) !in s.slots && EventsOf(tid) !in s.slots && PrioOf(tid) !in s.slots
  {
    assert Owner(Root(tid)) == Owner(SchedOf(tid)) == Owner(EventsOf(tid)) == Owner(PrioOf(tid)) == Some(tid);
  }

  lemma AddProcessCore(s: State, t: Thread, pending: set<Slot>)
    requires Core(s, pending) && Proc(t.pid) !in pending
    ensures Core(AddProcess(s, t), pending)
  {
    hide Core;
    var a := Proc(t.pid);
    if a !in s.slots {
      AllocCore(s, a, pending);
      DescribeCore(Alloc(s, a), a, None, Process(t.pid, "'" + t.name + "'"), pending + {a});
      assert pending + {a} - {a} == pending;
    }
  }

  lemma DescribeThreadCore(s: State, tid: Tid, pid: Pid)
    requires Core(s, {Root(tid), SchedOf(tid), EventsOf(tid), PrioOf(tid)}) && HasTracks(s.slots, tid)
    ensures Core(DescribeThread(s, tid, pid), {})
  {
    hide Core;
    var p0 := {Root(tid), SchedOf(tid), EventsOf(tid), PrioOf(tid)};
    DescribeCore(s, Root(tid), None, ThreadOf(pid, tid), p0);
    var s1, p1 := Describe(s, Root(tid), None, ThreadOf(pid, tid)), p0 - {Root(tid)};
    DescribeCore(s1, SchedOf(tid), Some(Root(tid)), Named("sched"), p1);
    var s2, p2 := Describe(s1, SchedOf(tid), Some(Root(tid)), Named("sched")), p1 - {SchedOf(tid)};
    DescribeCore(s2, EventsOf(tid), Some(Root(tid)), Named("events"), p2);
    var s3, p3 := Describe(s2, EventsOf(tid), Some(Root(tid)), Named("events")), p2 - {EventsOf(tid)};
    DescribeCore(s3, PrioOf(tid), Some(Root(tid)), Named("prio"), p3);
    assert p3 - {PrioOf(tid)} == {};
  }

  lemma IntroduceCore(s: State, tid: Tid)
    requires Inv(s) && tid !in s.emitted && tid != KERNEL_TID
    ensures Core(Introduce(s, tid), {})
  {
    hide Core, KnownThread, AllocThread, DescribeThread, AddProcess;
    var t := KnownThread(s.threads, tid);
    AllocThreadCore(s, tid);
    AllocThreadFields(s, tid);
    var s1 := AllocThread(s, tid);
    AddProcessCore(s1, t, {Root(tid), SchedOf(tid), EventsOf(tid), PrioOf(tid)});
    AddProcessFields(s1, t);
    var s2 := AddProcess(s1, t);
    DescribeThreadCore(s2, tid, t.pid);
    DescribeThreadFields(s2, tid, t.pid);
    var s3 := DescribeThread(s2, tid, t.pid);
    CounterCore(s3, PrioOf(tid), t.prio, {});
    SameCore(ChangePrio(s3, tid, t.prio), Introduce(s, tid), {});
  }

  lemma DescribeThreadFields(s: State, tid: Tid, pid: Pid)
    ensures DescribeThread(s, tid, pid) == s.(log := DescribeThread(s, tid, pid).log)
  {
  }

  lemma AddProcessFields(s: State, t: Thread)
    ensures var s' := AddProcess(s, t);
      && s'.ongoing == s.ongoing && s'.emitted == s.emitted && s'.started == s.started
      && s'.slots == if Proc(t.pid) in s.slots then s.slots else s.slots[Proc(t.pid) := s.uid]
  {
  }

  lemma IntroduceFields(s: State, tid: Tid)
    ensures var s' := Introduce(s, tid);
      && s'.ongoing == s.ongoing[tid := []] && s'.emitted == s.emitted + {tid} && s'.started == s.started
      && HasTracks(s'.slots, tid)
    ensures forall a :: a in Introduce(s, tid).slots ==>
      a in s.slots || a.Proc? || a in {Root(tid), SchedOf(tid), EventsOf(tid), PrioOf(tid)}
    ensures forall a :: a in s.slots ==> a in Introduce(s, tid).slots
  {
    hide KnownThread, AllocThread, DescribeThread, AddProcess;
    var t := KnownThread(s.threads, tid);
    AllocThreadFields(s, tid);
    AddProcessFields(AllocThread(s, tid), t);
    DescribeThreadFields(AddProcess(AllocThread(s, tid), t), tid, t.pid);
  }

  lemma IntroduceInv(s: State, tid: Tid)
    requires Inv(s) && s.started && tid !in s.emitted && tid != KERNEL_TID
    ensures Inv(Introduce(s, tid)) && tid in Introduce(s, tid).emitted && Introduce(s, tid).started
  {
    hide Core, Introduce;
    IntroduceCore(s, tid);
    IntroduceFields(s, tid);
  }

  lemma NeedTrackInv(s: State, a: Slot, parent: Slot, name: string)
    requires Inv(s) && parent in s.slots && !parent.Flow? && (a.KernelCpu? || a.LockOf?)
    requires Owner(a).Some? ==> Owner(a).value in s.emitted
    ensures var s1 := NeedTrack(s, a, parent, name); Inv(s1) && a in s1.slots
    ensures var s1 := NeedTrack(s, a, parent, name);
      s1.started == s.started && s1.emitted == s.emitted && s1.ongoing == s.ongoing
  {
    hide Core;
    if a !in s.slots {
      AllocCore(s, a, {});
      DescribeCore(Alloc(s, a), a, Some(parent), Named(name), {} + {a});
      assert {} + {a} - {a} == {};
    }
  }

  lemma NeedCpuInv(s: State, cpu: Cpu)
    requires Inv(s) && s.started
    ensures var s1 := NeedCpu(s, cpu); Inv(s1) && CpuTrack(cpu) in s1.slots
    ensures var s1 := NeedCpu(s, cpu);
      s1.started && s1.emitted == s.emitted && s1.ongoing == s.ongoing && s1.prevCpu == s.prevCpu
  {
    hide Core, Dec;
    var a, f := CpuTrack(cpu), Flow(cpu);
    if a !in s.slots {
      AllocCore(s, a, {});
      AllocCore(Alloc(s, a), f, {} + {a});
      DescribeCore(Alloc(Alloc(s, a), f), a, Some(Cpus), Named("CPU " + Dec(cpu)), {} + {a} + {f});
      FlowWaits(Describe(Alloc(Alloc(s, a), f), a, Some(Cpus), Named("CPU " + Dec(cpu))), {} + {a} + {f} - {a}, f);
      assert {} + {a} + {f} - {a} - {f} == {};
    }
  }

  /** A flow number waits for ever. */
  lemma FlowWaits(s: State, pending: set<Slot>, f: Slot)
    requires Core(s, pending) && f.Flow?
    ensures Core(s, pending - {f})
  {
    hide Ordered, Distinct, Fits, Uuids, SlicesOk, CpusOk, RunningOk;
  }

  /** The thread of an event may emit slices. */
  ghost predicate Active(s: State, tid: Tid) { s.started && (tid == KERNEL_TID || tid in s.emitted) }

  lemma EmitSliceFields(s: State, tid: Tid, phase: Phase, name: string, track: Uid)
    requires tid in s.ongoing
    ensures var s' := EmitSlice(s, tid, phase, name, track);
      s'.slots == s.slots && s'.emitted == s.emitted && s'.started == s.started && s'.ongoing.Keys == s.ongoing.Keys
  {
    hide PushOn, PopFrom, HasTop;
  }

  lemma EmitSliceInv(s: State, tid: Tid, phase: Phase, name: string, a: Slot)
    requires Inv(s) && Active(s, tid) && a in s.slots && !a.Flow?
    requires phase.Instant? || Proper(a, tid, name, s.slots)
    ensures Inv(EmitSlice(s, tid, phase, name, s.slots[a])) && Active(EmitSlice(s, tid, phase, name, s.slots[a]), tid)
  {
    hide Core, Proper, EmitSlice, Owner, HasTracks;
    EmitSliceCore(s, tid, phase, name, a);
    EmitSliceFields(s, tid, phase, name, s.slots[a]);
  }

  lemma EmitAtInv(s: State, tid: Tid, cpu: Cpu, phase: Phase, name: string, place: Place)
    requires Inv(s) && Active(s, tid)
    requires phase.Instant? || (PlaceOf(name) == place && !IsRunning(name))
    ensures var s' := EmitAt(s, tid, cpu, phase, name, place); Inv(s') && Active(s', tid)
  {
    hide Inv, PlaceOf, IsRunning, Dec, EmitSlice;
    Known(s, tid);
    if tid == KERNEL_TID {
      NeedTrackInv(s, KernelCpu(cpu), Kernel, "CPU " + Dec(cpu));
      EmitSliceInv(NeedTrack(s, KernelCpu(cpu), Kernel, "CPU " + Dec(cpu)), tid, phase, name, KernelCpu(cpu));
    } else if place.OnLock? {
      NeedTrackInv(s, LockOf(tid, place.lid), Root(tid), "locked");
      EmitSliceInv(NeedTrack(s, LockOf(tid, place.lid), Root(tid), "locked"), tid, phase, name, SlotFor(tid, place));
    } else {
      EmitSliceInv(s, tid, phase, name, SlotFor(tid, place));
    }
  }

  lemma Known(s: State, tid: Tid)
    requires Inv(s) && Active(s, tid)
    ensures tid in s.ongoing && KERNEL_TID in s.ongoing && Kernel in s.slots && Cpus in s.slots && tid in s.ongoing
    ensures tid != KERNEL_TID ==> tid in s.emitted && HasTracks(s.slots, tid)
  {
    hide Core;
  }

  lemma SwitchCpuCore(s: State, tid: Tid, cpu: Cpu)
    requires Core(s, {}) && CpuTrack(cpu) in s.slots && SchedOf(tid) in s.slots
    ensures Core(SwitchCpu(s, tid, cpu), {})
  {
    hide Core, ThreadName, RunName, KnownThread, SwitchRunning;
    var name := KnownThread(s.threads, tid).name;
    ShowOnCpu(s, cpu, name, tid);
    var s2 := if cpu in s.prevCpu then Put(s, Ended(s.prevCpu[cpu])) else s;
    var p := Slice(Begin, ThreadName(name, tid), s.slots[CpuTrack(cpu)]);
    SwitchRunningCore(Put(s2, p).(prevCpu := s2.prevCpu[cpu := p]), tid, cpu);
  }

  lemma SwitchRunningFields(s: State, tid: Tid, cpu: Cpu)
    ensures var s' := SwitchRunning(s, tid, cpu);
      s'.slots == s.slots && s'.ongoing == s.ongoing && s'.emitted == s.emitted && s'.started == s.started
  {
    hide SwitchRunning;
    SwitchRunningRest(s, tid, cpu);
  }

  lemma NeedCpuFields(s: State, cpu: Cpu)
    ensures var s' := NeedCpu(s, cpu);
      && s'.threads == s.threads && s'.ongoing == s.ongoing && s'.emitted == s.emitted && s'.started == s.started
      && CpuTrack(cpu) in s'.slots
  {
    hide Dec, UidOf;
  }

  lemma NeedCpuOnce(s: State, cpu: Cpu)
    requires CpuTrack(cpu) in s.slots
    ensures NeedCpu(s, cpu) == s
  {
  }

  lemma SwitchCpuFields(s: State, tid: Tid, cpu: Cpu)
    ensures var s' := SwitchCpu(s, tid, cpu);
      && s'.slots == NeedCpu(s, cpu).slots && s'.ongoing == s.ongoing && s'.emitted == s.emitted && s'.started == s.started
  {
    hide ThreadName, RunName, KnownThread, Dec, NeedCpu, SwitchRunning, UidOf;
    NeedCpuFields(s, cpu);
    var tname := ThreadName(KnownThread(s.threads, tid).name, tid);
    var s1 := NeedCpu(s, cpu);
    var s2 := if cpu in s1.prevCpu then Put(s1, Ended(s1.prevCpu[cpu])) else s1;
    var p := Slice(Begin, tname, UidOf(s2.slots, CpuTrack(cpu)));
    SwitchRunningFields(Put(s2, p).(prevCpu := s2.prevCpu[cpu := p]), tid, cpu);
  }

  lemma SwitchCpuOnce(s: State, tid: Tid, cpu: Cpu)
    ensures SwitchCpu(NeedCpu(s, cpu), tid, cpu) == SwitchCpu(s, tid, cpu)
  {
    hide ThreadName, KnownThread, NeedCpu, SwitchRunning, UidOf, Ended;
    NeedCpuFields(s, cpu);
    NeedCpuOnce(NeedCpu(s, cpu), cpu);
  }

  lemma SwitchCpuInv(s: State, tid: Tid, cpu: Cpu)
    requires Inv(s) && Active(s, tid) && tid != KERNEL_TID
    ensures Inv(SwitchCpu(s, tid, cpu))
  {
    hide Core, SwitchCpu, NeedCpu;
    NeedCpuInv(s, cpu);
    SwitchCpuCore(NeedCpu(s, cpu), tid, cpu);
    SwitchCpuFields(s, tid, cpu);
    SwitchCpuOnce(s, tid, cpu);
  }

  lemma EndAllInv(s: State, tid: Tid)
    requires Inv(s) && Active(s, tid)
    ensures Inv(EndAll(s, tid)) && Active(EndAll(s, tid), tid)
  {
    hide Core, All;
    EndAllCore(s, tid);
  }

  lemma MetaInv(s: State, s': State)
    requires Inv(s) && s' == s.(threads := s'.threads, lockNames := s'.lockNames, ok := s'.ok)
    ensures Inv(s')
  {
    hide Core;
    SameCore(s, s', {});
  }

  lemma DescribeAgainInv(s: State, pid: Pid, name: string)
    requires Inv(s) && Proc(pid) in s.slots
    ensures Inv(Describe(s, Proc(pid), None, Process(pid, name)))
  {
    hide Core;
    DescribeCore(s, Proc(pid), None, Process(pid, name), {});
    assert {} - {Proc(pid)} == {};
  }

  lemma ChangePrioInv(s: State, tid: Tid, prio: int)
    requires Inv(s) && Active(s, tid) && tid != KERNEL_TID
    ensures Inv(ChangePrio(s, tid, prio))
  {
    hide Core;
    CounterCore(s, PrioOf(tid), prio, {});
  }

  lemma HandleInv(s: State, syscalls: seq<string>, ev: Ev)
    requires Inv(s) && Active(s, ev.tid) && !ev.body.ThreadCreate?
    ensures Inv(Handle(s, syscalls, ev))
  {
    hide Inv, EmitAt, EndAll, SwitchCpu, PlaceOf, IsRunning, Dec, LockSetName, LockedName, NameOfLock, ChangePrio, Within, Describe, Digits;
    var tid, cpu := ev.tid, ev.cpu;
    MetaInv(s, Raise(s));
    match ev.body {
      case ProcessExec(info) =>
        if tid in s.threads {
          var s1 := s.(threads := s.threads[tid := info]);
          MetaInv(s, s1);
          MetaInv(s, Raise(s1));
          if Proc(info.pid) in s.slots { DescribeAgainInv(s1, info.pid, "'" + info.name + "'"); }
        }
      case LockName(lid, name) => MetaInv(s, s.(lockNames := s.lockNames[lid := name]));
      case ThreadPriority(prio) => if tid != KERNEL_TID { ChangePrioInv(s, tid, prio); }
      case ThreadEnd =>
        EndAllInv(s, tid);
        EmitAtInv(EndAll(s, tid), tid, cpu, Instant, "thread_end", OnEvents);
      case Syscall(begin, n) =>
        if n < |syscalls| {
          OtherPlaces(syscalls[n], 0, "", 0);
          EmitAtInv(s, tid, cpu, PhaseOf(begin), SYSCALL + syscalls[n], OnEvents);
        }
      case Interrupt(begin, irq) =>
        OtherPlaces("", irq, "", 0);
        EmitAtInv(s, tid, cpu, PhaseOf(begin), IRQ + Dec(irq), OnEvents);
      case InLockSet(begin, lid) =>
        OtherPlaces("", 0, NameOfLock(s.lockNames, lid), lid);
        EmitAtInv(s, tid, cpu, PhaseOf(begin), LockSetName(NameOfLock(s.lockNames, lid), lid), OnEvents);
      case Locked(begin, lid) =>
        LockedPlace(NameOfLock(s.lockNames, lid), lid);
        if tid != KERNEL_TID {
          EmitAtInv(s, tid, cpu, PhaseOf(begin), LockedName(NameOfLock(s.lockNames, lid), lid), OnLock(lid));
        }
      case Sched(begin) =>
        OtherPlaces("", 0, "", 0);
        EmitAtInv(s, tid, cpu, PhaseOf(begin), SCHED, OnEvents);
      case Runnable(begin) =>
        OtherPlaces("", 0, "", 0);
        if tid != KERNEL_TID {
          EmitAtInv(s, tid, cpu, PhaseOf(begin), RUNNABLE, OnSched);
          SwitchCpuInv(EmitAt(s, tid, cpu, PhaseOf(begin), RUNNABLE, OnSched), tid, cpu);
        }
      case Plain(name, lock) =>
        if !Within("lock_", name) {
          EmitAtInv(s, tid, cpu, Instant, name, OnEvents);
        } else if lock.Some? {
          EmitAtInv(s, tid, cpu, Instant, name + "(" + NameOfLock(s.lockNames, lock.value) + ")", OnEvents);
        }
    }
  }

  lemma EmitInv(s: State, syscalls: seq<string>, ev: Ev)
    requires Inv(s)
    ensures Inv(Emit(s, syscalls, ev))
  {
    hide Inv, Handle, Introduce, Start;
    if s.ok {
      if !s.started { StartInv(s); }
      var s1 := if s.started then s else Start(s);
      if ev.body.ThreadCreate? {
        MetaInv(s1, s1.(threads := s1.threads[ev.tid := ev.body.info]));
      } else {
        if ev.tid != KERNEL_TID && ev.tid !in s1.emitted { IntroduceInv(s1, ev.tid); }
        HandleInv(if ev.tid != KERNEL_TID && ev.tid !in s1.emitted then Introduce(s1, ev.tid) else s1, syscalls, ev);
      }
    }
  }

  lemma {:induction false} RunInv(syscalls: seq<string>, evs: seq<Ev>)
    ensures Inv(Run(syscalls, evs))
    decreases |evs|
  {
    hide Inv, Emit;
    if evs == [] {
      InitialInv();
    } else {
      RunInv(syscalls, evs[..|evs| - 1]);
      EmitInv(Run(syscalls, evs[..|evs| - 1]), syscalls, evs[|evs| - 1]);
    }
  }
}
