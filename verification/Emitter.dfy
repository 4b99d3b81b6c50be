/** The converter itself, with the dictionaries, counters and packet batch that its methods update. */
module Emitter {
  import opened Basics
  import opened EmitterNames
  import opened EmitterSpec
  import opened EmitterLog
  import opened EmitterRuns

  const BATCH_SIZE: nat := 100000

  class Emitter {
    const syscalls: seq<string>
    var written: seq<Packet>
    var currentTrace: seq<Packet>
    var uid: Uid
    var started: bool
    var ok: bool
    var slots: map<Slot, Uid>
    var threads: map<Tid, Thread>
    var emitted: set<Tid>
    var ongoing: map<Tid, seq<Stack>>
    var lockNames: map<Lid, string>
    var prevCpu: map<Cpu, Packet>
    var prevRunning: map<Cpu, Packet>

    /** The state that the events lead to: the log is what is written and what waits to be. */
    function Now(): State
      reads this
    {
      State(written + currentTrace, uid, started, ok, slots, threads, emitted, ongoing, lockNames, prevCpu, prevRunning)
    }

    constructor (syscalls: seq<string>)
      ensures this.syscalls == syscalls && Now() == INITIAL && written == []
    {
      this.syscalls := syscalls;
      written, currentTrace, uid, started, ok := [], [], FIRST_UID, false, true;
      slots, threads, emitted, ongoing := map[], map[], {}, map[];
      lockNames, prevCpu, prevRunning := map[], map[], map[];
    }

    method FlushCurrentTrace()
      modifies this`written, this`currentTrace
      ensures written == old(written + currentTrace) && currentTrace == []
      ensures Now() == old(Now())
    {
      written := written + currentTrace;
      currentTrace := [];
    }

    method PrintTracePackets(packets: seq<Packet>)
      modifies this`written, this`currentTrace
      ensures written + currentTrace == old(written + currentTrace) + packets
      ensures old(written) <= written
    {
      currentTrace := currentTrace + packets;
      if |currentTrace| >= BATCH_SIZE { FlushCurrentTrace(); }
    }

    /** One packet. */
    method Print(p: Packet)
      modifies this`written, this`currentTrace
      ensures Now() == Put(old(Now()), p)
    {
      PrintTracePackets([p]);
    }

    method NextUid(a: Slot)
      modifies this`uid, this`slots
      ensures Now() == Alloc(old(Now()), a)
    {
      slots := slots[a := uid];
      uid := uid + 1;
    }

    method DescribeTrack(a: Slot, parent: Option<Slot>, what: Label)
      modifies this`written, this`currentTrace
      ensures Now() == Describe(old(Now()), a, parent, what)
    {
      Print(Descriptor(UidOf(slots, a), if parent.Some? then Some(UidOf(slots, parent.value)) else None, what));
    }

    method EmitInitialMetadata()
      modifies this
      ensures Now() == Start(old(Now()))
    {
      hide Alloc, Describe;
      NextUid(Cpus);
      DescribeTrack(Cpus, None, Named("CPUs"));
      NextUid(Kernel);
      DescribeTrack(Kernel, None, Named("KERNEL"));
      threads := threads[UNKNOWN_TID := Thread(999999999, "UNKNOWN", 999)];
      ongoing := ongoing[KERNEL_TID := []];
      started := true;
    }

    method NeedTrackOf(a: Slot, parent: Slot, name: string)
      modifies this`written, this`currentTrace, this`uid, this`slots
      ensures Now() == NeedTrack(old(Now()), a, parent, name)
    {
      hide Alloc, Describe;
      if a !in slots {
        NextUid(a);
        DescribeTrack(a, Some(parent), Named(name));
      }
    }

    method GetLockTrack(tid: Tid, lid: Lid)
      modifies this`written, this`currentTrace, this`uid, this`slots
      ensures Now() == NeedTrack(old(Now()), LockOf(tid, lid), Root(tid), "locked")
    {
      NeedTrackOf(LockOf(tid, lid), Root(tid), "locked");
    }

    method EmitKernelCpuIfNew(cpu: Cpu)
      modifies this`written, this`currentTrace, this`uid, this`slots
      ensures Now() == NeedTrack(old(Now()), KernelCpu(cpu), Kernel, "CPU " + Dec(cpu))
    {
      NeedTrackOf(KernelCpu(cpu), Kernel, "CPU " + Dec(cpu));
    }

    method EmitVirtualCpuIfNew(cpu: Cpu)
      modifies this`written, this`currentTrace, this`uid, this`slots
      ensures Now() == NeedCpu(old(Now()), cpu)
    {
      hide Alloc, Describe, Dec;
      if CpuTrack(cpu) !in slots {
        NextUid(CpuTrack(cpu));
        NextUid(Flow(cpu));
        DescribeTrack(CpuTrack(cpu), Some(Cpus), Named("CPU " + Dec(cpu)));
      }
    }

    method PrintPrio(tid: Tid, prio: int)
      modifies this`written, this`currentTrace
      ensures Now() == ChangePrio(old(Now()), tid, prio)
    {
      Print(Counter(prio, UidOf(slots, PrioOf(tid))));
    }

    method AllocateTracks(tid: Tid)
      modifies this`ongoing, this`uid, this`slots
      ensures Now() == AllocThread(old(Now()), tid)
    {
      hide Alloc;
      ongoing := ongoing[tid := []];
      NextUid(Root(tid));
      NextUid(SchedOf(tid));
      NextUid(EventsOf(tid));
      NextUid(PrioOf(tid));
    }

    method AddProcessIfNew(t: Thread)
      modifies this`written, this`currentTrace, this`uid, this`slots
      ensures Now() == AddProcess(old(Now()), t)
    {
      hide Alloc, Describe;
      if Proc(t.pid) !in slots {
        NextUid(Proc(t.pid));
        DescribeTrack(Proc(t.pid), None, Process(t.pid, "'" + t.name + "'"));
      }
    }

    method DescribeTracks(tid: Tid, pid: Pid)
      modifies this`written, this`currentTrace
      ensures Now() == DescribeThread(old(Now()), tid, pid)
    {
      hide Describe;
      DescribeTrack(Root(tid), None, ThreadOf(pid, tid));
      DescribeTrack(SchedOf(tid), Some(Root(tid)), Named("sched"));
      DescribeTrack(EventsOf(tid), Some(Root(tid)), Named("events"));
      DescribeTrack(PrioOf(tid), Some(Root(tid)), Named("prio"));
    }

    method AddNewThread(tid: Tid)
      modifies this
      ensures Now() == Introduce(old(Now()), tid)
    {
      hide KnownThread, AllocThread, AddProcess, DescribeThread, ChangePrio;
      var t := KnownThread(threads, tid);
      AllocateTracks(tid);
      AddProcessIfNew(t);
      DescribeTracks(tid, t.pid);
      PrintPrio(tid, t.prio);
      emitted := emitted + {tid};
    }

    /** Begin, end or mark a slice. */
    method PrintSlice(tid: Tid, phase: Phase, name: string, track: Uid)
      modifies this`written, this`currentTrace, this`ongoing
      ensures Now() == EmitSlice(old(Now()), tid, phase, name, track)
    {
      hide PushOn, HasTop, PopFrom;
      var p := Slice(phase, name, track);
      var stacks := StacksOf(ongoing, tid);
      var skip := false;
      if phase.Begin? { ongoing := ongoing[tid := PushOn(stacks, p)]; }
      if phase.End? {
        if HasTop(stacks, name) { ongoing := ongoing[tid := PopFrom(stacks, name)]; } else { skip := true; }
      }
      if !skip { Print(p); }
    }

    method PrintAt(tid: Tid, cpu: Cpu, phase: Phase, name: string, place: Place)
      modifies this`written, this`currentTrace, this`uid, this`slots, this`ongoing
      ensures Now() == EmitAt(old(Now()), tid, cpu, phase, name, place)
    {
      hide NeedTrack, EmitSlice, Dec;
      if tid == KERNEL_TID {
        EmitKernelCpuIfNew(cpu);
        PrintSlice(tid, phase, name, UidOf(slots, KernelCpu(cpu)));
      } else {
        if place.OnLock? { GetLockTrack(tid, place.lid); }
        PrintSlice(tid, phase, name, UidOf(slots, SlotFor(tid, place)));
      }
    }

    /** Print the ends of all slices a thread has begun, stack by stack. */
    method EndOngoingEvents(tid: Tid)
      modifies this`written, this`currentTrace, this`ongoing
      ensures Now() == EndAll(old(Now()), tid)
    {
      var stacks := StacksOf(ongoing, tid);
      ghost var log0 := written + currentTrace;
      var i := 0;
      assert log0 + [] == log0 && stacks[..0] == [];
      NoneAll();
      while i < |stacks|
        invariant 0 <= i <= |stacks| && written + currentTrace == log0 + Ends(All(stacks[..i]))
        invariant ongoing == old(ongoing)
      {
        var ps := stacks[i].packets;
        ghost var log1 := written + currentTrace;
        var j := 0;
        assert log1 + Ends(ps[..0]) == log1;
        while j < |ps|
          invariant 0 <= j <= |ps| && written + currentTrace == log1 + Ends(ps[..j])
          invariant ongoing == old(ongoing)
        {
          assert log1 + Ends(ps[..j + 1]) == (log1 + Ends(ps[..j])) + [Ended(ps[j])];
          PrintTracePackets([Ended(ps[j])]);
          j := j + 1;
        }
        assert ps[..j] == ps;
        AllNext(stacks, i);
        assert log0 + (Ends(All(stacks[..i])) + Ends(ps)) == (log0 + Ends(All(stacks[..i]))) + Ends(ps);
        i := i + 1;
      }
      assert stacks[..i] == stacks;
      ongoing := ongoing[tid := []];
    }

    method UpdateRunningThread(tid: Tid, cpu: Cpu)
      modifies this`written, this`currentTrace, this`prevRunning
      ensures Now() == SwitchRunning(old(Now()), tid, cpu)
    {
      hide RunName, Ended;
      if cpu in prevRunning { Print(Ended(prevRunning[cpu])); }
      var p := Slice(Begin, RunName(cpu), UidOf(slots, SchedOf(tid)));
      Print(p);
      prevRunning := prevRunning[cpu := p];
    }

    method UpdateCpuVirtualThread(tid: Tid, cpu: Cpu)
      modifies this`written, this`currentTrace, this`uid, this`slots, this`prevCpu, this`prevRunning
      ensures Now() == SwitchCpu(old(Now()), tid, cpu)
    {
      hide ThreadName, KnownThread, NeedCpu, SwitchRunning, Ended;
      var tname := ThreadName(KnownThread(threads, tid).name, tid);
      EmitVirtualCpuIfNew(cpu);
      if !(cpu in prevCpu && prevCpu[cpu].Slice? && prevCpu[cpu].name == tname) {
        if cpu in prevCpu { Print(Ended(prevCpu[cpu])); }
        var p := Slice(Begin, tname, UidOf(slots, CpuTrack(cpu)));
        Print(p);
        prevCpu := prevCpu[cpu := p];
        UpdateRunningThread(tid, cpu);
      }
    }

    method HandleExec(tid: Tid, cpu: Cpu, info: Thread)
      modifies this
      ensures Now() == Handle(old(Now()), syscalls, Ev(tid, cpu, ProcessExec(info)))
    {
      hide Describe;
      if tid !in threads {
        ok := false;
      } else {
        threads := threads[tid := info];
        if Proc(info.pid) !in slots {
          ok := false;
        } else {
          DescribeTrack(Proc(info.pid), None, Process(info.pid, "'" + info.name + "'"));
        }
      }
    }

    method HandleRunnable(tid: Tid, cpu: Cpu, begin: bool)
      modifies this
      ensures Now() == Handle(old(Now()), syscalls, Ev(tid, cpu, Runnable(begin)))
    {
      hide EmitAt, SwitchCpu;
      if tid == KERNEL_TID {
        ok := false;
      } else {
        PrintAt(tid, cpu, PhaseOf(begin), RUNNABLE, OnSched);
        if !begin { UpdateCpuVirtualThread(tid, cpu); }
      }
    }

    method HandleLocked(tid: Tid, cpu: Cpu, begin: bool, lid: Lid)
      modifies this
      ensures Now() == Handle(old(Now()), syscalls, Ev(tid, cpu, Locked(begin, lid)))
    {
      hide EmitAt, LockedName, NameOfLock;
      if tid == KERNEL_TID {
        ok := false;
      } else {
        PrintAt(tid, cpu, PhaseOf(begin), LockedName(NameOfLock(lockNames, lid), lid), OnLock(lid));
      }
    }

    method HandlePlain(tid: Tid, cpu: Cpu, name: string, lock: Option<Lid>)
      modifies this
      ensures Now() == Handle(old(Now()), syscalls, Ev(tid, cpu, Plain(name, lock)))
    {
      hide EmitAt, NameOfLock, Within;
      if !Within("lock_", name) {
        PrintAt(tid, cpu, Instant, name, OnEvents);
      } else if lock.None? {
        ok := false;
      } else {
        PrintAt(tid, cpu, Instant, name + "(" + NameOfLock(lockNames, lock.value) + ")", OnEvents);
      }
    }

    method HandleEvent(ev: Ev)
      requires !ev.body.ThreadCreate?
      modifies this
      ensures Now() == Handle(old(Now()), syscalls, ev)
    {
      hide EmitAt, EndAll, SwitchCpu, Dec, LockSetName, LockedName, NameOfLock, ChangePrio, Within, Describe;
      var tid, cpu := ev.tid, ev.cpu;
      match ev.body {
        case ProcessExec(info) => HandleExec(tid, cpu, info);
        case LockName(lid, name) => lockNames := lockNames[lid := name];
        case ThreadPriority(prio) => if tid == KERNEL_TID { ok := false; } else { PrintPrio(tid, prio); }
        case ThreadEnd =>
          EndOngoingEvents(tid);
          PrintAt(tid, cpu, Instant, "thread_end", OnEvents);
        case Syscall(begin, n) =>
          if n >= |syscalls| { ok := false; } else { PrintAt(tid, cpu, PhaseOf(begin), SYSCALL + syscalls[n], OnEvents); }
        case Interrupt(begin, irq) => PrintAt(tid, cpu, PhaseOf(begin), IRQ + Dec(irq), OnEvents);
        case InLockSet(begin, lid) =>
          PrintAt(tid, cpu, PhaseOf(begin), LockSetName(NameOfLock(lockNames, lid), lid), OnEvents);
        case Locked(begin, lid) => HandleLocked(tid, cpu, begin, lid);
        case Sched(begin) => PrintAt(tid, cpu, PhaseOf(begin), SCHED, OnEvents);
        case Runnable(begin) => HandleRunnable(tid, cpu, begin);
        case Plain(name, lock) => HandlePlain(tid, cpu, name, lock);
      }
    }

    method EmitEvent(ev: Ev)
      requires ok
      modifies this
      ensures Now() == Emit(old(Now()), syscalls, ev)
    {
      hide Start, Introduce, Handle;
      if !started { EmitInitialMetadata(); }
      if ev.body.ThreadCreate? {
        threads := threads[ev.tid := ev.body.info];
        return;
      }
      if ev.tid != KERNEL_TID && ev.tid !in emitted { AddNewThread(ev.tid); }
      HandleEvent(ev);
    }

    /** Convert a whole trace. After an exception only the batches flushed before it are in the file. */
    method Convert(evs: seq<Ev>)
      requires Now() == INITIAL && written == []
      modifies this
      ensures Now() == Run(syscalls, evs)
      ensures written <= Run(syscalls, evs).log
      ensures ok ==> written == Run(syscalls, evs).log
      ensures Ordered(written) && Distinct(written)
    {
      hide Emit, Run, Ordered, Distinct;
      RunNothing(syscalls);
      var i := 0;
      assert evs[..0] == [];
      while i < |evs| && ok
        invariant 0 <= i <= |evs| && Now() == Run(syscalls, evs[..i])
      {
        RunSnoc(syscalls, evs[..i], evs[i]);
        assert evs[..i + 1] == evs[..i] + [evs[i]];
        EmitEvent(evs[i]);
        i := i + 1;
      }
      RunStops(syscalls, evs, i);
      TracksDescribed(syscalls, evs);
      if ok { FlushCurrentTrace(); }
      assert (written + currentTrace)[..|written|] == written;
      GoodPrefix(Run(syscalls, evs).log, |written|);
    }
  }

  lemma RunNothing(syscalls: seq<string>)
    ensures Run(syscalls, []) == INITIAL
  {
  }

  /** After an exception nothing happens any more. */
  lemma {:induction false} RunStops(syscalls: seq<string>, evs: seq<Ev>, i: nat)
    requires i <= |evs| && (i == |evs| || !Run(syscalls, evs[..i]).ok)
    ensures Run(syscalls, evs) == Run(syscalls, evs[..i])
    decreases |evs|
  {
    hide Handle, Start, Introduce;
    if i == |evs| {
      assert evs[..i] == evs;
    } else {
      var front := evs[..|evs| - 1];
      assert front[..i] == evs[..i];
      RunStops(syscalls, front, i);
    }
  }

  lemma NoneAll()
    ensures Ends(All([])) == []
  {
  }

  lemma {:induction false} AllConcat(a: seq<Stack>, b: seq<Stack>)
    ensures All(a + b) == All(a) + All(b)
    decreases |a|
  {
    if a == [] {
      assert a + b == b;
    } else {
      assert (a + b)[1..] == a[1..] + b;
      AllConcat(a[1..], b);
    }
  }

  lemma AllNext(stacks: seq<Stack>, i: nat)
    requires i < |stacks|
    ensures Ends(All(stacks[..i + 1])) == Ends(All(stacks[..i])) + Ends(stacks[i].packets)
  {
    assert stacks[..i + 1] == stacks[..i] + [stacks[i]];
    AllConcat(stacks[..i], [stacks[i]]);
    assert All([stacks[i]]) == stacks[i].packets + All([]);
  }
}
