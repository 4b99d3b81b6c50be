/** The two views of a processor agree: its own track, and the track of the thread it runs. */
module EmitterViews {
  import opened Basics
  import opened EmitterNames
  import opened EmitterSpec
  import opened EmitterCore
  import opened EmitterSlices
  import opened EmitterSafety
  import opened EmitterRuns

  /** What follows the last space of a string. */
  function LastWord(s: string): string {
    if s == "" || s[|s| - 1] == ' ' then "" else LastWord(s[..|s| - 1]) + [s[|s| - 1]]
  }

  lemma {:induction false} LastWordIs(a: string, x: string)
    requires ' ' !in x
    ensures LastWord(a + " " + x) == x
    decreases |x|
  {
    var s := a + " " + x;
    if x == "" {
      assert s == a + " ";
    } else {
      assert s[..|s| - 1] == a + " " + x[..|x| - 1] && s[|s| - 1] == x[|x| - 1];
      LastWordIs(a, x[..|x| - 1]);
    }
  }

  function DecValue(s: string): int {
    if s != "" && s[0] == '-' then 0 - TailValue(10, s[1..]) else TailValue(10, s)
  }

  lemma {:induction false} DigitsHaveNoDash(n: nat)
    ensures Digits(10, n) != "" && Digits(10, n)[0] != '-'
    decreases n
  {
    if n >= 10 { DigitsHaveNoDash(n / 10); }
  }

  lemma DecBack(n: int)
    ensures DecValue(Dec(n)) == n && ' ' !in Dec(n)
  {
    hide Digits, TailValue;
    var m := if n < 0 then -n else n;
    DigitsHaveNoSpace(10, m);
    DigitsHaveNoDash(m);
    TailStarts();
    TailOfDigits(10, "", m);
    assert "" + Digits(10, m) == Digits(10, m);
    if n < 0 { assert Dec(n)[1..] == Digits(10, m); }
  }

  lemma TailStarts()
    ensures TailValue(10, "") == 0
  {
  }

  /** A name on a processor's track tells the thread's number. */
  lemma ThreadNameTells(name: string, tid: Tid, name': string, tid': Tid)
    requires ThreadName(name, tid) == ThreadName(name', tid')
    ensures tid == tid'
  {
    hide Dec, LastWord;
    DecBack(tid);
    DecBack(tid');
    LastWordIs(name, Dec(tid));
    LastWordIs(name', Dec(tid'));
  }

  /** What a processor shows is a thread, and its running slice is on that thread's track. */
  ghost predicate Shows(cpuSlice: Packet, running: Packet, slots: map<Slot, Uid>, name: string, tid: Tid) {
    && cpuSlice.Slice? && cpuSlice.name == ThreadName(name, tid)
    && running.Slice? && SchedOf(tid) in slots && running.track == slots[SchedOf(tid)]
  }

  ghost predicate Agree(s: State) {
    && (forall cpu :: cpu in s.prevCpu <==> cpu in s.prevRunning)
    && (forall cpu :: cpu in s.prevCpu ==>
          exists name: string, tid: Tid :: Shows(s.prevCpu[cpu], s.prevRunning[cpu], s.slots, name, tid))
  }

  /** A step that only gives out new tracks and leaves the processors alone. */
  predicate LeavesCpus(s: State, s': State) {
    && s'.prevCpu == s.prevCpu && s'.prevRunning == s.prevRunning
    && forall a :: a in s.slots ==> a in s'.slots && s'.slots[a] == s.slots[a]
  }

  lemma AgreeKept(s: State, s': State)
    requires Agree(s) && LeavesCpus(s, s')
    ensures Agree(s')
  {
    hide ThreadName;
    forall cpu | cpu in s'.prevCpu
      ensures exists name: string, tid: Tid :: Shows(s'.prevCpu[cpu], s'.prevRunning[cpu], s'.slots, name, tid)
    {
      var name: string, tid: Tid :| Shows(s.prevCpu[cpu], s.prevRunning[cpu], s.slots, name, tid);
      assert Shows(s'.prevCpu[cpu], s'.prevRunning[cpu], s'.slots, name, tid);
    }
  }

  lemma StartLeaves(s: State)
    requires s.slots == map[]
    ensures LeavesCpus(s, Start(s))
  {
    hide UidOf;
  }

  lemma IntroduceLeaves(s: State, tid: Tid)
    requires Inv(s) && tid !in s.emitted && tid != KERNEL_TID
    ensures LeavesCpus(s, Introduce(s, tid))
  {
    hide Core, Shape, KnownThread, AddProcess, DescribeThread, AllocThread;
    assert Shape(s);
    NotYet(s, tid);
    AllocThreadLeaves(s, tid);
    AddProcessLeaves(AllocThread(s, tid), KnownThread(s.threads, tid));
    var s2 := AddProcess(AllocThread(s, tid), KnownThread(s.threads, tid));
    DescribeThreadFields(s2, tid, KnownThread(s.threads, tid).pid);
  }

  lemma AllocThreadLeaves(s: State, tid: Tid)
    requires Root(tid) !in s.slots && SchedOf(tid) !in s.slots && EventsOf(tid) !in s.slots && PrioOf(tid) !in s.slots
    ensures LeavesCpus(s, AllocThread(s, tid))
  {
  }

  lemma AddProcessLeaves(s: State, t: Thread)
    ensures LeavesCpus(s, AddProcess(s, t))
  {
    hide UidOf;
  }

  lemma NeedTrackLeaves(s: State, a: Slot, parent: Slot, name: string)
    ensures LeavesCpus(s, NeedTrack(s, a, parent, name)) && NeedTrack(s, a, parent, name).threads == s.threads
  {
    hide UidOf;
  }

  lemma EmitSliceKeeps(s: State, tid: Tid, phase: Phase, name: string, track: Uid)
    ensures var s' := EmitSlice(s, tid, phase, name, track);
      s'.slots == s.slots && s'.prevCpu == s.prevCpu && s'.prevRunning == s.prevRunning && s'.threads == s.threads
  {
    hide EmitSlice;
    EmitSliceRest(s, tid, phase, name, track);
  }

  lemma EmitAtLeaves(s: State, tid: Tid, cpu: Cpu, phase: Phase, name: string, place: Place)
    ensures LeavesCpus(s, EmitAt(s, tid, cpu, phase, name, place))
    ensures EmitAt(s, tid, cpu, phase, name, place).threads == s.threads
  {
    hide NeedTrack, EmitSlice, Dec;
    NeedTrackLeaves(s, KernelCpu(cpu), Kernel, "CPU " + Dec(cpu));
    var s1 := NeedTrack(s, KernelCpu(cpu), Kernel, "CPU " + Dec(cpu));
    EmitSliceKeeps(s1, tid, phase, name, UidOf(s1.slots, KernelCpu(cpu)));
    if place.OnLock? { NeedTrackLeaves(s, LockOf(tid, place.lid), Root(tid), "locked"); }
    var s2 := if place.OnLock? then NeedTrack(s, LockOf(tid, place.lid), Root(tid), "locked") else s;
    EmitSliceKeeps(s2, tid, phase, name, UidOf(s2.slots, SlotFor(tid, place)));
  }

  lemma NeedCpuLeaves(s: State, cpu: Cpu)
    requires Shape(s)
    ensures LeavesCpus(s, NeedCpu(s, cpu))
  {
    hide UidOf, Dec, HasTracks, Owner;
  }

  lemma SwitchRunningSets(s: State, tid: Tid, cpu: Cpu)
    ensures var s' := SwitchRunning(s, tid, cpu);
      s'.slots == s.slots && s'.prevCpu == s.prevCpu &&
      s'.prevRunning == s.prevRunning[cpu := Slice(Begin, RunName(cpu), UidOf(s.slots, SchedOf(tid)))]
  {
    hide RunName, Ended, UidOf;
  }

  /** After a switch the processor shows the thread in both views. */
  lemma SwitchAgrees(s: State, tid: Tid, cpu: Cpu)
    requires Agree(s) && Shape(s) && SchedOf(tid) in s.slots
    ensures var s', name := SwitchCpu(s, tid, cpu), KnownThread(s.threads, tid).name;
      Agree(s') && cpu in s'.prevCpu && cpu in s'.prevRunning && Shows(s'.prevCpu[cpu], s'.prevRunning[cpu], s'.slots, name, tid)
  {
    hide KnownThread, ThreadName, NeedCpu, SwitchRunning, RunName, Shape, Ended;
    var name := KnownThread(s.threads, tid).name;
    var tname := ThreadName(name, tid);
    NeedCpuLeaves(s, cpu);
    var s1 := NeedCpu(s, cpu);
    AgreeKept(s, s1);
    if cpu in s1.prevCpu && s1.prevCpu[cpu].Slice? && s1.prevCpu[cpu].name == tname {
      var n: string, t: Tid :| Shows(s1.prevCpu[cpu], s1.prevRunning[cpu], s1.slots, n, t);
      ThreadNameTells(name, tid, n, t);
    } else {
      var s2 := if cpu in s1.prevCpu then Put(s1, Ended(s1.prevCpu[cpu])) else s1;
      var p := Slice(Begin, tname, UidOf(s2.slots, CpuTrack(cpu)));
      var s3 := Put(s2, p).(prevCpu := s2.prevCpu[cpu := p]);
      SwitchRunningSets(s3, tid, cpu);
      var s' := SwitchRunning(s3, tid, cpu);
      assert Shows(s'.prevCpu[cpu], s'.prevRunning[cpu], s'.slots, name, tid);
      forall c | c in s'.prevCpu
        ensures exists n: string, t: Tid :: Shows(s'.prevCpu[c], s'.prevRunning[c], s'.slots, n, t)
      {
        if c != cpu {
          var n: string, t: Tid :| Shows(s1.prevCpu[c], s1.prevRunning[c], s1.slots, n, t);
          assert Shows(s'.prevCpu[c], s'.prevRunning[c], s'.slots, n, t);
        }
      }
    }
  }

  lemma MetaLeaves(s: State, s': State)
    requires s' == s.(threads := s'.threads, lockNames := s'.lockNames, ok := s'.ok)
    ensures LeavesCpus(s, s')
  {
  }

  lemma DescribeLeaves(s: State, s1: State, a: Slot, parent: Option<Slot>, what: Label)
    requires LeavesCpus(s, s1)
    ensures LeavesCpus(s, Describe(s1, a, parent, what))
  {
    hide UidOf;
  }

  lemma PrioLeaves(s: State, tid: Tid, prio: int)
    ensures LeavesCpus(s, ChangePrio(s, tid, prio))
  {
    hide UidOf;
  }

  lemma PlainLeaves(s: State, syscalls: seq<string>, tid: Tid, cpu: Cpu, name: string, lock: Option<Lid>)
    ensures LeavesCpus(s, Handle(s, syscalls, Ev(tid, cpu, Plain(name, lock))))
  {
    hide EmitAt, NameOfLock, Within, LeavesCpus;
    MetaLeaves(s, Raise(s));
    EmitAtLeaves(s, tid, cpu, Instant, name, OnEvents);
    if lock.Some? {
      EmitAtLeaves(s, tid, cpu, Instant, name + "(" + NameOfLock(s.lockNames, lock.value) + ")", OnEvents);
    }
  }

  lemma HandleLeaves(s: State, syscalls: seq<string>, ev: Ev)
    requires !ev.body.ThreadCreate? && !(ev.body.Runnable? && !ev.body.begin)
    ensures LeavesCpus(s, Handle(s, syscalls, ev))
  {
    hide EmitAt, EndAll, SwitchCpu, Dec, LockSetName, LockedName, NameOfLock, Within, Describe, LeavesCpus, ChangePrio;
    var tid, cpu := ev.tid, ev.cpu;
    MetaLeaves(s, Raise(s));
    match ev.body {
      case ProcessExec(info) =>
        if tid in s.threads {
          var s1 := s.(threads := s.threads[tid := info]);
          MetaLeaves(s, s1);
          MetaLeaves(s, Raise(s1));
          DescribeLeaves(s, s1, Proc(info.pid), None, Process(info.pid, "'" + info.name + "'"));
        }
      case LockName(lid, name) => MetaLeaves(s, s.(lockNames := s.lockNames[lid := name]));
      case ThreadPriority(prio) => PrioLeaves(s, tid, prio);
      case ThreadEnd =>
        EmitAtLeaves(EndAll(s, tid), tid, cpu, Instant, "thread_end", OnEvents);
        EndAllLeaves(s, tid, EmitAt(EndAll(s, tid), tid, cpu, Instant, "thread_end", OnEvents));
      case Syscall(begin, n) =>
        if n < |syscalls| { EmitAtLeaves(s, tid, cpu, PhaseOf(begin), SYSCALL + syscalls[n], OnEvents); }
      case Interrupt(begin, irq) => EmitAtLeaves(s, tid, cpu, PhaseOf(begin), IRQ + Dec(irq), OnEvents);
      case InLockSet(begin, lid) =>
        EmitAtLeaves(s, tid, cpu, PhaseOf(begin), LockSetName(NameOfLock(s.lockNames, lid), lid), OnEvents);
      case Locked(begin, lid) =>
        EmitAtLeaves(s, tid, cpu, PhaseOf(begin), LockedName(NameOfLock(s.lockNames, lid), lid), OnLock(lid));
      case Sched(begin) => EmitAtLeaves(s, tid, cpu, PhaseOf(begin), SCHED, OnEvents);
      case Runnable(begin) => EmitAtLeaves(s, tid, cpu, PhaseOf(begin), RUNNABLE, OnSched);
      case Plain(name, lock) => PlainLeaves(s, syscalls, tid, cpu, name, lock);
    }
  }

  lemma EndAllLeaves(s: State, tid: Tid, s': State)
    requires LeavesCpus(EndAll(s, tid), s')
    ensures LeavesCpus(s, s')
  {
    hide All, Ends, StacksOf;
  }

  /** The state in which an event is handled: started, and its thread introduced. */
  function Ready(s: State, tid: Tid): State {
    var s1 := if s.started then s else Start(s);
    if tid != KERNEL_TID && tid !in s1.emitted then Introduce(s1, tid) else s1
  }

  lemma ReadyAgrees(s: State, tid: Tid)
    requires Inv(s) && Agree(s)
    ensures Inv(Ready(s, tid)) && Agree(Ready(s, tid)) && Active(Ready(s, tid), tid)
    ensures Ready(s, tid).threads == if s.started then s.threads else Start(s).threads
  {
    hide Inv, Introduce, Start, Agree, LeavesCpus;
    if !s.started {
      NotStarted(s);
      StartInv(s);
      StartLeaves(s);
      AgreeKept(s, Start(s));
    }
    var s1 := if s.started then s else Start(s);
    if tid != KERNEL_TID && tid !in s1.emitted {
      IntroduceInv(s1, tid);
      IntroduceLeaves(s1, tid);
      IntroduceThreads(s1, tid);
      AgreeKept(s1, Introduce(s1, tid));
    }
  }

  lemma NotStarted(s: State)
    requires Inv(s) && !s.started
    ensures s.slots == map[]
  {
    hide Core;
  }

  lemma IntroduceThreads(s: State, tid: Tid)
    ensures Introduce(s, tid).threads == s.threads
  {
    hide KnownThread, UidOf;
  }

  /** An event that schedules a thread: the processor then shows it in both views. */
  lemma ScheduleAgrees(s: State, syscalls: seq<string>, tid: Tid, cpu: Cpu)
    requires Inv(s) && Agree(s) && Active(s, tid) && tid != KERNEL_TID
    ensures var s' := Handle(s, syscalls, Ev(tid, cpu, Runnable(false)));
      && Agree(s') && cpu in s'.prevCpu && cpu in s'.prevRunning
      && Shows(s'.prevCpu[cpu], s'.prevRunning[cpu], s'.slots, KnownThread(s.threads, tid).name, tid)
  {
    hide Inv, Agree, LeavesCpus, EmitAt, SwitchCpu, KnownThread, PlaceOf, IsRunning, Shows;
    OtherPlaces("", 0, "", 0);
    EmitAtInv(s, tid, cpu, End, RUNNABLE, OnSched);
    EmitAtLeaves(s, tid, cpu, End, RUNNABLE, OnSched);
    var s1 := EmitAt(s, tid, cpu, End, RUNNABLE, OnSched);
    AgreeKept(s, s1);
    Known(s1, tid);
    InvShape(s1);
    SwitchAgrees(s1, tid, cpu);
  }

  lemma EmitAgrees(s: State, syscalls: seq<string>, ev: Ev)
    requires Inv(s) && Agree(s)
    ensures Agree(Emit(s, syscalls, ev))
  {
    hide Inv, Agree, Handle, Introduce, Start;
    if s.ok {
      if ev.body.ThreadCreate? {
        if !s.started {
          NotStarted(s);
          StartLeaves(s);
        }
        AgreeKept(s, Emit(s, syscalls, ev));
      } else {
        ReadyAgrees(s, ev.tid);
        var s2 := Ready(s, ev.tid);
        if ev.body.Runnable? && !ev.body.begin {
          if ev.tid == KERNEL_TID {
            KernelRaises(s2, syscalls, ev);
            AgreeKept(s2, Handle(s2, syscalls, ev));
          } else {
            ScheduleAgrees(s2, syscalls, ev.tid, ev.cpu);
            assert ev == Ev(ev.tid, ev.cpu, Runnable(false));
          }
        } else {
          HandleLeaves(s2, syscalls, ev);
          AgreeKept(s2, Handle(s2, syscalls, ev));
        }
      }
    }
  }

  lemma KernelRaises(s: State, syscalls: seq<string>, ev: Ev)
    requires ev.body.Runnable? && ev.tid == KERNEL_TID
    ensures Handle(s, syscalls, ev) == Raise(s)
  {
  }

  lemma {:induction false} RunAgrees(syscalls: seq<string>, evs: seq<Ev>)
    ensures Agree(Run(syscalls, evs))
    decreases |evs|
  {
    hide Emit, Inv;
    if evs != [] {
      RunInv(syscalls, evs[..|evs| - 1]);
      RunAgrees(syscalls, evs[..|evs| - 1]);
      EmitAgrees(Run(syscalls, evs[..|evs| - 1]), syscalls, evs[|evs| - 1]);
    }
  }

  /** In every reachable state, what a processor's track shows open is a thread, and the processor's open
      running slice is on that thread's own track; right after a thread is scheduled it is that thread,
      under its present name. */
  lemma ScheduledIsShown(syscalls: seq<string>, evs: seq<Ev>, tid: Tid, cpu: Cpu)
    requires Run(syscalls, evs).ok && tid != KERNEL_TID
    ensures var s := Run(syscalls, evs + [Ev(tid, cpu, Runnable(false))]);
      && Agree(s) && cpu in s.prevCpu && cpu in s.prevRunning
      && Shows(s.prevCpu[cpu], s.prevRunning[cpu], s.slots,
               KnownThread(Ready(Run(syscalls, evs), tid).threads, tid).name, tid)
  {
    hide Inv, Agree, Handle, Introduce, Start, Run, KnownThread, Shows;
    RunSnoc(syscalls, evs, Ev(tid, cpu, Runnable(false)));
    RunInv(syscalls, evs);
    RunAgrees(syscalls, evs);
    ReadyAgrees(Run(syscalls, evs), tid);
    ScheduleAgrees(Ready(Run(syscalls, evs), tid), syscalls, tid, cpu);
  }
}
