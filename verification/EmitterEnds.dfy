/** In which order the end of a thread ends the slices that the thread holds. */
module EmitterEnds {
  import opened Basics
  import opened EmitterNames
  import opened EmitterSpec
  import opened EmitterCore
  import opened EmitterSlices
  import opened EmitterSafety
  import opened EmitterRuns
  import opened EmitterEvents
  import EmitterKernel
  import EmitterMarks

  // ---------- the names, in the order of their first begins ----------

  function NamesStep(names: seq<string>, syscalls: seq<string>, lockNames: map<Lid, string>, ev: Ev, tid: Tid): seq<string> {
    if ev.tid != tid then names
    else if ev.body.ThreadEnd? then []
    else
      match SliceOf(syscalls, lockNames, ev)
      case None => names
      case Some((begin, n)) => if begin && n !in names then names + [n] else names
  }

  /** The names that a thread has begun since it last ended, each at its first begin. */
  function NamesBegun(syscalls: seq<string>, evs: seq<Ev>, tid: Tid): seq<string>
    decreases |evs|
  {
    if evs == [] then []
    else
      var front := evs[..|evs| - 1];
      var before := NamesBegun(syscalls, front, tid);
      if Stopped(syscalls, front) then before
      else NamesStep(before, syscalls, KnownAfter(front).lockNames, evs[|evs| - 1], tid)
  }

  function NamesIn(s: State, tid: Tid): seq<string> { NamesOf(StacksOf(s.ongoing, tid)) }

  lemma SameNames(s: State, s': State, tid: Tid)
    requires s'.ongoing == s.ongoing
    ensures NamesIn(s', tid) == NamesIn(s, tid)
  {
  }

  lemma EmitAtNames(s: State, t: Tid, cpu: Cpu, phase: Phase, m: string, place: Place, tid: Tid)
    ensures var s' := EmitAt(s, t, cpu, phase, m, place); var names := NamesIn(s, tid);
      && SameKnown(s, s')
      && NamesIn(s', tid) == if t == tid && phase.Begin? && m !in names then names + [m] else names
  {
    hide NeedTrack, EmitSlice, Dec, PushOn, PopFrom, HasTop, StacksOf, SameKnown, NamesOf;
    var a := if t == KERNEL_TID then KernelCpu(cpu) else SlotFor(t, place);
    var parent := if t == KERNEL_TID then Kernel else Root(t);
    var title := if t == KERNEL_TID then "CPU " + Dec(cpu) else "locked";
    var s1 := if t == KERNEL_TID || place.OnLock? then NeedTrack(s, a, parent, title) else s;
    NeedTrackSame(s, a, parent, title);
    var track := UidOf(s1.slots, a);
    SliceStacks(s1, t, phase, m, track, tid);
    EmitAtHolds(s, t, cpu, phase, m, place, tid, m);
    var stacks := StacksOf(s1.ongoing, tid);
    PushNames(stacks, Slice(Begin, m, track));
    if HasTop(stacks, m) { PopNames(stacks, m); }
  }

  lemma EndAllNames(s: State, t: Tid, tid: Tid)
    ensures NamesIn(EndAll(s, t), tid) == if t == tid then [] else NamesIn(s, tid)
  {
    hide All, Ends;
  }

  lemma ExecNames(s: State, syscalls: seq<string>, ev: Ev, tid: Tid)
    requires ev.body.ProcessExec?
    ensures NamesIn(Handle(s, syscalls, ev), tid) == NamesIn(s, tid)
  {
    hide Describe, NamesIn;
    var info := ev.body.info;
    DescribeSame(s.(threads := s.threads[ev.tid := info]), Proc(info.pid), None, Process(info.pid, "'" + info.name + "'"));
    SameNames(s, Handle(s, syscalls, ev), tid);
  }

  lemma RunnableNames(s: State, syscalls: seq<string>, ev: Ev, tid: Tid)
    requires ev.body.Runnable? && ev.tid != KERNEL_TID
    ensures NamesIn(Handle(s, syscalls, ev), tid) == NamesStep(NamesIn(s, tid), syscalls, s.lockNames, ev, tid)
  {
    hide EmitAt, SwitchCpu, SameKnown, NamesIn;
    var begin := ev.body.begin;
    EmitAtNames(s, ev.tid, ev.cpu, PhaseOf(begin), RUNNABLE, OnSched, tid);
    var s1 := EmitAt(s, ev.tid, ev.cpu, PhaseOf(begin), RUNNABLE, OnSched);
    SwitchCpuSame(s1, ev.tid, ev.cpu);
    SameNames(s1, SwitchCpu(s1, ev.tid, ev.cpu), tid);
  }

  lemma ThreadEndNames(s: State, syscalls: seq<string>, ev: Ev, tid: Tid)
    requires ev.body.ThreadEnd?
    ensures NamesIn(Handle(s, syscalls, ev), tid) == NamesStep(NamesIn(s, tid), syscalls, s.lockNames, ev, tid)
  {
    hide EmitAt, EndAll, SameKnown, NamesIn;
    EndAllNames(s, ev.tid, tid);
    EmitAtNames(EndAll(s, ev.tid), ev.tid, ev.cpu, Instant, "thread_end", OnEvents, tid);
  }

  lemma PlainNames(s: State, syscalls: seq<string>, ev: Ev, tid: Tid)
    requires ev.body.Plain?
    ensures NamesIn(Handle(s, syscalls, ev), tid) == NamesIn(s, tid)
  {
    hide EmitAt, SameKnown, NamesIn, NameOfLock, Within;
    EmitAtNames(s, ev.tid, ev.cpu, Instant, ev.body.name, OnEvents, tid);
    SameNames(s, Raise(s), tid);
    if ev.body.lock.Some? {
      EmitAtNames(s, ev.tid, ev.cpu, Instant, ev.body.name + "(" + NameOfLock(s.lockNames, ev.body.lock.value) + ")", OnEvents, tid);
    }
  }

  lemma SliceNames(s: State, syscalls: seq<string>, ev: Ev, tid: Tid)
    requires ev.body.Syscall? || ev.body.Interrupt? || ev.body.InLockSet? || ev.body.Locked? || ev.body.Sched?
    ensures NamesIn(Handle(s, syscalls, ev), tid) == NamesStep(NamesIn(s, tid), syscalls, s.lockNames, ev, tid)
  {
    hide EmitAt, Dec, LockSetName, LockedName, NameOfLock, NamesIn, SameKnown, Digits;
    var t, cpu := ev.tid, ev.cpu;
    SameNames(s, Raise(s), tid);
    match ev.body {
      case Syscall(begin, n) => if n < |syscalls| { EmitAtNames(s, t, cpu, PhaseOf(begin), SYSCALL + syscalls[n], OnEvents, tid); }
      case Interrupt(begin, irq) => EmitAtNames(s, t, cpu, PhaseOf(begin), IRQ + Dec(irq), OnEvents, tid);
      case InLockSet(begin, lid) =>
        EmitAtNames(s, t, cpu, PhaseOf(begin), LockSetName(NameOfLock(s.lockNames, lid), lid), OnEvents, tid);
      case Locked(begin, lid) =>
        EmitAtNames(s, t, cpu, PhaseOf(begin), LockedName(NameOfLock(s.lockNames, lid), lid), OnLock(lid), tid);
      case Sched(begin) => EmitAtNames(s, t, cpu, PhaseOf(begin), SCHED, OnEvents, tid);
    }
  }

  lemma HandleNames(s: State, syscalls: seq<string>, ev: Ev, tid: Tid)
    requires !ev.body.ThreadCreate?
    ensures NamesIn(Handle(s, syscalls, ev), tid) == NamesStep(NamesIn(s, tid), syscalls, s.lockNames, ev, tid)
  {
    hide EmitAt, EndAll, SwitchCpu, Dec, LockSetName, LockedName, NameOfLock, Within, Describe, NamesIn, SameKnown, Digits, ChangePrio;
    SameNames(s, Raise(s), tid);
    match ev.body {
      case ProcessExec(_) => ExecNames(s, syscalls, ev, tid);
      case LockName(_, _) => SameNames(s, Handle(s, syscalls, ev), tid);
      case ThreadPriority(prio) =>
        PrioSame(s, ev.tid, prio);
        SameNames(s, Handle(s, syscalls, ev), tid);
      case ThreadEnd => ThreadEndNames(s, syscalls, ev, tid);
      case Runnable(begin) => if ev.tid != KERNEL_TID { RunnableNames(s, syscalls, ev, tid); }
      case Plain(name, lock) => PlainNames(s, syscalls, ev, tid);
      case _ => SliceNames(s, syscalls, ev, tid);
    }
  }

  lemma PrioSame(s: State, tid: Tid, prio: int)
    ensures ChangePrio(s, tid, prio).ongoing == s.ongoing
  {
  }

  lemma DescribeSame(s: State, a: Slot, parent: Option<Slot>, what: Label)
    ensures Describe(s, a, parent, what).ongoing == s.ongoing
  {
    hide UidOf;
  }

  lemma BeforeHandling(s: State, tid: Tid, t: Tid)
    requires Inv(s)
    ensures !s.started ==> NamesIn(Start(s), t) == NamesIn(s, t) && Start(s).lockNames == s.lockNames
    ensures s.started && tid != KERNEL_TID && tid !in s.emitted ==>
      NamesIn(Introduce(s, tid), t) == NamesIn(s, t) && Introduce(s, tid).lockNames == s.lockNames
  {
    hide Core, Introduce, UidOf;
    if s.started { IntroduceFields(s, tid); IntroduceLocks(s, tid); }
  }

  lemma IntroduceLocks(s: State, tid: Tid)
    ensures Introduce(s, tid).lockNames == s.lockNames
  {
    hide KnownThread, AllocThread, AddProcess, DescribeThread;
    var t := KnownThread(s.threads, tid);
    AllocThreadMore(s, tid);
    AddProcessMore(AllocThread(s, tid), t);
    DescribeThreadFields(AddProcess(AllocThread(s, tid), t), tid, t.pid);
  }

  lemma EmitNames(s: State, syscalls: seq<string>, ev: Ev, tid: Tid)
    requires Inv(s) && s.ok
    ensures NamesIn(Emit(s, syscalls, ev), tid) == NamesStep(NamesIn(s, tid), syscalls, s.lockNames, ev, tid)
  {
    hide Inv, Start, Introduce, Handle, NamesIn;
    var s1 := if s.started then s else Start(s);
    if !s.started { StartInv(s); }
    BeforeHandling(s, ev.tid, tid);
    BeforeHandling(s1, ev.tid, tid);
    if ev.body.ThreadCreate? {
      SameNames(s1, Emit(s, syscalls, ev), tid);
    } else {
      HandleNames(if ev.tid != KERNEL_TID && ev.tid !in s1.emitted then Introduce(s1, ev.tid) else s1, syscalls, ev, tid);
    }
  }

  lemma {:induction false} RunNames(syscalls: seq<string>, evs: seq<Ev>, tid: Tid)
    ensures NamesIn(Run(syscalls, evs), tid) == NamesBegun(syscalls, evs, tid)
    decreases |evs|
  {
    hide Inv, Emit, NamesStep, HeldIn, HeldCount, Follows;
    if evs != [] {
      var front, ev := evs[..|evs| - 1], evs[|evs| - 1];
      var s := Run(syscalls, front);
      RunNames(syscalls, front, tid);
      RunInv(syscalls, front);
      EventsTell(syscalls, front, tid, "");
      if Stopped(syscalls, front) {
        StoppedStays(s, syscalls, ev);
      } else {
        LockNamesKnown(s, KnownAfter(front));
        EmitNames(s, syscalls, ev, tid);
      }
    }
  }

  // ---------- the ends ----------

  /** The ends of what is held under one name: on the thread's track of that name; for the kernel, each on the processor
      where it was begun. */
  function EndsOf(syscalls: seq<string>, evs: seq<Ev>, tid: Tid, name: string, slots: map<Slot, Uid>): seq<Packet> {
    if tid == KERNEL_TID then
      var held := EmitterKernel.LedgerOf(syscalls, evs, 0, name).held;
      seq(|held|, i requires 0 <= i < |held| => Slice(End, name, UidOf(slots, KernelCpu(held[i]))))
    else
      seq(HeldCount(syscalls, evs, tid, name), i => Slice(End, name, UidOf(slots, SlotFor(tid, PlaceOf(name)))))
  }

  function EndsOfAll(syscalls: seq<string>, evs: seq<Ev>, tid: Tid, names: seq<string>, slots: map<Slot, Uid>): seq<Packet> {
    if names == [] then []
    else EndsOf(syscalls, evs, tid, names[0], slots) + EndsOfAll(syscalls, evs, tid, names[1..], slots)
  }

  lemma {:induction false} OfNameAt(stacks: seq<Stack>, k: nat)
    requires Single(stacks) && k < |stacks|
    ensures OfName(stacks, stacks[k].name) == stacks[k].packets
  {
    if k > 0 {
      var rest := stacks[1..];
      assert forall i :: 0 <= i < |rest| ==> rest[i] == stacks[i + 1];
      OfNameAt(rest, k - 1);
    }
  }

  lemma EndsConcat(a: seq<Packet>, b: seq<Packet>)
    ensures Ends(a + b) == Ends(a) + Ends(b)
  {
    hide Ended;
  }

  /** What is held under a name, ended. */
  lemma EndsHeld(syscalls: seq<string>, evs: seq<Ev>, tid: Tid, name: string)
    requires var s := Run(syscalls, evs); tid == KERNEL_TID || tid in s.emitted
    ensures var s := Run(syscalls, evs); Ends(OfName(StacksOf(s.ongoing, tid), name)) == EndsOf(syscalls, evs, tid, name, s.slots)
  {
    hide Run, HeldCount, EmitterKernel.LedgerOf, PlaceOf, Core, Follows;
    var s := Run(syscalls, evs);
    var ps := OfName(StacksOf(s.ongoing, tid), name);
    if tid == KERNEL_TID {
      EmitterKernel.RunTold(syscalls, evs, 0, name);
    } else {
      EventsTell(syscalls, evs, tid, name);
      RunInv(syscalls, evs);
      HeldHome(s, tid, name);
    }
  }

  lemma HeldHome(s: State, tid: Tid, name: string)
    requires Inv(s) && tid in s.emitted
    ensures var ps := OfName(StacksOf(s.ongoing, tid), name);
      forall j :: 0 <= j < |ps| ==> ps[j] == Slice(Begin, name, UidOf(s.slots, SlotFor(tid, PlaceOf(name))))
  {
    hide DescOk, CpusOk, RunningOk, SlotsOk, Balanced, PlaceOf, IsRunning, OfName, Single;
    OfNameHome(tid, s.ongoing[tid], name, s.slots);
  }

  lemma {:induction false} OfNameHome(tid: Tid, stacks: seq<Stack>, name: string, slots: map<Slot, Uid>)
    requires StacksOk(tid, stacks, slots)
    ensures forall j :: 0 <= j < |OfName(stacks, name)| ==> Home(OfName(stacks, name)[j], tid, name, slots)
  {
    hide Home;
    if stacks != [] && stacks[0].name != name {
      StacksTail(tid, stacks, slots);
      OfNameHome(tid, stacks[1..], name, slots);
    }
  }

  lemma {:induction false} AllEnds(syscalls: seq<string>, evs: seq<Ev>, tid: Tid, k: nat)
    requires var s := Run(syscalls, evs); tid == KERNEL_TID || tid in s.emitted
    requires k <= |StacksOf(Run(syscalls, evs).ongoing, tid)| && Single(StacksOf(Run(syscalls, evs).ongoing, tid))
    ensures var s := Run(syscalls, evs); var stacks := StacksOf(s.ongoing, tid);
      Ends(All(stacks[k..])) == EndsOfAll(syscalls, evs, tid, NamesOf(stacks)[k..], s.slots)
    decreases |StacksOf(Run(syscalls, evs).ongoing, tid)| - k
  {
    hide Run, Ends, EndsOf, OfName, Single, StacksOf;
    var s := Run(syscalls, evs);
    var stacks := StacksOf(s.ongoing, tid);
    if k == |stacks| {
      NoEnds();
    } else {
      AllEnds(syscalls, evs, tid, k + 1);
      OfNameAt(stacks, k);
      EndsHeld(syscalls, evs, tid, stacks[k].name);
      EndsConcat(stacks[k].packets, All(stacks[k + 1..]));
      assert stacks[k..][1..] == stacks[k + 1..] && NamesOf(stacks)[k..][1..] == NamesOf(stacks)[k + 1..];
    }
  }

  lemma NoEnds()
    ensures Ends([]) == []
  {
  }

  predicate IsEnd(p: Packet) { p.Slice? && p.phase.End? }

  /** An instant, and perhaps the kernel's track for it. */
  lemma InstantEndsNone(s: State, tid: Tid, cpu: Cpu, name: string)
    ensures var s' := EmitAt(s, tid, cpu, Instant, name, OnEvents);
      s.log <= s'.log && forall i :: |s.log| <= i < |s'.log| ==> !IsEnd(s'.log[i])
  {
    hide UidOf, Dec, PushOn, PopFrom, HasTop, StacksOf;
    var s1 := if tid == KERNEL_TID then NeedTrack(s, KernelCpu(cpu), Kernel, "CPU " + Dec(cpu)) else s;
    assert s1.log == s.log || (|s1.log| == |s.log| + 1 && s1.log[|s.log|].Descriptor? && s.log <= s1.log);
    var s' := EmitAt(s, tid, cpu, Instant, name, OnEvents);
    assert s'.log == s1.log + [s'.log[|s1.log|]] && s'.log[|s1.log|].phase.Instant?;
  }

  lemma EndsAtOnce(s: State, k: Knowledge, syscalls: seq<string>, tid: Tid, cpu: Cpu)
    requires Knows(s, k) && (tid == KERNEL_TID || tid in k.seen)
    ensures Emit(s, syscalls, Ev(tid, cpu, ThreadEnd)) == EmitAt(EndAll(s, tid), tid, cpu, Instant, "thread_end", OnEvents)
    ensures tid == KERNEL_TID || tid in s.emitted
  {
    hide EmitAt, EndAll;
  }

  lemma AllSingle(s: State, tid: Tid)
    requires Inv(s)
    ensures Single(StacksOf(s.ongoing, tid))
  {
    hide DescOk, CpusOk, RunningOk, SlotsOk, Balanced, StacksOk, Shape;
  }

  /** The end of a thread first ends what it holds, name by name in the order in which the names were first begun, and
      then writes no further end. */
  lemma ThreadEndEnds(syscalls: seq<string>, evs: seq<Ev>, tid: Tid, cpu: Cpu)
    requires !Stopped(syscalls, evs) && evs != [] && (tid == KERNEL_TID || tid in KnownAfter(evs).seen)
    ensures var s, s' := Run(syscalls, evs), Run(syscalls, evs + [Ev(tid, cpu, ThreadEnd)]);
      var ends := EndsOfAll(syscalls, evs, tid, NamesBegun(syscalls, evs, tid), s.slots);
      && s.log + ends <= s'.log
      && forall i :: |s.log + ends| <= i < |s'.log| ==> !IsEnd(s'.log[i])
  {
    hide Run, Emit, Stopped, KnownAfter, EmitAt, EndsOfAll, NamesBegun, Inv, Knows, HeldIn, HeldCount, IsEnd, All, NamesOf;
    var s := Run(syscalls, evs);
    RunSnoc(syscalls, evs, Ev(tid, cpu, ThreadEnd));
    EventsTell(syscalls, evs, tid, "");
    RunInv(syscalls, evs);
    RunStarted(syscalls, evs);
    EndsAtOnce(s, KnownAfter(evs), syscalls, tid, cpu);
    AllSingle(s, tid);
    RunNames(syscalls, evs, tid);
    AllEnds(syscalls, evs, tid, 0);
    var stacks := StacksOf(s.ongoing, tid);
    assert stacks[0..] == stacks && NamesOf(stacks)[0..] == NamesOf(stacks);
    InstantEndsNone(EndAll(s, tid), tid, cpu, "thread_end");
  }

  lemma {:induction false} ToldSomething(syscalls: seq<string>, evs: seq<Ev>)
    requires evs != []
    ensures EmitterMarks.Told(syscalls, evs) != []
    decreases |evs|
  {
    hide EmitterMarks.Arrival, EmitterMarks.Doing, Fails, Learn;
    if |evs| > 1 { ToldSomething(syscalls, evs[..|evs| - 1]); } else { NotStopped(syscalls); }
  }

  lemma NotStopped(syscalls: seq<string>)
    ensures !Stopped(syscalls, [])
  {
  }

  lemma RunStarted(syscalls: seq<string>, evs: seq<Ev>)
    requires evs != [] && !Stopped(syscalls, evs)
    ensures Run(syscalls, evs).started
  {
    hide Run, KnownAfter, Inv, Follows, EmitterMarks.Shows, EmitterMarks.Told, HeldIn, HeldCount;
    EventsTell(syscalls, evs, 0, "");
    RunInv(syscalls, evs);
    EmitterMarks.RunShows(syscalls, evs);
    ToldSomething(syscalls, evs);
    EmitterMarks.ToldSoFar(Run(syscalls, evs), KnownAfter(evs), EmitterMarks.Told(syscalls, evs));
  }
}
