/** What the events alone tell of a run: when an exception stops it, and what each thread holds. */
module EmitterEvents {
  import opened Basics
  import opened EmitterNames
  import opened EmitterSpec
  import opened EmitterLog
  import opened EmitterCore
  import opened EmitterSlices
  import opened EmitterSafety
  import opened EmitterRuns

  // ---------- what is known after some events ----------

  /** The threads by their meta events, those seen at work, the processes these belong to, and the names of the locks. */
  datatype Knowledge = Knowledge(threads: map<Tid, Thread>, seen: set<Tid>, pids: set<Pid>, lockNames: map<Lid, string>)

  const NOTHING_KNOWN := Knowledge(map[UNKNOWN_TID := Thread(999999999, "UNKNOWN", 999)], {}, {}, map[])

  /** A thread at work for the first time brings in its process. */
  function Meet(k: Knowledge, tid: Tid): Knowledge {
    if tid == KERNEL_TID || tid in k.seen then k
    else k.(seen := k.seen + {tid}, pids := k.pids + {KnownThread(k.threads, tid).pid})
  }

  function Learn(k: Knowledge, ev: Ev): Knowledge {
    if ev.body.ThreadCreate? then k.(threads := k.threads[ev.tid := ev.body.info])
    else
      var k1 := Meet(k, ev.tid);
      match ev.body
      case ProcessExec(info) => k1.(threads := k1.threads[ev.tid := info])
      case LockName(lid, name) => k1.(lockNames := k1.lockNames[lid := name])
      case _ => k1
  }

  function KnownAfter(evs: seq<Ev>): Knowledge
    decreases |evs|
  {
    if evs == [] then NOTHING_KNOWN else Learn(KnownAfter(evs[..|evs| - 1]), evs[|evs| - 1])
  }

  /** The events that raise an exception: exec of an unknown thread or process, a system call without a name, a lock
      event without a lock, and kernel events that belong on a thread's tracks. */
  predicate Fails(syscalls: seq<string>, k: Knowledge, ev: Ev) {
    match ev.body
    case ProcessExec(info) => ev.tid !in k.threads || info.pid !in Meet(k, ev.tid).pids
    case ThreadPriority(_) => ev.tid == KERNEL_TID
    case Syscall(_, n) => n >= |syscalls|
    case Locked(_, _) => ev.tid == KERNEL_TID
    case Runnable(_) => ev.tid == KERNEL_TID
    case Plain(name, lock) => Within("lock_", name) && lock.None?
    case _ => false
  }

  /** Some event has raised an exception. */
  predicate Stopped(syscalls: seq<string>, evs: seq<Ev>)
    decreases |evs|
  {
    evs != [] &&
    (Stopped(syscalls, evs[..|evs| - 1]) || Fails(syscalls, KnownAfter(evs[..|evs| - 1]), evs[|evs| - 1]))
  }

  /** The slice that an event begins or ends. */
  function SliceOf(syscalls: seq<string>, lockNames: map<Lid, string>, ev: Ev): Option<(bool, string)> {
    match ev.body
    case Syscall(begin, n) => if n < |syscalls| then Some((begin, SYSCALL + syscalls[n])) else None
    case Interrupt(begin, irq) => Some((begin, IRQ + Dec(irq)))
    case InLockSet(begin, lid) => Some((begin, LockSetName(NameOfLock(lockNames, lid), lid)))
    case Locked(begin, lid) => if ev.tid == KERNEL_TID then None else Some((begin, LockedName(NameOfLock(lockNames, lid), lid)))
    case Sched(begin) => Some((begin, SCHED))
    case Runnable(begin) => if ev.tid == KERNEL_TID then None else Some((begin, RUNNABLE))
    case _ => None
  }

  /** How many slices of a name a thread holds: a begin adds one, an end takes one if there is one, and the end of
      the thread takes all. */
  function HeldStep(h: nat, syscalls: seq<string>, lockNames: map<Lid, string>, ev: Ev, tid: Tid, name: string): nat {
    if ev.tid != tid then h
    else if ev.body.ThreadEnd? then 0
    else
      match SliceOf(syscalls, lockNames, ev)
      case None => h
      case Some((begin, n)) => Held(h, begin, n == name)
  }

  function Held(h: nat, begin: bool, same: bool): nat {
    if !same then h else if begin then h + 1 else if h > 0 then h - 1 else 0
  }

  function HeldCount(syscalls: seq<string>, evs: seq<Ev>, tid: Tid, name: string): nat
    decreases |evs|
  {
    if evs == [] then 0
    else
      var front := evs[..|evs| - 1];
      var before := HeldCount(syscalls, front, tid, name);
      if Stopped(syscalls, front) then before
      else HeldStep(before, syscalls, KnownAfter(front).lockNames, evs[|evs| - 1], tid, name)
  }

  // ---------- steps that teach nothing ----------

  /** The same is known, and no exception has been raised in between. */
  ghost predicate SameKnown(s: State, s': State) {
    && s'.ok == s.ok && s'.started == s.started && s'.threads == s.threads && s'.emitted == s.emitted && s'.lockNames == s.lockNames
    && forall p :: Proc(p) in s'.slots <==> Proc(p) in s.slots
  }

  lemma SameAgain(s: State, s': State)
    requires s' == s.(log := s'.log, prevCpu := s'.prevCpu, prevRunning := s'.prevRunning, ongoing := s'.ongoing)
    ensures SameKnown(s, s')
  {
  }

  lemma SameChain(s: State, s1: State, s2: State)
    requires SameKnown(s, s1) && SameKnown(s1, s2)
    ensures SameKnown(s, s2)
  {
  }

  lemma NeedTrackSame(s: State, a: Slot, parent: Slot, name: string)
    requires !a.Proc?
    ensures SameKnown(s, NeedTrack(s, a, parent, name)) && NeedTrack(s, a, parent, name).ongoing == s.ongoing
  {
    hide UidOf;
  }

  lemma EmitSliceSame(s: State, tid: Tid, phase: Phase, name: string, track: Uid)
    ensures SameKnown(s, EmitSlice(s, tid, phase, name, track))
  {
    hide EmitSlice, SameKnown;
    EmitSliceRest(s, tid, phase, name, track);
    SameAgain(s, EmitSlice(s, tid, phase, name, track));
  }

  lemma NeedCpuSame(s: State, cpu: Cpu)
    ensures SameKnown(s, NeedCpu(s, cpu)) && NeedCpu(s, cpu).ongoing == s.ongoing
  {
    hide UidOf, Dec;
  }

  lemma SwitchRunningSame(s: State, tid: Tid, cpu: Cpu)
    ensures SameKnown(s, SwitchRunning(s, tid, cpu)) && SwitchRunning(s, tid, cpu).ongoing == s.ongoing
  {
    hide SwitchRunning, SameKnown;
    SwitchRunningRest(s, tid, cpu);
    SameAgain(s, SwitchRunning(s, tid, cpu));
  }

  lemma SwitchCpuSame(s: State, tid: Tid, cpu: Cpu)
    ensures SameKnown(s, SwitchCpu(s, tid, cpu)) && SwitchCpu(s, tid, cpu).ongoing == s.ongoing
  {
    hide ThreadName, KnownThread, NeedCpu, SwitchRunning, UidOf, Ended, SameKnown;
    NeedCpuSame(s, cpu);
    var s1 := NeedCpu(s, cpu);
    var s2 := if cpu in s1.prevCpu then Put(s1, Ended(s1.prevCpu[cpu])) else s1;
    var p := Slice(Begin, ThreadName(KnownThread(s.threads, tid).name, tid), UidOf(s2.slots, CpuTrack(cpu)));
    var s3 := Put(s2, p).(prevCpu := s2.prevCpu[cpu := p]);
    SameAgain(s1, s3);
    SwitchRunningSame(s3, tid, cpu);
    SameChain(s, s1, s3);
    SameChain(s, s3, SwitchRunning(s3, tid, cpu));
  }

  // ---------- what a step does to the stacks ----------

  lemma SliceStacks(s: State, tid: Tid, phase: Phase, name: string, track: Uid, t: Tid)
    ensures var s', stacks := EmitSlice(s, tid, phase, name, track), StacksOf(s.ongoing, t);
      StacksOf(s'.ongoing, t) ==
        if t != tid || phase.Instant? then stacks
        else if phase.Begin? then PushOn(stacks, Slice(Begin, name, track))
        else if HasTop(stacks, name) then PopFrom(stacks, name) else stacks
  {
    hide PushOn, PopFrom, HasTop;
  }

  lemma StackStep(stacks: seq<Stack>, begin: bool, name: string, track: Uid, n: string)
    ensures var stacks' := if begin then PushOn(stacks, Slice(Begin, name, track))
          else if HasTop(stacks, name) then PopFrom(stacks, name) else stacks;
      |OfName(stacks', n)| == Held(|OfName(stacks, n)|, begin, name == n)
  {
    hide PushOn, PopFrom, HasTop, OfName;
    PushOfName(stacks, Slice(Begin, name, track), n);
    PopOfName(stacks, name, n);
    PopOfName(stacks, name, name);
  }

  /** How many slices of a name a thread has on its stack. */
  function HeldIn(s: State, tid: Tid, name: string): nat { |OfName(StacksOf(s.ongoing, tid), name)| }

  lemma EmitAtHolds(s: State, t: Tid, cpu: Cpu, phase: Phase, m: string, place: Place, tid: Tid, name: string)
    ensures var s' := EmitAt(s, t, cpu, phase, m, place);
      && SameKnown(s, s')
      && HeldIn(s', tid, name) ==
           if t != tid || phase.Instant? then HeldIn(s, tid, name) else Held(HeldIn(s, tid, name), phase.Begin?, m == name)
  {
    hide NeedTrack, EmitSlice, Dec, PushOn, PopFrom, HasTop, OfName, StacksOf, SameKnown, Held;
    var a := if t == KERNEL_TID then KernelCpu(cpu) else SlotFor(t, place);
    var parent := if t == KERNEL_TID then Kernel else Root(t);
    var title := if t == KERNEL_TID then "CPU " + Dec(cpu) else "locked";
    var needed := t == KERNEL_TID || place.OnLock?;
    var s1 := if needed then NeedTrack(s, a, parent, title) else s;
    NeedTrackSame(s, a, parent, title);
    SameAgain(s, s);
    var track := UidOf(s1.slots, a);
    EmitSliceSame(s1, t, phase, m, track);
    SameChain(s, s1, EmitSlice(s1, t, phase, m, track));
    SliceStacks(s1, t, phase, m, track, tid);
    StackStep(StacksOf(s1.ongoing, tid), phase.Begin?, m, track, name);
  }

  lemma EndAllHolds(s: State, t: Tid, tid: Tid, name: string)
    ensures SameKnown(s, EndAll(s, t)) && HeldIn(EndAll(s, t), tid, name) == if t == tid then 0 else HeldIn(s, tid, name)
  {
    hide All, Ends;
  }

  /** What an event that raises no exception does to what is known and held. */
  ghost predicate Handled(s: State, s': State, syscalls: seq<string>, ev: Ev, tid: Tid, name: string) {
    && SameKnown(s, s')
    && HeldIn(s', tid, name) == HeldStep(HeldIn(s, tid, name), syscalls, s.lockNames, ev, tid, name)
  }

  /** An event that is neither meta nor stopped. */
  predicate AtWork(syscalls: seq<string>, ev: Ev) {
    match ev.body
    case ThreadCreate(_) => false
    case ProcessExec(_) => false
    case LockName(_, _) => false
    case ThreadPriority(_) => ev.tid != KERNEL_TID
    case Syscall(_, n) => n < |syscalls|
    case Locked(_, _) => ev.tid != KERNEL_TID
    case Runnable(_) => ev.tid != KERNEL_TID
    case Plain(name, lock) => !(Within("lock_", name) && lock.None?)
    case _ => true
  }

  lemma RunnableHolds(s: State, syscalls: seq<string>, ev: Ev, tid: Tid, name: string)
    requires ev.body.Runnable? && ev.tid != KERNEL_TID
    ensures Handled(s, Handle(s, syscalls, ev), syscalls, ev, tid, name)
  {
    hide EmitAt, SwitchCpu, SameKnown, Held, OfName, StacksOf;
    var begin := ev.body.begin;
    EmitAtHolds(s, ev.tid, ev.cpu, PhaseOf(begin), RUNNABLE, OnSched, tid, name);
    var s1 := EmitAt(s, ev.tid, ev.cpu, PhaseOf(begin), RUNNABLE, OnSched);
    SwitchCpuSame(s1, ev.tid, ev.cpu);
    SameChain(s, s1, SwitchCpu(s1, ev.tid, ev.cpu));
  }

  lemma ThreadEndHolds(s: State, syscalls: seq<string>, ev: Ev, tid: Tid, name: string)
    requires ev.body.ThreadEnd?
    ensures Handled(s, Handle(s, syscalls, ev), syscalls, ev, tid, name)
  {
    hide EmitAt, EndAll, SameKnown, HeldIn, Held;
    EndAllHolds(s, ev.tid, tid, name);
    var s1 := EndAll(s, ev.tid);
    EmitAtHolds(s1, ev.tid, ev.cpu, Instant, "thread_end", OnEvents, tid, name);
    SameChain(s, s1, EmitAt(s1, ev.tid, ev.cpu, Instant, "thread_end", OnEvents));
  }

  lemma PlainHolds(s: State, syscalls: seq<string>, ev: Ev, tid: Tid, name: string)
    requires ev.body.Plain? && AtWork(syscalls, ev)
    ensures Handled(s, Handle(s, syscalls, ev), syscalls, ev, tid, name)
  {
    hide EmitAt, SameKnown, HeldIn, Held, NameOfLock, Within;
    EmitAtHolds(s, ev.tid, ev.cpu, Instant, ev.body.name, OnEvents, tid, name);
    if ev.body.lock.Some? {
      EmitAtHolds(s, ev.tid, ev.cpu, Instant, ev.body.name + "(" + NameOfLock(s.lockNames, ev.body.lock.value) + ")", OnEvents, tid, name);
    }
  }

  lemma PrioHolds(s: State, syscalls: seq<string>, ev: Ev, tid: Tid, name: string)
    requires ev.body.ThreadPriority? && ev.tid != KERNEL_TID
    ensures Handled(s, Handle(s, syscalls, ev), syscalls, ev, tid, name)
  {
    hide UidOf, OfName;
  }

  lemma HandleHolds(s: State, syscalls: seq<string>, ev: Ev, tid: Tid, name: string)
    requires AtWork(syscalls, ev)
    ensures Handled(s, Handle(s, syscalls, ev), syscalls, ev, tid, name)
  {
    hide EmitAt, EndAll, SwitchCpu, Dec, LockSetName, LockedName, NameOfLock, ChangePrio, Within, Describe, SameKnown, HeldIn, Held, Digits;
    var t, cpu := ev.tid, ev.cpu;
    match ev.body {
      case ThreadPriority(_) => PrioHolds(s, syscalls, ev, tid, name);
      case ThreadEnd => ThreadEndHolds(s, syscalls, ev, tid, name);
      case Syscall(begin, n) => EmitAtHolds(s, t, cpu, PhaseOf(begin), SYSCALL + syscalls[n], OnEvents, tid, name);
      case Interrupt(begin, irq) => EmitAtHolds(s, t, cpu, PhaseOf(begin), IRQ + Dec(irq), OnEvents, tid, name);
      case InLockSet(begin, lid) =>
        EmitAtHolds(s, t, cpu, PhaseOf(begin), LockSetName(NameOfLock(s.lockNames, lid), lid), OnEvents, tid, name);
      case Locked(begin, lid) =>
        EmitAtHolds(s, t, cpu, PhaseOf(begin), LockedName(NameOfLock(s.lockNames, lid), lid), OnLock(lid), tid, name);
      case Sched(begin) => EmitAtHolds(s, t, cpu, PhaseOf(begin), SCHED, OnEvents, tid, name);
      case Runnable(begin) => RunnableHolds(s, syscalls, ev, tid, name);
      case Plain(_, _) => PlainHolds(s, syscalls, ev, tid, name);
    }
  }

  // ---------- the run and what is known ----------

  ghost predicate Knows(s: State, k: Knowledge) {
    && s.started && s.ok && s.threads == k.threads && s.emitted == k.seen && s.lockNames == k.lockNames
    && forall p :: Proc(p) in s.slots <==> p in k.pids
  }

  lemma StartKnows(s: State)
    requires s == INITIAL
    ensures Knows(Start(s), NOTHING_KNOWN)
    ensures forall tid, name :: HeldIn(Start(s), tid, name) == HeldIn(s, tid, name) == 0
  {
    hide UidOf;
  }

  lemma IntroduceKnows(s: State, k: Knowledge, tid: Tid)
    requires Knows(s, k) && Inv(s) && tid != KERNEL_TID && tid !in s.emitted
    ensures Knows(Introduce(s, tid), Meet(k, tid))
    ensures forall t, name :: HeldIn(Introduce(s, tid), t, name) == HeldIn(s, t, name)
  {
    hide Core, KnownThread, AllocThread, DescribeThread, AddProcess, OfName;
    InvShape(s);
    NotYet(s, tid);
    var t := KnownThread(s.threads, tid);
    AllocThreadFields(s, tid);
    AllocThreadMore(s, tid);
    var s1 := AllocThread(s, tid);
    AddProcessFields(s1, t);
    AddProcessMore(s1, t);
    DescribeThreadFields(AddProcess(s1, t), tid, t.pid);
  }

  lemma AllocThreadMore(s: State, tid: Tid)
    ensures AllocThread(s, tid).ok == s.ok && AllocThread(s, tid).lockNames == s.lockNames
  {
  }

  lemma AddProcessMore(s: State, t: Thread)
    ensures AddProcess(s, t).ok == s.ok && AddProcess(s, t).lockNames == s.lockNames && AddProcess(s, t).threads == s.threads
  {
    hide UidOf;
  }

  lemma ExecKnows(s: State, k: Knowledge, syscalls: seq<string>, ev: Ev)
    requires Knows(s, k) && ev.body.ProcessExec?
    ensures var fails := ev.tid !in k.threads || ev.body.info.pid !in k.pids; var s' := Handle(s, syscalls, ev);
      && s'.ok == !fails
      && (!fails ==> Knows(s', k.(threads := k.threads[ev.tid := ev.body.info])))
      && s'.ongoing == s.ongoing
  {
    hide UidOf;
  }

  lemma SameKnows(s: State, s': State, k: Knowledge)
    requires Knows(s, k) && SameKnown(s, s')
    ensures Knows(s', k)
  {
  }

  lemma FailsStops(s: State, syscalls: seq<string>, ev: Ev)
    requires !AtWork(syscalls, ev) && !ev.body.ThreadCreate? && !ev.body.ProcessExec? && !ev.body.LockName?
    ensures Handle(s, syscalls, ev) == Raise(s) && SliceOf(syscalls, s.lockNames, ev).None? && !ev.body.ThreadEnd?
  {
    hide Within, EmitAt, EndAll, SwitchCpu, ChangePrio, Describe, Dec, LockedName, LockSetName, NameOfLock, Raise;
    match ev.body {
      case ThreadPriority(_) =>
      case Syscall(_, n) => assert n >= |syscalls|;
      case Locked(_, _) =>
      case Runnable(_) =>
      case Plain(name, lock) => assert Within("lock_", name) && lock.None?;
      case _ =>
    }
  }

  /** An event handled once its thread is met. */
  lemma HandleKnows(s: State, k: Knowledge, k0: Knowledge, syscalls: seq<string>, ev: Ev, tid: Tid, name: string)
    requires Knows(s, k) && k == Meet(k0, ev.tid) && !ev.body.ThreadCreate?
    ensures Handle(s, syscalls, ev).ok == !Fails(syscalls, k0, ev)
    ensures Handle(s, syscalls, ev).ok ==> Knows(Handle(s, syscalls, ev), Learn(k0, ev))
    ensures HeldIn(Handle(s, syscalls, ev), tid, name) == HeldStep(HeldIn(s, tid, name), syscalls, k.lockNames, ev, tid, name)
  {
    hide Handle, Knows, SameKnown, KnownThread, Within, HeldIn, Dec, LockedName, LockSetName, NameOfLock, Held;
    KnowsOk(s, k);
    MeetKeeps(k0, ev.tid);
    if ev.body.ProcessExec? {
      ExecKnows(s, k, syscalls, ev);
      SameStacks(s, Handle(s, syscalls, ev), tid, name);
    } else if ev.body.LockName? {
      LockNameKnows(s, k, syscalls, ev);
      SameStacks(s, Handle(s, syscalls, ev), tid, name);
    } else if AtWork(syscalls, ev) {
      HandleHolds(s, syscalls, ev, tid, name);
      SameKnows(s, Handle(s, syscalls, ev), k);
      KnowsOk(Handle(s, syscalls, ev), k);
    } else {
      FailsStops(s, syscalls, ev);
      SameStacks(s, Raise(s), tid, name);
    }
  }

  lemma KnowsOk(s: State, k: Knowledge)
    requires Knows(s, k)
    ensures s.ok && s.lockNames == k.lockNames
  {
  }

  lemma MeetKeeps(k: Knowledge, tid: Tid)
    ensures Meet(k, tid).threads == k.threads && Meet(k, tid).lockNames == k.lockNames
  {
    hide KnownThread;
  }

  lemma SameStacks(s: State, s': State, tid: Tid, name: string)
    requires s'.ongoing == s.ongoing
    ensures HeldIn(s', tid, name) == HeldIn(s, tid, name)
  {
  }

  lemma LockNameKnows(s: State, k: Knowledge, syscalls: seq<string>, ev: Ev)
    requires Knows(s, k) && ev.body.LockName?
    ensures var s' := Handle(s, syscalls, ev);
      Knows(s', k.(lockNames := k.lockNames[ev.body.lid := ev.body.name])) && s'.ongoing == s.ongoing && s'.ok
  {
  }

  lemma CreateKnows(s: State, k: Knowledge, ev: Ev)
    requires Knows(s, k) && ev.body.ThreadCreate?
    ensures Knows(s.(threads := s.threads[ev.tid := ev.body.info]), Learn(k, ev))
  {
  }

  /** Before the first event nothing is known, and nothing has started. */
  ghost predicate Follows(s: State, k: Knowledge) {
    if s.started then Knows(s, k) else s == INITIAL && k == NOTHING_KNOWN
  }

  lemma StartedFollows(s: State, k: Knowledge, tid: Tid, name: string)
    requires Follows(s, k)
    ensures var s1 := if s.started then s else Start(s); Knows(s1, k) && HeldIn(s1, tid, name) == HeldIn(s, tid, name)
  {
    hide Start;
    if !s.started { StartKnows(s); }
  }

  lemma EmitFollows(s: State, k: Knowledge, syscalls: seq<string>, ev: Ev, tid: Tid, name: string)
    requires Inv(s) && Follows(s, k)
    ensures var s' := Emit(s, syscalls, ev);
      && s'.ok == !Fails(syscalls, k, ev)
      && (s'.ok ==> Follows(s', Learn(k, ev)))
      && HeldIn(s', tid, name) == HeldStep(HeldIn(s, tid, name), syscalls, k.lockNames, ev, tid, name)
  {
    hide Inv, Knows, Handle, Introduce, Start, HeldIn, Learn, Fails, Meet, HeldStep;
    StartedFollows(s, k, tid, name);
    var s1 := if s.started then s else Start(s);
    KnowsStarted(s1, k);
    FollowsOk(s, k);
    if !s.started { StartInv(s); }
    if ev.body.ThreadCreate? {
      CreateKnows(s1, k, ev);
      CreateHolds(syscalls, k, ev, HeldIn(s, tid, name), tid, name);
      SameStacks(s1, s1.(threads := s1.threads[ev.tid := ev.body.info]), tid, name);
      KnowsStarted(s1.(threads := s1.threads[ev.tid := ev.body.info]), Learn(k, ev));
    } else {
      MeetKeeps(k, ev.tid);
      MetAlready(k, ev.tid);
      if ev.tid != KERNEL_TID && ev.tid !in s1.emitted { IntroduceKnows(s1, k, ev.tid); }
      var s2 := if ev.tid != KERNEL_TID && ev.tid !in s1.emitted then Introduce(s1, ev.tid) else s1;
      HandleKnows(s2, Meet(k, ev.tid), k, syscalls, ev, tid, name);
      if Handle(s2, syscalls, ev).ok { KnowsStarted(Handle(s2, syscalls, ev), Learn(k, ev)); }
    }
  }

  lemma KnowsStarted(s: State, k: Knowledge)
    requires Knows(s, k)
    ensures s.started && s.ok && Follows(s, k) && s.emitted == k.seen
  {
  }

  lemma FollowsOk(s: State, k: Knowledge)
    requires Follows(s, k)
    ensures s.ok
  {
  }

  lemma MetAlready(k: Knowledge, tid: Tid)
    ensures tid == KERNEL_TID || tid in k.seen ==> Meet(k, tid) == k
  {
  }

  lemma CreateHolds(syscalls: seq<string>, k: Knowledge, ev: Ev, h: nat, tid: Tid, name: string)
    requires ev.body.ThreadCreate?
    ensures HeldStep(h, syscalls, k.lockNames, ev, tid, name) == h && !Fails(syscalls, k, ev)
  {
  }

  lemma NothingFollows(tid: Tid, name: string)
    ensures Follows(INITIAL, NOTHING_KNOWN) && HeldIn(INITIAL, tid, name) == 0
  {
  }

  lemma StoppedStays(s: State, syscalls: seq<string>, ev: Ev)
    requires !s.ok
    ensures Emit(s, syscalls, ev) == s
  {
  }

  /** The events alone tell when an exception stops the run, what is known until then, and, for each thread and name,
      how many slices are held. */
  lemma {:induction false} EventsTell(syscalls: seq<string>, evs: seq<Ev>, tid: Tid, name: string)
    ensures var s := Run(syscalls, evs);
      && (s.ok <==> !Stopped(syscalls, evs))
      && (s.ok ==> Follows(s, KnownAfter(evs)))
      && HeldIn(s, tid, name) == HeldCount(syscalls, evs, tid, name)
    decreases |evs|
  {
    hide Emit, Follows, HeldIn, HeldStep, Fails, Learn, Inv;
    if evs == [] {
      NothingFollows(tid, name);
    } else {
      var front, ev := evs[..|evs| - 1], evs[|evs| - 1];
      EventsTell(syscalls, front, tid, name);
      RunInv(syscalls, front);
      if Stopped(syscalls, front) {
        StoppedStays(Run(syscalls, front), syscalls, ev);
      } else {
        EmitFollows(Run(syscalls, front), KnownAfter(front), syscalls, ev, tid, name);
      }
    }
  }

  lemma LockNamesKnown(s: State, k: Knowledge)
    requires Follows(s, k)
    ensures s.lockNames == k.lockNames
  {
  }
}
