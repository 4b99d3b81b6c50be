/** The trace converter: kernel events become slices on the tracks of threads, locks and processors. */
module EmitterSpec {
  import opened Basics
  import opened EmitterNames

  type Tid = int
  type Pid = int
  type Uid = nat

  const UNKNOWN_TID: Tid := 999999999
  const KERNEL_TID: Tid := -1
  const FIRST_UID: Uid := 42

  // ---------- the input ----------

  datatype Thread = Thread(pid: Pid, name: string, prio: int)

  /** A kernel event. An event without a thread carries the kernel's thread number. */
  datatype Ev = Ev(tid: Tid, cpu: Cpu, body: Body)

  datatype Body =
    | ThreadCreate(info: Thread)
    | ProcessExec(info: Thread)
    | LockName(lid: Lid, name: string)
    | ThreadPriority(prio: int)
    | ThreadEnd
    | Syscall(begin: bool, n: nat)
    | Interrupt(begin: bool, irq: nat)
    | InLockSet(begin: bool, lid: Lid)
    | Locked(begin: bool, lid: Lid)
    | Sched(begin: bool)
    | Runnable(begin: bool)
    | Plain(name: string, lock: Option<Lid>)

  // ---------- the output ----------

  datatype Phase = Begin | End | Instant

  datatype Label = Process(pid: Pid, name: string) | ThreadOf(pid: Pid, tid: Tid) | Named(name: string)

  datatype Packet =
    | Descriptor(uuid: Uid, parent: Option<Uid>, what: Label)
    | Slice(phase: Phase, name: string, track: Uid)
    | Counter(value: int, track: Uid)

  // ---------- the state ----------

  /** What a track is for; a processor also has a number for its flow arrows. */
  datatype Slot =
    | Cpus | Kernel
    | Proc(pid: Pid)
    | Root(tid: Tid) | SchedOf(tid: Tid) | EventsOf(tid: Tid) | PrioOf(tid: Tid)
    | LockOf(tid: Tid, lid: Lid)
    | CpuTrack(cpu: Cpu) | Flow(cpu: Cpu) | KernelCpu(cpu: Cpu)

  /** The begun slices of one name, the most recent last. */
  datatype Stack = Stack(name: string, packets: seq<Packet>)

  datatype State = State(
    log: seq<Packet>, uid: Uid, started: bool, ok: bool,
    slots: map<Slot, Uid>, threads: map<Tid, Thread>, emitted: set<Tid>,
    ongoing: map<Tid, seq<Stack>>, lockNames: map<Lid, string>,
    prevCpu: map<Cpu, Packet>, prevRunning: map<Cpu, Packet>)

  const INITIAL := State([], FIRST_UID, false, true, map[], map[], {}, map[], map[], map[], map[])

  /** The track of a slot; 0, which is no track's number, if it has none. */
  function UidOf(slots: map<Slot, Uid>, a: Slot): Uid {
    if a in slots then slots[a] else 0
  }

  function StacksOf(ongoing: map<Tid, seq<Stack>>, tid: Tid): seq<Stack> {
    if tid in ongoing then ongoing[tid] else []
  }

  // ---------- single steps ----------

  function Put(s: State, p: Packet): State { s.(log := s.log + [p]) }

  /** Give a slot the next number. */
  function Alloc(s: State, a: Slot): State {
    s.(uid := s.uid + 1, slots := s.slots[a := s.uid])
  }

  function Describe(s: State, a: Slot, parent: Option<Slot>, what: Label): State {
    Put(s, Descriptor(UidOf(s.slots, a), if parent.Some? then Some(UidOf(s.slots, parent.value)) else None, what))
  }

  /** An exception: nothing more is emitted. */
  function Raise(s: State): State { s.(ok := false) }

  // ---------- stacks ----------

  function PushOn(stacks: seq<Stack>, p: Packet): seq<Stack>
    requires p.Slice?
  {
    if stacks == [] then [Stack(p.name, [p])]
    else if stacks[0].name == p.name then [Stack(p.name, stacks[0].packets + [p])] + stacks[1..]
    else [stacks[0]] + PushOn(stacks[1..], p)
  }

  predicate HasTop(stacks: seq<Stack>, name: string) {
    stacks != [] && if stacks[0].name == name then stacks[0].packets != [] else HasTop(stacks[1..], name)
  }

  function PopFrom(stacks: seq<Stack>, name: string): seq<Stack>
    requires HasTop(stacks, name)
  {
    if stacks[0].name == name then
      [Stack(name, stacks[0].packets[..|stacks[0].packets| - 1])] + stacks[1..]
    else [stacks[0]] + PopFrom(stacks[1..], name)
  }

  function Ended(p: Packet): Packet {
    if p.Slice? then p.(phase := End) else p
  }

  function Ends(ps: seq<Packet>): seq<Packet> {
    seq(|ps|, k requires 0 <= k < |ps| => Ended(ps[k]))
  }

  function All(stacks: seq<Stack>): seq<Packet> {
    if stacks == [] then [] else stacks[0].packets + All(stacks[1..])
  }

  // ---------- the parts of an event ----------

  function Start(s: State): State {
    var s1 := Describe(Alloc(s, Cpus), Cpus, None, Named("CPUs"));
    var s2 := Describe(Alloc(s1, Kernel), Kernel, None, Named("KERNEL"));
    s2.(started := true,
        threads := s2.threads[UNKNOWN_TID := Thread(999999999, "UNKNOWN", 999)],
        ongoing := s2.ongoing[KERNEL_TID := []])
  }

  function KnownThread(threads: map<Tid, Thread>, tid: Tid): Thread {
    if tid in threads then threads[tid]
    else if UNKNOWN_TID in threads then threads[UNKNOWN_TID]
    else Thread(999999999, "UNKNOWN", 999)
  }

  function AllocThread(s: State, tid: Tid): State {
    Alloc(Alloc(Alloc(Alloc(s.(ongoing := s.ongoing[tid := []]), Root(tid)), SchedOf(tid)), EventsOf(tid)), PrioOf(tid))
  }

  function AddProcess(s: State, t: Thread): State {
    if Proc(t.pid) in s.slots then s else Describe(Alloc(s, Proc(t.pid)), Proc(t.pid), None, Process(t.pid, "'" + t.name + "'"))
  }

  function DescribeThread(s: State, tid: Tid, pid: Pid): State {
    var s1 := Describe(s, Root(tid), None, ThreadOf(pid, tid));
    var s2 := Describe(s1, SchedOf(tid), Some(Root(tid)), Named("sched"));
    var s3 := Describe(s2, EventsOf(tid), Some(Root(tid)), Named("events"));
    Describe(s3, PrioOf(tid), Some(Root(tid)), Named("prio"))
  }

  function ChangePrio(s: State, tid: Tid, prio: int): State {
    Put(s, Counter(prio, UidOf(s.slots, PrioOf(tid))))
  }

  /** The first event of a thread introduces it: its process, if that is new, and its four tracks. */
  function Introduce(s: State, tid: Tid): State {
    var t := KnownThread(s.threads, tid);
    var s1 := ChangePrio(DescribeThread(AddProcess(AllocThread(s, tid), t), tid, t.pid), tid, t.prio);
    s1.(emitted := s1.emitted + {tid})
  }

  function NeedTrack(s: State, a: Slot, parent: Slot, name: string): State {
    if a in s.slots then s else Describe(Alloc(s, a), a, Some(parent), Named(name))
  }

  /** A processor's track comes with a number for its flow arrows. */
  function NeedCpu(s: State, cpu: Cpu): State {
    if CpuTrack(cpu) in s.slots then s
    else Describe(Alloc(Alloc(s, CpuTrack(cpu)), Flow(cpu)), CpuTrack(cpu), Some(Cpus), Named("CPU " + Dec(cpu)))
  }

  /** Emit a slice on a track: begin it and remember it, end it if it was begun, or just mark an instant. */
  function EmitSlice(s: State, tid: Tid, phase: Phase, name: string, track: Uid): State {
    var p := Slice(phase, name, track);
    var stacks := StacksOf(s.ongoing, tid);
    match phase
    case Begin => Put(s, p).(ongoing := s.ongoing[tid := PushOn(stacks, p)])
    case End => if HasTop(stacks, name) then Put(s, p).(ongoing := s.ongoing[tid := PopFrom(stacks, name)]) else s
    case Instant => Put(s, p)
  }

  function SlotFor(tid: Tid, place: Place): Slot {
    match place
    case OnEvents => EventsOf(tid)
    case OnSched => SchedOf(tid)
    case OnLock(lid) => LockOf(tid, lid)
  }

  /** The kernel's slices go to the processor's own kernel track. */
  function EmitAt(s: State, tid: Tid, cpu: Cpu, phase: Phase, name: string, place: Place): State {
    if tid == KERNEL_TID then
      var s1 := NeedTrack(s, KernelCpu(cpu), Kernel, "CPU " + Dec(cpu));
      EmitSlice(s1, tid, phase, name, UidOf(s1.slots, KernelCpu(cpu)))
    else
      var s1 := if place.OnLock? then NeedTrack(s, LockOf(tid, place.lid), Root(tid), "locked") else s;
      EmitSlice(s1, tid, phase, name, UidOf(s1.slots, SlotFor(tid, place)))
  }

  function EndAll(s: State, tid: Tid): State {
    s.(log := s.log + Ends(All(StacksOf(s.ongoing, tid))), ongoing := s.ongoing[tid := []])
  }

  /** The thread now running on a processor, on the thread's own track. */
  function SwitchRunning(s: State, tid: Tid, cpu: Cpu): State {
    var s1 := if cpu in s.prevRunning then Put(s, Ended(s.prevRunning[cpu])) else s;
    var p := Slice(Begin, RunName(cpu), UidOf(s1.slots, SchedOf(tid)));
    Put(s1, p).(prevRunning := s1.prevRunning[cpu := p])
  }

  /** The same on the processor's track, unless the thread was already running there. */
  function SwitchCpu(s: State, tid: Tid, cpu: Cpu): State {
    var tname := ThreadName(KnownThread(s.threads, tid).name, tid);
    var s1 := NeedCpu(s, cpu);
    if cpu in s1.prevCpu && s1.prevCpu[cpu].Slice? && s1.prevCpu[cpu].name == tname then s1
    else
      var s2 := if cpu in s1.prevCpu then Put(s1, Ended(s1.prevCpu[cpu])) else s1;
      var p := Slice(Begin, tname, UidOf(s2.slots, CpuTrack(cpu)));
      SwitchRunning(Put(s2, p).(prevCpu := s2.prevCpu[cpu := p]), tid, cpu)
  }

  function NameOfLock(lockNames: map<Lid, string>, lid: Lid): string {
    if lid in lockNames then lockNames[lid] else "0x" + Digits(16, lid)
  }

  /** Whether a word stands in a text. */
  predicate Within(w: string, t: string) {
    |w| <= |t| && (t[..|w|] == w || (t != "" && Within(w, t[1..])))
  }

  function PhaseOf(begin: bool): Phase { if begin then Begin else End }

  /** An event of a thread that has been introduced, or of the kernel. */
  function Handle(s: State, syscalls: seq<string>, ev: Ev): State
    requires !ev.body.ThreadCreate?
  {
    var tid, cpu := ev.tid, ev.cpu;
    match ev.body
    case ProcessExec(info) =>
      if tid !in s.threads then Raise(s)
      else
        var s1 := s.(threads := s.threads[tid := info]);
        if Proc(info.pid) !in s.slots then Raise(s1)
        else Describe(s1, Proc(info.pid), None, Process(info.pid, "'" + info.name + "'"))
    case LockName(lid, name) => s.(lockNames := s.lockNames[lid := name])
    case ThreadPriority(prio) => if tid == KERNEL_TID then Raise(s) else ChangePrio(s, tid, prio)
    case ThreadEnd => EmitAt(EndAll(s, tid), tid, cpu, Instant, "thread_end", OnEvents)
    case Syscall(begin, n) =>
      if n >= |syscalls| then Raise(s) else EmitAt(s, tid, cpu, PhaseOf(begin), SYSCALL + syscalls[n], OnEvents)
    case Interrupt(begin, irq) => EmitAt(s, tid, cpu, PhaseOf(begin), IRQ + Dec(irq), OnEvents)
    case InLockSet(begin, lid) =>
      EmitAt(s, tid, cpu, PhaseOf(begin), LockSetName(NameOfLock(s.lockNames, lid), lid), OnEvents)
    case Locked(begin, lid) =>
      if tid == KERNEL_TID then Raise(s)
      else EmitAt(s, tid, cpu, PhaseOf(begin), LockedName(NameOfLock(s.lockNames, lid), lid), OnLock(lid))
    case Sched(begin) => EmitAt(s, tid, cpu, PhaseOf(begin), SCHED, OnEvents)
    case Runnable(begin) =>
      if tid == KERNEL_TID then Raise(s)
      else
        var s1 := EmitAt(s, tid, cpu, PhaseOf(begin), RUNNABLE, OnSched);
        if begin then s1 else SwitchCpu(s1, tid, cpu)
    case Plain(name, lock) =>
      if !Within("lock_", name) then EmitAt(s, tid, cpu, Instant, name, OnEvents)
      else if lock.None? then Raise(s)
      else EmitAt(s, tid, cpu, Instant, name + "(" + NameOfLock(s.lockNames, lock.value) + ")", OnEvents)
  }

  function Emit(s: State, syscalls: seq<string>, ev: Ev): State {
    if !s.ok then s
    else
      var s1 := if s.started then s else Start(s);
      if ev.body.ThreadCreate? then s1.(threads := s1.threads[ev.tid := ev.body.info])
      else
        var s2 := if ev.tid != KERNEL_TID && ev.tid !in s1.emitted then Introduce(s1, ev.tid) else s1;
        Handle(s2, syscalls, ev)
  }

  /** A whole trace, from the start. */
  function Run(syscalls: seq<string>, evs: seq<Ev>): State
    decreases |evs|
  {
    if evs == [] then INITIAL else Emit(Run(syscalls, evs[..|evs| - 1]), syscalls, evs[|evs| - 1])
  }
}
