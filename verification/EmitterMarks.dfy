/** All that the converter writes except the ends of slices, told from the events alone. */
module EmitterMarks {
  import opened Basics
  import opened EmitterNames
  import opened EmitterSpec
  import opened EmitterCore
  import opened EmitterSlices
  import opened EmitterSafety
  import opened EmitterRuns
  import opened EmitterEvents

  // ---------- what the events show ----------

  /** A packet, with what its track is for in place of the track's number. */
  datatype Item =
    | Track(a: Slot, under: Option<Slot>, what: Label)
    | Opened(name: string, at: Slot)
    | Mark(name: string, at: Slot)
    | Value(value: int, at: Slot)

  predicate IsTrack(m: Item, a: Slot) { m.Track? && m.a == a }

  predicate Has(out: seq<Item>, a: Slot) { exists i: nat :: i < |out| && IsTrack(out[i], a) }

  /** The slice last begun at a place. */
  function LastOpened(out: seq<Item>, at: Slot): Option<string>
    decreases |out|
  {
    if out == [] then None
    else
      var m := out[|out| - 1];
      if m.Opened? && m.at == at then Some(m.name) else LastOpened(out[..|out| - 1], at)
  }

  /** The thread of a number, or the stand-in for threads that no meta event has told of. */
  function Meant(k: Knowledge, tid: Tid): Thread {
    if tid in k.threads then k.threads[tid]
    else if 999999999 in k.threads then k.threads[999999999]
    else Thread(999999999, "UNKNOWN", 999)
  }

  function LockCalled(k: Knowledge, lid: Lid): string {
    if lid in k.lockNames then k.lockNames[lid] else "0x" + Digits(16, lid)
  }

  predicate StandsAt(w: string, t: string, i: nat) { i + |w| <= |t| && t[i..i + |w|] == w }

  /** A word stands somewhere in a text. */
  predicate Contains(t: string, w: string) { exists i: nat :: i <= |t| && StandsAt(w, t, i) }

  /** A thread at work for the first time: its process, if that is new, its tracks, and its priority. */
  function Arrival(k: Knowledge, tid: Tid): seq<Item> {
    if tid == -1 || tid in k.seen then []
    else
      var t := Meant(k, tid);
      (if t.pid in k.pids then [] else [Track(Proc(t.pid), None, Process(t.pid, "'" + t.name + "'"))]) +
      [Track(Root(tid), None, ThreadOf(t.pid, tid)), Track(SchedOf(tid), Some(Root(tid)), Named("sched")),
       Track(EventsOf(tid), Some(Root(tid)), Named("events")), Track(PrioOf(tid), Some(Root(tid)), Named("prio")),
       Value(t.prio, PrioOf(tid))]
  }

  function Once(have: bool, m: Item): seq<Item> { if have then [] else [m] }

  /** The kernel's slices and marks go to its track on the processor, which is described at first use, as a lock's is. */
  function Spot(ev: Ev, a: Slot): Slot { if ev.tid == -1 then KernelCpu(ev.cpu) else a }

  function NewSpot(out: seq<Item>, ev: Ev, a: Slot): seq<Item> {
    if ev.tid == -1 then
      Once(Has(out, KernelCpu(ev.cpu)), Track(KernelCpu(ev.cpu), Some(Kernel), Named("CPU " + Dec(ev.cpu))))
    else if a.LockOf? then Once(Has(out, a), Track(a, Some(Root(ev.tid)), Named("locked")))
    else []
  }

  function Turned(out: seq<Item>, ev: Ev, begin: bool, name: string, a: Slot): seq<Item> {
    NewSpot(out, ev, a) + if begin then [Opened(name, Spot(ev, a))] else []
  }

  function Marked(out: seq<Item>, ev: Ev, name: string): seq<Item> {
    NewSpot(out, ev, EventsOf(ev.tid)) + [Mark(name, Spot(ev, EventsOf(ev.tid)))]
  }

  /** A thread scheduled on a processor, unless the processor's track shows that name already. */
  function Scheduled(out: seq<Item>, k: Knowledge, tid: Tid, cpu: Cpu): seq<Item> {
    var name := Meant(k, tid).name + " " + Dec(tid);
    Once(Has(out, CpuTrack(cpu)), Track(CpuTrack(cpu), Some(Cpus), Named("CPU " + Dec(cpu)))) +
    if LastOpened(out, CpuTrack(cpu)) == Some(name) then []
    else [Opened(name, CpuTrack(cpu)), Opened("running:cpu" + Dec(cpu), SchedOf(tid))]
  }

  function Suffix(lid: Lid): string { " (0x" + Pad8(Digits(16, lid)) + ")" }

  function Doing(syscalls: seq<string>, k: Knowledge, out: seq<Item>, ev: Ev): seq<Item> {
    var tid, cpu := ev.tid, ev.cpu;
    match ev.body
    case ThreadCreate(_) => []
    case LockName(_, _) => []
    case ProcessExec(info) =>
      if tid in k.threads && info.pid in k.pids then [Track(Proc(info.pid), None, Process(info.pid, "'" + info.name + "'"))]
      else []
    case ThreadPriority(prio) => if tid == -1 then [] else [Value(prio, PrioOf(tid))]
    case ThreadEnd => Marked(out, ev, "thread_end")
    case Syscall(begin, n) =>
      if n < |syscalls| then Turned(out, ev, begin, "syscall:" + syscalls[n], EventsOf(tid)) else []
    case Interrupt(begin, irq) => Turned(out, ev, begin, "irq:" + Dec(irq), EventsOf(tid))
    case InLockSet(begin, lid) =>
      Turned(out, ev, begin, "lockSet:" + LockCalled(k, lid) + Suffix(lid), EventsOf(tid))
    case Locked(begin, lid) =>
      if tid == -1 then [] else Turned(out, ev, begin, "locked:" + LockCalled(k, lid) + Suffix(lid), LockOf(tid, lid))
    case Sched(begin) => Turned(out, ev, begin, "sched", EventsOf(tid))
    case Runnable(begin) =>
      if tid == -1 then []
      else Turned(out, ev, begin, "runnable", SchedOf(tid)) + if begin then [] else Scheduled(out, k, tid, cpu)
    case Plain(name, lock) =>
      if !Contains(name, "lock_") then Marked(out, ev, name)
      else if lock.None? then []
      else Marked(out, ev, name + "(" + LockCalled(k, lock.value) + ")")
  }

  /** The first event of all brings in the two common tracks. */
  function ShownBy(syscalls: seq<string>, k: Knowledge, out: seq<Item>, ev: Ev): seq<Item> {
    var first := if out == [] then [Track(Cpus, None, Named("CPUs")), Track(Kernel, None, Named("KERNEL"))] else [];
    if ev.body.ThreadCreate? then first
    else first + Arrival(k, ev.tid) + Doing(syscalls, Meet(k, ev.tid), out, ev)
  }

  function Told(syscalls: seq<string>, evs: seq<Ev>): seq<Item>
    decreases |evs|
  {
    if evs == [] then []
    else
      var front := evs[..|evs| - 1];
      var out := Told(syscalls, front);
      if Stopped(syscalls, front) then out else out + ShownBy(syscalls, KnownAfter(front), out, evs[|evs| - 1])
  }

  // ---------- the log ----------

  function Packed(m: Item, slots: map<Slot, Uid>): Packet {
    match m
    case Track(a, None, what) => Descriptor(UidOf(slots, a), None, what)
    case Track(a, Some(b), what) => Descriptor(UidOf(slots, a), Some(UidOf(slots, b)), what)
    case Opened(name, at) => Slice(Begin, name, UidOf(slots, at))
    case Mark(name, at) => Slice(Instant, name, UidOf(slots, at))
    case Value(value, at) => Counter(value, UidOf(slots, at))
  }

  function Placed(out: seq<Item>, slots: map<Slot, Uid>): seq<Packet> {
    seq(|out|, i requires 0 <= i < |out| => Packed(out[i], slots))
  }

  predicate Ending(p: Packet) { p.Slice? && p.phase.End? }

  /** A log without the ends of slices. */
  function Unended(log: seq<Packet>): seq<Packet>
    decreases |log|
  {
    if log == [] then []
    else Unended(log[..|log| - 1]) + if Ending(log[|log| - 1]) then [] else [log[|log| - 1]]
  }

  predicate Grounded(m: Item, slots: map<Slot, Uid>) {
    match m
    case Track(a, None, _) => a in slots
    case Track(a, Some(b), _) => a in slots && b in slots
    case Opened(_, at) => at in slots
    case Mark(_, at) => at in slots
    case Value(_, at) => at in slots
  }

  function OnCpu(s: State, cpu: Cpu): Option<string> {
    if cpu in s.prevCpu && s.prevCpu[cpu].Slice? then Some(s.prevCpu[cpu].name) else None
  }

  function Newer(before: Option<string>, after: Option<string>): Option<string> { if after.Some? then after else before }

  ghost predicate Grows(m: map<Slot, Uid>, m': map<Slot, Uid>) { forall a :: a in m ==> a in m' && m'[a] == m[a] }

  ghost predicate AllGrounded(q: seq<Item>, slots: map<Slot, Uid>) {
    forall i :: 0 <= i < |q| ==> Grounded(q[i], slots)
  }

  /** A step that writes these packets, and ends of slices. */
  ghost predicate Adds(s: State, s': State, q: seq<Item>) {
    && Grows(s.slots, s'.slots) && AllGrounded(q, s'.slots)
    && Unended(s'.log) == Unended(s.log) + Placed(q, s'.slots)
    && forall cpu :: OnCpu(s', cpu) == Newer(OnCpu(s, cpu), LastOpened(q, CpuTrack(cpu)))
  }

  /** Tracks are described as they get their numbers. */
  ghost predicate Fills(m: map<Slot, Uid>, m': map<Slot, Uid>, q: seq<Item>) {
    forall a: Slot :: !a.Flow? ==> (a in m' <==> a in m || Has(q, a))
  }

  ghost predicate Shows(s: State, s': State, q: seq<Item>) { Adds(s, s', q) && Fills(s.slots, s'.slots, q) }

  // ---------- steps one after the other ----------

  lemma UnendedPut(log: seq<Packet>, p: Packet)
    ensures Unended(log + [p]) == Unended(log) + if Ending(p) then [] else [p]
  {
    assert (log + [p])[..|log|] == log;
  }

  lemma {:induction false} LastOfBoth(q: seq<Item>, r: seq<Item>, at: Slot)
    ensures LastOpened(q + r, at) == Newer(LastOpened(q, at), LastOpened(r, at))
    decreases |r|
  {
    if r == [] {
      assert q + r == q;
    } else {
      assert (q + r)[..|q + r| - 1] == q + r[..|r| - 1];
      LastOfBoth(q, r[..|r| - 1], at);
    }
  }

  lemma HasBoth(q: seq<Item>, r: seq<Item>, a: Slot)
    ensures Has(q + r, a) <==> Has(q, a) || Has(r, a)
  {
    var both := q + r;
    if Has(q, a) {
      var i: nat :| i < |q| && IsTrack(q[i], a);
      assert both[i] == q[i];
    }
    if Has(r, a) {
      var i: nat :| i < |r| && IsTrack(r[i], a);
      assert both[|q| + i] == r[i];
    }
    if Has(both, a) {
      var i: nat :| i < |both| && IsTrack(both[i], a);
      assert if i < |q| then IsTrack(q[i], a) else IsTrack(r[i - |q|], a);
    }
  }

  lemma PlacedLater(q: seq<Item>, slots: map<Slot, Uid>, slots': map<Slot, Uid>)
    requires AllGrounded(q, slots) && Grows(slots, slots')
    ensures AllGrounded(q, slots') && Placed(q, slots') == Placed(q, slots)
  {
    forall i | 0 <= i < |q| ensures Grounded(q[i], slots') && Packed(q[i], slots') == Packed(q[i], slots) {
      assert Grounded(q[i], slots);
    }
  }

  lemma PlacedBoth(q: seq<Item>, r: seq<Item>, slots: map<Slot, Uid>)
    requires AllGrounded(q, slots) && AllGrounded(r, slots)
    ensures AllGrounded(q + r, slots) && Placed(q + r, slots) == Placed(q, slots) + Placed(r, slots)
  {
    hide Grounded, Packed;
  }

  lemma AddsBoth(s: State, s1: State, s2: State, q: seq<Item>, r: seq<Item>)
    requires Adds(s, s1, q) && Adds(s1, s2, r)
    ensures Adds(s, s2, q + r)
  {
    hide AllGrounded, Placed, Unended, LastOpened, OnCpu;
    PlacedLater(q, s1.slots, s2.slots);
    PlacedBoth(q, r, s2.slots);
    assert Unended(s.log) + Placed(q, s2.slots) + Placed(r, s2.slots) == Unended(s.log) + (Placed(q, s2.slots) + Placed(r, s2.slots));
    forall cpu ensures OnCpu(s2, cpu) == Newer(OnCpu(s, cpu), LastOpened(q + r, CpuTrack(cpu))) {
      LastOfBoth(q, r, CpuTrack(cpu));
    }
  }

  lemma ShowsBoth(s: State, s1: State, s2: State, q: seq<Item>, r: seq<Item>)
    requires Shows(s, s1, q) && Shows(s1, s2, r)
    ensures Shows(s, s2, q + r)
  {
    hide Adds, Has;
    AddsBoth(s, s1, s2, q, r);
    forall a: Slot | !a.Flow? ensures a in s2.slots <==> a in s.slots || Has(q + r, a) {
      HasBoth(q, r, a);
    }
  }

  lemma Silent(s: State, s': State)
    requires s'.log == s.log && s'.slots == s.slots && s'.prevCpu == s.prevCpu
    ensures Shows(s, s', [])
  {
    assert Placed([], s.slots) == [];
    assert Unended(s.log) + [] == Unended(s.log);
  }

  lemma LastOfOne(m: Item, at: Slot)
    ensures LastOpened([m], at) == if m.Opened? && m.at == at then Some(m.name) else None
  {
    assert [m][..0] == [];
  }

  /** One more packet. */
  lemma PutShows(s: State, s': State, m: Item)
    requires Grounded(m, s.slots) && s'.slots == s.slots && s'.log == s.log + [Packed(m, s.slots)]
    requires forall cpu :: OnCpu(s', cpu) == if m.Opened? && m.at == CpuTrack(cpu) then Some(m.name) else OnCpu(s, cpu)
    requires m.Track? ==> m.a in s.slots
    ensures Shows(s, s', [m])
  {
    hide Unended, Packed, Grounded, OnCpu, LastOpened;
    UnendedPut(s.log, Packed(m, s.slots));
    NotEnding(m, s.slots);
    assert Placed([m], s.slots) == [Packed(m, s.slots)];
    forall cpu ensures OnCpu(s', cpu) == Newer(OnCpu(s, cpu), LastOpened([m], CpuTrack(cpu))) {
      LastOfOne(m, CpuTrack(cpu));
    }
    forall a: Slot | !a.Flow? ensures a in s'.slots <==> a in s.slots || Has([m], a) {
      assert Has([m], a) ==> IsTrack(m, a);
    }
  }

  lemma NotEnding(m: Item, slots: map<Slot, Uid>)
    ensures !Ending(Packed(m, slots))
  {
  }

  lemma EndShows(s: State, s': State, p: Packet)
    requires Ending(p) && s'.slots == s.slots && s'.log == s.log + [p] && s'.prevCpu == s.prevCpu
    ensures Shows(s, s', [])
  {
    hide Unended;
    UnendedPut(s.log, p);
    assert Placed([], s.slots) == [];
    assert Unended(s.log) + [] == Unended(s.log);
  }

  lemma DescribeShows(s: State, a: Slot, parent: Option<Slot>, what: Label)
    requires a in s.slots && (parent.Some? ==> parent.value in s.slots)
    ensures Shows(s, Describe(s, a, parent, what), [Track(a, parent, what)])
  {
    hide Shows, LastOpened;
    PutShows(s, Describe(s, a, parent, what), Track(a, parent, what));
  }

  /** Numbers given out, and nothing written. */
  lemma QuietAdds(s: State, s': State)
    requires s'.log == s.log && s'.prevCpu == s.prevCpu && Grows(s.slots, s'.slots)
    ensures Adds(s, s', [])
  {
    assert Placed([], s'.slots) == [];
    assert Unended(s.log) + [] == Unended(s.log);
  }

  lemma NeedTrackShows(s: State, a: Slot, parent: Slot, name: string)
    requires parent in s.slots && a != parent
    ensures var s' := NeedTrack(s, a, parent, name);
      a in s'.slots && Shows(s, s', Once(a in s.slots, Track(a, Some(parent), Named(name))))
  {
    hide Adds, Describe, LastOpened;
    if a in s.slots {
      Silent(s, s);
    } else {
      var m := Track(a, Some(parent), Named(name));
      QuietAdds(s, Alloc(s, a));
      DescribeShows(Alloc(s, a), a, Some(parent), Named(name));
      assert [] + [m] == [m];
      AddsBoth(s, Alloc(s, a), NeedTrack(s, a, parent, name), [], [m]);
      OnlyTrack(m);
      DescribeSlots(Alloc(s, a), a, Some(parent), Named(name));
    }
  }

  lemma OnlyTrack(m: Item)
    requires m.Track?
    ensures forall b :: Has([m], b) <==> b == m.a
  {
    forall b ensures Has([m], b) <==> b == m.a {
      assert Has([m], b) ==> IsTrack([m][0], b);
      assert IsTrack(m, b) ==> IsTrack([m][0], b);
    }
  }

  lemma DescribeSlots(s: State, a: Slot, parent: Option<Slot>, what: Label)
    ensures Describe(s, a, parent, what).slots == s.slots
  {
  }

  // ---------- the parts of an event ----------

  /** Slices and marks on a thread's or the kernel's track. */
  lemma EmitSliceShows(s: State, tid: Tid, phase: Phase, name: string, a: Slot)
    requires a in s.slots && !a.CpuTrack?
    ensures Shows(s, EmitSlice(s, tid, phase, name, s.slots[a]),
      match phase case Begin => [Opened(name, a)] case Instant => [Mark(name, a)] case End => [])
  {
    hide Shows, PushOn, PopFrom, HasTop, StacksOf;
    var s' := EmitSlice(s, tid, phase, name, s.slots[a]);
    match phase {
      case Begin => PutShows(s, s', Opened(name, a));
      case Instant => PutShows(s, s', Mark(name, a));
      case End =>
        if s'.log == s.log { Silent(s, s'); } else { EndShows(s, s', Slice(End, name, s.slots[a])); }
    }
  }

  /** Tracks that are described when they are first used. */
  predicate Late(a: Slot) { a.KernelCpu? || a.LockOf? || a.CpuTrack? }

  /** Of these, the tracks at hand are those told of. */
  ghost predicate Tells(s: State, out: seq<Item>) {
    forall a: Slot :: Late(a) ==> (a in s.slots <==> Has(out, a))
  }

  function Emitted(phase: Phase, name: string, at: Slot): seq<Item> {
    match phase case Begin => [Opened(name, at)] case Instant => [Mark(name, at)] case End => []
  }

  lemma EmitAtShows(s: State, out: seq<Item>, ev: Ev, phase: Phase, name: string, place: Place)
    requires Inv(s) && Active(s, ev.tid) && Tells(s, out)
    ensures Shows(s, EmitAt(s, ev.tid, ev.cpu, phase, name, place),
      NewSpot(out, ev, SlotFor(ev.tid, place)) + Emitted(phase, name, Spot(ev, SlotFor(ev.tid, place))))
  {
    hide Inv, Shows, EmitSlice, NeedTrack, Dec, Has, Once;
    Known(s, ev.tid);
    var a := Spot(ev, SlotFor(ev.tid, place));
    var parent := if ev.tid == KERNEL_TID then Kernel else Root(ev.tid);
    var title := if ev.tid == KERNEL_TID then "CPU " + Dec(ev.cpu) else "locked";
    var news := NewSpot(out, ev, SlotFor(ev.tid, place));
    var s1 := if ev.tid == KERNEL_TID || place.OnLock? then NeedTrack(s, a, parent, title) else s;
    NeedTrackShows(s, a, parent, title);
    Silent(s, s);
    EmitSliceShows(s1, ev.tid, phase, name, a);
    ShowsBoth(s, s1, EmitSlice(s1, ev.tid, phase, name, s1.slots[a]), news, Emitted(phase, name, a));
  }

  lemma NeedCpuShows(s: State, cpu: Cpu)
    requires Inv(s) && s.started
    ensures var s' := NeedCpu(s, cpu);
      && CpuTrack(cpu) in s'.slots && s'.prevCpu == s.prevCpu && s'.prevRunning == s.prevRunning && Grows(s.slots, s'.slots)
      && Shows(s, s', Once(CpuTrack(cpu) in s.slots, Track(CpuTrack(cpu), Some(Cpus), Named("CPU " + Dec(cpu)))))
  {
    hide Core, Adds, Describe, LastOpened, Dec, Unended, Has;
    var a, f := CpuTrack(cpu), Flow(cpu);
    if a in s.slots {
      Silent(s, s);
    } else {
      var m := Track(a, Some(Cpus), Named("CPU " + Dec(cpu)));
      var s2 := Alloc(Alloc(s, a), f);
      assert f !in s.slots;
      QuietAdds(s, s2);
      DescribeShows(s2, a, Some(Cpus), Named("CPU " + Dec(cpu)));
      assert [] + [m] == [m];
      AddsBoth(s, s2, NeedCpu(s, cpu), [], [m]);
      OnlyTrack(m);
      DescribeRest(s2, a, Some(Cpus), Named("CPU " + Dec(cpu)));
      assert NeedCpu(s, cpu).slots == s.slots[a := s.uid][f := s.uid + 1];
    }
  }

  lemma DescribeRest(s: State, a: Slot, parent: Option<Slot>, what: Label)
    ensures var s' := Describe(s, a, parent, what); s' == s.(log := s'.log)
  {
    hide UidOf;
  }

  /** What was shown on a processor before is a slice to be ended. */
  ghost predicate PrevSlices(m: map<Cpu, Packet>) { forall cpu :: cpu in m ==> m[cpu].Slice? }

  lemma PrevAreSlices(s: State)
    requires Inv(s)
    ensures PrevSlices(s.prevCpu) && PrevSlices(s.prevRunning)
  {
    hide SlotsOk, DescOk, SlicesOk, Shape;
  }

  lemma SwitchRunningShows(s: State, tid: Tid, cpu: Cpu)
    requires SchedOf(tid) in s.slots && PrevSlices(s.prevRunning)
    ensures Shows(s, SwitchRunning(s, tid, cpu), [Opened("running:cpu" + Dec(cpu), SchedOf(tid))])
  {
    hide Shows, Dec;
    var s1 := if cpu in s.prevRunning then Put(s, Ended(s.prevRunning[cpu])) else s;
    if cpu in s.prevRunning { EndShows(s, s1, Ended(s.prevRunning[cpu])); } else { Silent(s, s1); }
    var m := Opened("running:cpu" + Dec(cpu), SchedOf(tid));
    PutShows(s1, SwitchRunning(s, tid, cpu), m);
    assert [] + [m] == [m];
    ShowsBoth(s, s1, SwitchRunning(s, tid, cpu), [], [m]);
  }

  /** The slice that a processor's track now shows. */
  lemma ShowCpu(s: State, cpu: Cpu, name: string, s': State, p: Packet)
    requires CpuTrack(cpu) in s.slots && PrevSlices(s.prevCpu)
    requires p == Slice(Begin, name, s.slots[CpuTrack(cpu)])
    requires s' == Put(if cpu in s.prevCpu then Put(s, Ended(s.prevCpu[cpu])) else s, p).(prevCpu := s.prevCpu[cpu := p])
    ensures Shows(s, s', [Opened(name, CpuTrack(cpu))])
  {
    hide Shows;
    var s1 := if cpu in s.prevCpu then Put(s, Ended(s.prevCpu[cpu])) else s;
    if cpu in s.prevCpu { EndShows(s, s1, Ended(s.prevCpu[cpu])); } else { Silent(s, s1); }
    var m := Opened(name, CpuTrack(cpu));
    PutShows(s1, s', m);
    assert [] + [m] == [m];
    ShowsBoth(s, s1, s', [], [m]);
  }

  /** The processor's track shows the thread last begun there. */
  ghost predicate OnCpus(s: State, out: seq<Item>) {
    forall cpu :: OnCpu(s, cpu) == LastOpened(out, CpuTrack(cpu))
  }

  lemma SwitchCpuShows(s: State, out: seq<Item>, k: Knowledge, tid: Tid, cpu: Cpu)
    requires Inv(s) && Active(s, tid) && tid != KERNEL_TID && Tells(s, out) && OnCpus(s, out) && s.threads == k.threads
    ensures Shows(s, SwitchCpu(s, tid, cpu), Scheduled(out, k, tid, cpu))
  {
    hide Inv, Shows, Dec, NeedCpu, SwitchRunning, Ended, Has, LastOpened, Once;
    PrevAreSlices(s);
    Known(s, tid);
    NeedCpuShows(s, cpu);
    NeedCpuFields(s, cpu);
    var name := Meant(k, tid).name + " " + Dec(tid);
    assert ThreadName(KnownThread(s.threads, tid).name, tid) == name;
    assert OnCpu(s, cpu) == LastOpened(out, CpuTrack(cpu));
    var s1 := NeedCpu(s, cpu);
    var q := Once(Has(out, CpuTrack(cpu)), Track(CpuTrack(cpu), Some(Cpus), Named("CPU " + Dec(cpu))));
    if LastOpened(out, CpuTrack(cpu)) == Some(name) {
      assert SwitchCpu(s, tid, cpu) == s1;
      assert q + [] == q;
    } else {
      var p := Slice(Begin, name, s1.slots[CpuTrack(cpu)]);
      var s2 := Put(if cpu in s1.prevCpu then Put(s1, Ended(s1.prevCpu[cpu])) else s1, p).(prevCpu := s1.prevCpu[cpu := p]);
      ShowCpu(s1, cpu, name, s2, p);
      assert SwitchCpu(s, tid, cpu) == SwitchRunning(s2, tid, cpu);
      SwitchRunningShows(s2, tid, cpu);
      var m, n := Opened(name, CpuTrack(cpu)), Opened("running:cpu" + Dec(cpu), SchedOf(tid));
      ShowsBoth(s, s1, s2, q, [m]);
      ShowsBoth(s, s2, SwitchRunning(s2, tid, cpu), q + [m], [n]);
      assert q + [m] + [n] == q + [m, n];
    }
  }

  // ---------- new threads ----------

  /** A thread's four tracks. */
  function FourTracks(tid: Tid, pid: Pid): seq<Item> {
    [Track(Root(tid), None, ThreadOf(pid, tid)), Track(SchedOf(tid), Some(Root(tid)), Named("sched")),
     Track(EventsOf(tid), Some(Root(tid)), Named("events")), Track(PrioOf(tid), Some(Root(tid)), Named("prio"))]
  }

  lemma DescribeThreadShows(s: State, tid: Tid, pid: Pid)
    requires HasTracks(s.slots, tid)
    ensures Adds(s, DescribeThread(s, tid, pid), FourTracks(tid, pid)) && DescribeThread(s, tid, pid).slots == s.slots
  {
    hide Adds, Describe, Has;
    var s1 := Describe(s, Root(tid), None, ThreadOf(pid, tid));
    DescribeRest(s, Root(tid), None, ThreadOf(pid, tid));
    DescribeShows(s, Root(tid), None, ThreadOf(pid, tid));
    var s2 := Describe(s1, SchedOf(tid), Some(Root(tid)), Named("sched"));
    DescribeRest(s1, SchedOf(tid), Some(Root(tid)), Named("sched"));
    DescribeShows(s1, SchedOf(tid), Some(Root(tid)), Named("sched"));
    var s3 := Describe(s2, EventsOf(tid), Some(Root(tid)), Named("events"));
    DescribeRest(s2, EventsOf(tid), Some(Root(tid)), Named("events"));
    DescribeShows(s2, EventsOf(tid), Some(Root(tid)), Named("events"));
    var s4 := Describe(s3, PrioOf(tid), Some(Root(tid)), Named("prio"));
    DescribeRest(s3, PrioOf(tid), Some(Root(tid)), Named("prio"));
    DescribeShows(s3, PrioOf(tid), Some(Root(tid)), Named("prio"));
    var q := FourTracks(tid, pid);
    AddsBoth(s, s1, s2, [q[0]], [q[1]]);
    AddsBoth(s, s2, s3, [q[0]] + [q[1]], [q[2]]);
    AddsBoth(s, s3, s4, [q[0]] + [q[1]] + [q[2]], [q[3]]);
    assert q == [q[0]] + [q[1]] + [q[2]] + [q[3]];
  }

  function NewProcess(have: bool, t: Thread): seq<Item> {
    if have then [] else [Track(Proc(t.pid), None, Process(t.pid, "'" + t.name + "'"))]
  }

  lemma AddProcessShows(s: State, t: Thread)
    ensures Adds(s, AddProcess(s, t), NewProcess(Proc(t.pid) in s.slots, t))
    ensures AddProcess(s, t) == s.(log := AddProcess(s, t).log, slots := AddProcess(s, t).slots, uid := AddProcess(s, t).uid)
  {
    hide Adds, Describe, Has;
    var a, what := Proc(t.pid), Process(t.pid, "'" + t.name + "'");
    if a in s.slots {
      Silent(s, s);
    } else {
      QuietAdds(s, Alloc(s, a));
      DescribeShows(Alloc(s, a), a, None, what);
      DescribeRest(Alloc(s, a), a, None, what);
      AddsBoth(s, Alloc(s, a), AddProcess(s, t), [], [Track(a, None, what)]);
      assert [] + [Track(a, None, what)] == [Track(a, None, what)];
    }
  }

  lemma AllocThreadAdds(s: State, tid: Tid)
    requires Root(tid) !in s.slots && SchedOf(tid) !in s.slots && EventsOf(tid) !in s.slots && PrioOf(tid) !in s.slots
    ensures Adds(s, AllocThread(s, tid), []) && HasTracks(AllocThread(s, tid).slots, tid)
  {
    hide Adds;
    QuietAdds(s, AllocThread(s, tid));
  }

  lemma ArrivalTracks(k: Knowledge, tid: Tid, a: Slot)
    requires tid != -1 && tid !in k.seen
    ensures Has(Arrival(k, tid), a) <==>
      || a in {Root(tid), SchedOf(tid), EventsOf(tid), PrioOf(tid)}
      || (Meant(k, tid).pid !in k.pids && a == Proc(Meant(k, tid).pid))
  {
    hide Meant, Has;
    var t := Meant(k, tid);
    var value := [Value(t.prio, PrioOf(tid))];
    var front := NewProcess(t.pid in k.pids, t);
    assert Arrival(k, tid) == front + (FourTracks(tid, t.pid) + value);
    HasBoth(front, FourTracks(tid, t.pid) + value, a);
    HasBoth(FourTracks(tid, t.pid), value, a);
    NoTrack(value[0], a);
    FourHave(tid, t.pid, a);
    if t.pid in k.pids { NoneHas(a); } else { OnlyTrack(front[0]); }
  }

  lemma NoneHas(a: Slot)
    ensures !Has([], a)
  {
  }

  lemma NoTrack(m: Item, a: Slot)
    requires !m.Track?
    ensures !Has([m], a)
  {
  }

  lemma FourHave(tid: Tid, pid: Pid, a: Slot)
    ensures Has(FourTracks(tid, pid), a) <==> a in {Root(tid), SchedOf(tid), EventsOf(tid), PrioOf(tid)}
  {
    var q := FourTracks(tid, pid);
    assert IsTrack(q[0], Root(tid)) && IsTrack(q[1], SchedOf(tid)) && IsTrack(q[2], EventsOf(tid)) && IsTrack(q[3], PrioOf(tid));
  }

  lemma IntroduceSlots(s: State, tid: Tid, a: Slot)
    ensures a in Introduce(s, tid).slots <==>
      || a in s.slots || a in {Root(tid), SchedOf(tid), EventsOf(tid), PrioOf(tid)}
      || a == Proc(KnownThread(s.threads, tid).pid)
  {
    hide KnownThread, AllocThread, DescribeThread, AddProcess;
    var t := KnownThread(s.threads, tid);
    AllocThreadFields(s, tid);
    AddProcessFields(AllocThread(s, tid), t);
    DescribeThreadFields(AddProcess(AllocThread(s, tid), t), tid, t.pid);
  }

  lemma IntroduceShows(s: State, k: Knowledge, tid: Tid)
    requires Inv(s) && Knows(s, k) && tid != KERNEL_TID && tid !in k.seen
    ensures Shows(s, Introduce(s, tid), Arrival(k, tid))
  {
    hide Core, KnownThread, Meant, AllocThread, DescribeThread, AddProcess, ChangePrio, Adds, Has;
    InvShape(s);
    NotYet(s, tid);
    SameThread(s, k, tid);
    var t := Meant(k, tid);
    var s1 := AllocThread(s, tid);
    AllocThreadAdds(s, tid);
    AllocThreadFields(s, tid);
    var s2 := AddProcess(s1, t);
    AddProcessShows(s1, t);
    AddProcessFields(s1, t);
    var s3 := DescribeThread(s2, tid, t.pid);
    DescribeThreadShows(s2, tid, t.pid);
    var s4 := ChangePrio(s3, tid, t.prio);
    PrioShows(s3, tid, t.prio);
    var s5 := Introduce(s, tid);
    assert s5 == s4.(emitted := s4.emitted + {tid});
    Silent(s4, s5);
    var p, q, r := NewProcess(t.pid in k.pids, t), FourTracks(tid, t.pid), [Value(t.prio, PrioOf(tid))];
    AddsBoth(s, s1, s2, [], p);
    AddsBoth(s, s2, s3, [] + p, q);
    AddsBoth(s, s3, s4, [] + p + q, r);
    AddsBoth(s, s4, s5, [] + p + q + r, []);
    assert [] + p + q + r + [] == Arrival(k, tid);
    forall a: Slot | !a.Flow? ensures a in s5.slots <==> a in s.slots || Has(Arrival(k, tid), a) {
      ArrivalTracks(k, tid, a);
      IntroduceSlots(s, tid, a);
    }
  }

  lemma SameThread(s: State, k: Knowledge, tid: Tid)
    requires s.threads == k.threads
    ensures KnownThread(s.threads, tid) == Meant(k, tid)
  {
  }

  lemma PrioShows(s: State, tid: Tid, prio: int)
    requires PrioOf(tid) in s.slots
    ensures Shows(s, ChangePrio(s, tid, prio), [Value(prio, PrioOf(tid))])
  {
    hide Shows;
    PutShows(s, ChangePrio(s, tid, prio), Value(prio, PrioOf(tid)));
  }

  // ---------- an event ----------

  lemma StartShows(s: State)
    requires s == INITIAL
    ensures Shows(s, Start(s), [Track(Cpus, None, Named("CPUs")), Track(Kernel, None, Named("KERNEL"))])
  {
    hide Adds, Describe, Has;
    var m, n := Track(Cpus, None, Named("CPUs")), Track(Kernel, None, Named("KERNEL"));
    var s1 := Alloc(s, Cpus);
    QuietAdds(s, s1);
    var s2 := Describe(s1, Cpus, None, Named("CPUs"));
    DescribeShows(s1, Cpus, None, Named("CPUs"));
    DescribeRest(s1, Cpus, None, Named("CPUs"));
    AddsBoth(s, s1, s2, [], [m]);
    var s3 := Alloc(s2, Kernel);
    QuietAdds(s2, s3);
    AddsBoth(s, s2, s3, [] + [m], []);
    var s4 := Describe(s3, Kernel, None, Named("KERNEL"));
    DescribeShows(s3, Kernel, None, Named("KERNEL"));
    DescribeRest(s3, Kernel, None, Named("KERNEL"));
    AddsBoth(s, s3, s4, [] + [m] + [], [n]);
    Silent(s4, Start(s));
    AddsBoth(s, s4, Start(s), [] + [m] + [] + [n], []);
    assert [] + [m] + [] + [n] + [] == [m] + [n] == [m, n];
    forall a: Slot | !a.Flow? ensures a in Start(s).slots <==> a in s.slots || Has([m, n], a) {
      HasBoth([m], [n], a);
      OnlyTrack(m);
      OnlyTrack(n);
    }
  }

  lemma {:induction false} EndsUnended(log: seq<Packet>, ps: seq<Packet>)
    requires forall i :: 0 <= i < |ps| ==> ps[i].Slice?
    ensures Unended(log + Ends(ps)) == Unended(log)
    decreases |ps|
  {
    if ps == [] {
      assert log + Ends(ps) == log;
    } else {
      var front := ps[..|ps| - 1];
      assert log + Ends(ps) == log + Ends(front) + [Ended(ps[|ps| - 1])];
      EndsUnended(log, front);
      UnendedPut(log + Ends(front), Ended(ps[|ps| - 1]));
    }
  }

  lemma EndAllShows(s: State, tid: Tid)
    requires Inv(s) && Active(s, tid)
    ensures Shows(s, EndAll(s, tid), []) && EndAll(s, tid).slots == s.slots
  {
    hide Unended, Ends, All, Home, DescOk, CpusOk, RunningOk, SlotsOk, Balanced;
    Known(s, tid);
    HeldBegun(tid, s.ongoing[tid], s.slots);
    EndsUnended(s.log, All(s.ongoing[tid]));
    assert Placed([], s.slots) == [];
    assert Unended(s.log) + [] == Unended(s.log);
  }

  lemma {:induction false} WithinMeans(w: string, t: string)
    ensures Within(w, t) <==> Contains(t, w)
    decreases |t|
  {
    if |w| <= |t| && t[..|w|] == w {
      assert StandsAt(w, t, 0);
    } else if t == "" {
      assert !Contains(t, w);
    } else {
      WithinMeans(w, t[1..]);
      if Contains(t[1..], w) {
        var i: nat :| i <= |t[1..]| && StandsAt(w, t[1..], i);
        assert StandsAt(w, t, i + 1);
      }
      if Contains(t, w) {
        var i: nat :| i <= |t| && StandsAt(w, t, i);
        assert i > 0 && StandsAt(w, t[1..], i - 1);
      }
    }
  }

  lemma LockNamed(s: State, k: Knowledge, lid: Lid)
    requires s.lockNames == k.lockNames
    ensures NameOfLock(s.lockNames, lid) == LockCalled(k, lid)
  {
  }

  /** What is at hand before an event is handled, its thread having been met. */
  ghost predicate Ready(s: State, k: Knowledge, out: seq<Item>, tid: Tid) {
    Inv(s) && Active(s, tid) && Knows(s, k) && Tells(s, out) && OnCpus(s, out)
  }

  lemma ReadyFacts(s: State, k: Knowledge, out: seq<Item>, tid: Tid)
    requires Ready(s, k, out, tid)
    ensures Inv(s) && Active(s, tid) && Tells(s, out) && OnCpus(s, out)
    ensures s.threads == k.threads && s.lockNames == k.lockNames && s.ok && forall p :: Proc(p) in s.slots <==> p in k.pids
  {
  }

  lemma EmptySpot(q: seq<Item>, r: seq<Item>)
    ensures [] + q == q && q + [] == q && q + ([] + r) == q + r
  {
  }

  lemma EndThreadShows(s: State, k: Knowledge, out: seq<Item>, syscalls: seq<string>, ev: Ev)
    requires Ready(s, k, out, ev.tid) && ev.body.ThreadEnd?
    ensures Shows(s, Handle(s, syscalls, ev), Doing(syscalls, k, out, ev))
  {
    hide Ready, Inv, Shows, EmitAt, EndAll, Has, Dec, Core, OnCpus;
    ReadyFacts(s, k, out, ev.tid);
    EndAllShows(s, ev.tid);
    EndAllInv(s, ev.tid);
    var s1 := EndAll(s, ev.tid);
    EmitAtShows(s1, out, ev, Instant, "thread_end", OnEvents);
    var q := Marked(out, ev, "thread_end");
    ShowsBoth(s, s1, EmitAt(s1, ev.tid, ev.cpu, Instant, "thread_end", OnEvents), [], q);
    assert [] + q == q;
  }

  lemma RunnableShows(s: State, k: Knowledge, out: seq<Item>, syscalls: seq<string>, ev: Ev)
    requires Ready(s, k, out, ev.tid) && ev.body.Runnable? && ev.tid != KERNEL_TID
    ensures Shows(s, Handle(s, syscalls, ev), Doing(syscalls, k, out, ev))
  {
    hide Ready, Inv, Shows, EmitAt, SwitchCpu, Has, Dec, Scheduled, PlaceOf, IsRunning, OnCpus, Tells;
    ReadyFacts(s, k, out, ev.tid);
    var begin := ev.body.begin;
    EmitAtShows(s, out, ev, PhaseOf(begin), RUNNABLE, OnSched);
    var s1 := EmitAt(s, ev.tid, ev.cpu, PhaseOf(begin), RUNNABLE, OnSched);
    if begin {
      var q := Turned(out, ev, true, RUNNABLE, SchedOf(ev.tid));
      assert q + [] == q;
    } else {
      OtherPlaces("", 0, "", 0);
      EmitAtInv(s, ev.tid, ev.cpu, End, RUNNABLE, OnSched);
      EmptySpot([], Scheduled(out, k, ev.tid, ev.cpu));
      StillReady(s, s1, out, []);
      EmitAtHolds(s, ev.tid, ev.cpu, End, RUNNABLE, OnSched, ev.tid, "");
      SameThreads(s, s1);
      SwitchCpuShows(s1, out, k, ev.tid, ev.cpu);
      ShowsBoth(s, s1, SwitchCpu(s1, ev.tid, ev.cpu), [], Scheduled(out, k, ev.tid, ev.cpu));
    }
  }

  lemma SameThreads(s: State, s': State)
    requires SameKnown(s, s')
    ensures s'.threads == s.threads
  {
  }

  /** No slice, and none of the tracks that are described when they are first used. */
  ghost predicate Early(q: seq<Item>) {
    forall i :: 0 <= i < |q| ==> !q[i].Opened? && (q[i].Track? ==> !Late(q[i].a))
  }

  lemma {:induction false} EarlyOpensNone(q: seq<Item>, at: Slot)
    requires Early(q)
    ensures LastOpened(q, at) == None
    decreases |q|
  {
    if q != [] { EarlyOpensNone(q[..|q| - 1], at); }
  }

  /** What matters to slices is as it was. */
  lemma StillReady(s: State, s': State, out: seq<Item>, q: seq<Item>)
    requires Shows(s, s', q) && Early(q) && Tells(s, out) && OnCpus(s, out)
    ensures Tells(s', out) && OnCpus(s', out)
  {
    hide Unended, Placed, OnCpu, LastOpened;
    forall cpu ensures OnCpu(s', cpu) == LastOpened(out, CpuTrack(cpu)) {
      EarlyOpensNone(q, CpuTrack(cpu));
    }
    forall a: Slot | Late(a) ensures a in s'.slots <==> Has(out, a) {
      assert !Has(q, a);
    }
  }

  lemma PlainShows(s: State, k: Knowledge, out: seq<Item>, syscalls: seq<string>, ev: Ev)
    requires Ready(s, k, out, ev.tid) && ev.body.Plain?
    ensures Shows(s, Handle(s, syscalls, ev), Doing(syscalls, k, out, ev))
  {
    hide Ready, Inv, Shows, EmitAt, Has, Dec, Within, Contains, NameOfLock, LockCalled, OnCpus, Tells;
    ReadyFacts(s, k, out, ev.tid);
    var name := ev.body.name;
    WithinMeans("lock_", name);
    if !Within("lock_", name) {
      EmitAtShows(s, out, ev, Instant, name, OnEvents);
    } else if ev.body.lock.None? {
      Silent(s, Raise(s));
    } else {
      LockNamed(s, k, ev.body.lock.value);
      EmitAtShows(s, out, ev, Instant, name + "(" + NameOfLock(s.lockNames, ev.body.lock.value) + ")", OnEvents);
    }
  }

  lemma ExecShows(s: State, k: Knowledge, out: seq<Item>, syscalls: seq<string>, ev: Ev)
    requires Ready(s, k, out, ev.tid) && ev.body.ProcessExec?
    ensures Shows(s, Handle(s, syscalls, ev), Doing(syscalls, k, out, ev))
  {
    hide Ready, Inv, Shows, Describe;
    ReadyFacts(s, k, out, ev.tid);
    var info, s' := ev.body.info, Handle(s, syscalls, ev);
    if ev.tid in k.threads && info.pid in k.pids {
      var s1 := s.(threads := s.threads[ev.tid := info]);
      var m := Track(Proc(info.pid), None, Process(info.pid, "'" + info.name + "'"));
      Silent(s, s1);
      DescribeShows(s1, Proc(info.pid), None, m.what);
      ShowsBoth(s, s1, s', [], [m]);
      assert [] + [m] == [m];
    } else {
      Silent(s, s');
    }
  }

  /** The slices of system calls, interrupts, locks and the scheduler. */
  lemma SliceShows(s: State, k: Knowledge, out: seq<Item>, syscalls: seq<string>, ev: Ev)
    requires Ready(s, k, out, ev.tid)
    requires ev.body.Syscall? || ev.body.Interrupt? || ev.body.InLockSet? || ev.body.Locked? || ev.body.Sched?
    ensures Shows(s, Handle(s, syscalls, ev), Doing(syscalls, k, out, ev))
  {
    hide Ready, Inv, Shows, EmitAt, Has, Dec, NameOfLock, LockCalled, OnCpus, Tells, Pad8, Digits, NewSpot;
    ReadyFacts(s, k, out, ev.tid);
    Silent(s, Raise(s));
    match ev.body {
      case Syscall(begin, n) => if n < |syscalls| { EmitAtShows(s, out, ev, PhaseOf(begin), SYSCALL + syscalls[n], OnEvents); }
      case Interrupt(begin, irq) => EmitAtShows(s, out, ev, PhaseOf(begin), IRQ + Dec(irq), OnEvents);
      case InLockSet(begin, lid) =>
        LockNamed(s, k, lid);
        EmitAtShows(s, out, ev, PhaseOf(begin), LockSetName(NameOfLock(s.lockNames, lid), lid), OnEvents);
      case Locked(begin, lid) =>
        LockNamed(s, k, lid);
        EmitAtShows(s, out, ev, PhaseOf(begin), LockedName(NameOfLock(s.lockNames, lid), lid), OnLock(lid));
      case Sched(begin) => EmitAtShows(s, out, ev, PhaseOf(begin), SCHED, OnEvents);
    }
  }

  lemma HandleShows(s: State, k: Knowledge, out: seq<Item>, syscalls: seq<string>, ev: Ev)
    requires Ready(s, k, out, ev.tid) && !ev.body.ThreadCreate?
    ensures Shows(s, Handle(s, syscalls, ev), Doing(syscalls, k, out, ev))
  {
    hide Inv, Shows, EmitAt, Has, Dec, ChangePrio, Describe, OnCpus, Tells;
    match ev.body {
      case ProcessExec(_) => ExecShows(s, k, out, syscalls, ev);
      case LockName(_, _) => Silent(s, Handle(s, syscalls, ev));
      case ThreadPriority(prio) =>
        if ev.tid == KERNEL_TID { Silent(s, Raise(s)); } else { Known(s, ev.tid); PrioShows(s, ev.tid, prio); }
      case ThreadEnd => EndThreadShows(s, k, out, syscalls, ev);
      case Runnable(_) =>
        if ev.tid == KERNEL_TID { Silent(s, Raise(s)); } else { RunnableShows(s, k, out, syscalls, ev); }
      case Plain(_, _) => PlainShows(s, k, out, syscalls, ev);
      case _ => SliceShows(s, k, out, syscalls, ev);
    }
  }

  // ---------- a whole run ----------

  function First(out: seq<Item>): seq<Item> {
    if out == [] then [Track(Cpus, None, Named("CPUs")), Track(Kernel, None, Named("KERNEL"))] else []
  }

  lemma ArrivalEarly(out: seq<Item>, k: Knowledge, tid: Tid)
    ensures Early(First(out)) && Early(First(out) + Arrival(k, tid))
  {
    hide Meant;
  }

  lemma StartedShows(s: State, k: Knowledge, out: seq<Item>)
    requires Inv(s) && Follows(s, k) && (s.started <==> out != [])
    ensures var s1 := if s.started then s else Start(s); Inv(s1) && Knows(s1, k) && Shows(s, s1, First(out))
  {
    hide Inv, Start, Shows, Knows;
    if s.started {
      Silent(s, s);
    } else {
      StartInv(s);
      StartShows(s);
      StartKnows(s);
    }
  }

  lemma MetShows(s: State, k: Knowledge, tid: Tid)
    requires Inv(s) && Knows(s, k)
    ensures var s2 := if tid != KERNEL_TID && tid !in s.emitted then Introduce(s, tid) else s;
      Inv(s2) && Active(s2, tid) && Knows(s2, Meet(k, tid)) && Shows(s, s2, Arrival(k, tid))
  {
    hide Inv, Introduce, Shows, Knows, Arrival;
    KnowsStarted(s, k);
    MetAlready(k, tid);
    if tid != KERNEL_TID && tid !in s.emitted {
      IntroduceInv(s, tid);
      IntroduceShows(s, k, tid);
      IntroduceKnows(s, k, tid);
    } else {
      ArrivedBefore(k, tid);
      Silent(s, s);
    }
  }

  lemma ArrivedBefore(k: Knowledge, tid: Tid)
    requires tid == KERNEL_TID || tid in k.seen
    ensures Arrival(k, tid) == []
  {
  }

  lemma EmitShows(s: State, k: Knowledge, out: seq<Item>, syscalls: seq<string>, ev: Ev)
    requires Inv(s) && Follows(s, k) && (s.started <==> out != []) && Tells(s, out) && OnCpus(s, out)
    ensures Shows(s, Emit(s, syscalls, ev), ShownBy(syscalls, k, out, ev))
  {
    hide Inv, Follows, Start, Introduce, Handle, Shows, Knows, Arrival, Doing, Tells, OnCpus, Meet, Early;
    FollowsOk(s, k);
    StartedShows(s, k, out);
    var s1 := if s.started then s else Start(s);
    if ev.body.ThreadCreate? {
      Silent(s1, Emit(s, syscalls, ev));
      ShowsBoth(s, s1, Emit(s, syscalls, ev), First(out), []);
      assert First(out) + [] == First(out);
    } else {
      MetShows(s1, k, ev.tid);
      var s2 := if ev.tid != KERNEL_TID && ev.tid !in s1.emitted then Introduce(s1, ev.tid) else s1;
      var q := First(out) + Arrival(k, ev.tid);
      ShowsBoth(s, s1, s2, First(out), Arrival(k, ev.tid));
      ArrivalEarly(out, k, ev.tid);
      StillReady(s, s2, out, q);
      HandleShows(s2, Meet(k, ev.tid), out, syscalls, ev);
      ShowsBoth(s, s2, Handle(s2, syscalls, ev), q, Doing(syscalls, Meet(k, ev.tid), out, ev));
    }
  }

  lemma NothingShown(cpu: Cpu)
    ensures OnCpu(INITIAL, cpu) == None
  {
  }

  /** What a run has shown tells whether it has begun. */
  lemma ToldSoFar(s: State, k: Knowledge, out: seq<Item>)
    requires Inv(s) && Follows(s, k) && Shows(INITIAL, s, out)
    ensures (s.started <==> out != []) && Tells(s, out) && OnCpus(s, out)
  {
    hide Core, Knows, OnCpu, LastOpened;
    assert Unended(INITIAL.log) == [];
    if s.started {
      assert Has(out, Cpus);
    } else {
      assert Unended(s.log) == [] && |Placed(out, s.slots)| == |out|;
    }
    forall cpu ensures OnCpu(s, cpu) == LastOpened(out, CpuTrack(cpu)) {
      NothingShown(cpu);
    }
  }

  lemma {:induction false} RunShows(syscalls: seq<string>, evs: seq<Ev>)
    ensures Shows(INITIAL, Run(syscalls, evs), Told(syscalls, evs))
    decreases |evs|
  {
    hide Inv, Emit, Follows, Shows, ShownBy, HeldIn, HeldCount, Tells, OnCpus;
    if evs == [] {
      Silent(INITIAL, INITIAL);
    } else {
      var front, ev := evs[..|evs| - 1], evs[|evs| - 1];
      var s, out := Run(syscalls, front), Told(syscalls, front);
      RunShows(syscalls, front);
      RunInv(syscalls, front);
      EventsTell(syscalls, front, 0, "");
      if Stopped(syscalls, front) {
        StoppedStays(s, syscalls, ev);
      } else {
        ToldSoFar(s, KnownAfter(front), out);
        EmitShows(s, KnownAfter(front), out, syscalls, ev);
        ShowsBoth(INITIAL, s, Emit(s, syscalls, ev), out, ShownBy(syscalls, KnownAfter(front), out, ev));
      }
    }
  }

  /** Without the ends of slices the log is, packet by packet and in order, what the events tell, each packet on the
      track of what it is for. */
  lemma LogTold(syscalls: seq<string>, evs: seq<Ev>)
    ensures var s := Run(syscalls, evs);
      Unended(s.log) == Placed(Told(syscalls, evs), s.slots) && AllGrounded(Told(syscalls, evs), s.slots)
  {
    hide Run, Told, Placed, LastOpened, AllGrounded;
    RunShows(syscalls, evs);
    assert [] + Placed(Told(syscalls, evs), Run(syscalls, evs).slots) == Placed(Told(syscalls, evs), Run(syscalls, evs).slots);
  }

  // ---------- the marks and the priorities ----------

  /** The mark of an event: one for the end of a thread and one for each event that is no slice, with its lock's name
      if it is about a lock. */
  function MarkOf(k: Knowledge, ev: Ev): seq<Item> {
    match ev.body
    case ThreadEnd => [Mark("thread_end", Spot(ev, EventsOf(ev.tid)))]
    case Plain(name, lock) =>
      if !Contains(name, "lock_") then [Mark(name, Spot(ev, EventsOf(ev.tid)))]
      else if lock.None? then []
      else [Mark(name + "(" + LockCalled(k, lock.value) + ")", Spot(ev, EventsOf(ev.tid)))]
    case _ => []
  }

  /** The priorities that an event shows: a new thread's own, and the one it is given. */
  function ValuesOf(k: Knowledge, ev: Ev): seq<Item> {
    if ev.tid == -1 || ev.body.ThreadCreate? then []
    else
      (if ev.tid in k.seen then [] else [Value(Meant(k, ev.tid).prio, PrioOf(ev.tid))]) +
      (if ev.body.ThreadPriority? then [Value(ev.body.prio, PrioOf(ev.tid))] else [])
  }

  /** The marks, or the priorities, of the events that no exception stands before. */
  function AllOf(marks: bool, syscalls: seq<string>, evs: seq<Ev>): seq<Item>
    decreases |evs|
  {
    if evs == [] then []
    else
      var front, ev := evs[..|evs| - 1], evs[|evs| - 1];
      var before, k := AllOf(marks, syscalls, front), KnownAfter(front);
      if Stopped(syscalls, front) then before else before + if marks then MarkOf(k, ev) else ValuesOf(k, ev)
  }

  predicate Fit(marks: bool, m: Item) { if marks then m.Mark? else m.Value? }

  function Select(marks: bool, q: seq<Item>): seq<Item>
    decreases |q|
  {
    if q == [] then [] else Select(marks, q[..|q| - 1]) + if Fit(marks, q[|q| - 1]) then [q[|q| - 1]] else []
  }

  predicate Picked(marks: bool, p: Packet) { if marks then p.Slice? && p.phase.Instant? else p.Counter? }

  /** The instants, or the counters, of a log. */
  function Pick(marks: bool, log: seq<Packet>): seq<Packet>
    decreases |log|
  {
    if log == [] then []
    else Pick(marks, log[..|log| - 1]) + if Picked(marks, log[|log| - 1]) then [log[|log| - 1]] else []
  }

  lemma {:induction false} SelectBoth(marks: bool, q: seq<Item>, r: seq<Item>)
    ensures Select(marks, q + r) == Select(marks, q) + Select(marks, r)
    decreases |r|
  {
    hide Fit;
    if r == [] {
      assert q + r == q;
    } else {
      assert (q + r)[..|q + r| - 1] == q + r[..|r| - 1];
      SelectBoth(marks, q, r[..|r| - 1]);
    }
  }

  lemma SelectOne(marks: bool, m: Item)
    ensures Select(marks, [m]) == if Fit(marks, m) then [m] else []
  {
    assert [m][..0] == [];
  }

  lemma {:induction false} SelectNone(marks: bool, q: seq<Item>)
    requires forall i :: 0 <= i < |q| ==> !Fit(marks, q[i])
    ensures Select(marks, q) == []
    decreases |q|
  {
    hide Fit;
    if q != [] { SelectNone(marks, q[..|q| - 1]); }
  }

  lemma {:induction false} PickUnended(marks: bool, log: seq<Packet>)
    ensures Pick(marks, Unended(log)) == Pick(marks, log)
    decreases |log|
  {
    if log != [] {
      var front, p := log[..|log| - 1], log[|log| - 1];
      PickUnended(marks, front);
      if Ending(p) {
        assert Unended(front) + [] == Unended(front);
      } else {
        assert (Unended(front) + [p])[..|Unended(front)|] == Unended(front);
      }
    }
  }

  lemma PickedFits(marks: bool, m: Item, slots: map<Slot, Uid>)
    ensures Picked(marks, Packed(m, slots)) == Fit(marks, m)
  {
    hide UidOf;
  }

  lemma PlacedSnoc(q: seq<Item>, m: Item, slots: map<Slot, Uid>)
    ensures Placed(q + [m], slots) == Placed(q, slots) + [Packed(m, slots)]
  {
    hide Packed;
  }

  lemma {:induction false} PickPlaced(marks: bool, q: seq<Item>, slots: map<Slot, Uid>)
    ensures Pick(marks, Placed(q, slots)) == Placed(Select(marks, q), slots)
    decreases |q|
  {
    hide Packed, Picked, Fit, Placed;
    if q == [] {
      NothingPlaced(slots);
    } else {
      var front, m := q[..|q| - 1], q[|q| - 1];
      PickPlaced(marks, front, slots);
      assert q == front + [m];
      PlacedSnoc(front, m, slots);
      assert Placed(q, slots)[..|Placed(front, slots)|] == Placed(front, slots);
      PickedFits(marks, m, slots);
      PlacedSnoc(Select(marks, front), m, slots);
      assert Select(marks, front) + [] == Select(marks, front);
    }
  }

  lemma NothingPlaced(slots: map<Slot, Uid>)
    ensures Placed([], slots) == []
  {
  }

  lemma ArrivalSelected(marks: bool, out: seq<Item>, k: Knowledge, tid: Tid)
    ensures Select(marks, First(out)) == []
    ensures Select(marks, Arrival(k, tid)) ==
      if marks || tid == -1 || tid in k.seen then [] else [Value(Meant(k, tid).prio, PrioOf(tid))]
  {
    hide Meant;
    SelectNone(marks, First(out));
    if tid == -1 || tid in k.seen { return; }
    var q, m := Arrival(k, tid)[..|Arrival(k, tid)| - 1], Value(Meant(k, tid).prio, PrioOf(tid));
    assert Arrival(k, tid) == q + [m];
    SelectNone(marks, q);
    SelectBoth(marks, q, [m]);
    SelectOne(marks, m);
  }

  lemma OnceSelected(marks: bool, have: bool, m: Item)
    requires m.Track?
    ensures Select(marks, Once(have, m)) == []
  {
    SelectNone(marks, []);
    SelectOne(marks, m);
  }

  lemma NewSpotSelected(marks: bool, out: seq<Item>, ev: Ev, a: Slot)
    ensures Select(marks, NewSpot(out, ev, a)) == []
  {
    hide Dec, Has, Select, Once;
    SelectNone(marks, []);
    var title := Named("CPU " + Dec(ev.cpu));
    OnceSelected(marks, Has(out, KernelCpu(ev.cpu)), Track(KernelCpu(ev.cpu), Some(Kernel), title));
    OnceSelected(marks, Has(out, a), Track(a, Some(Root(ev.tid)), Named("locked")));
  }

  lemma MarkedSelected(marks: bool, out: seq<Item>, ev: Ev, name: string)
    ensures Select(marks, Marked(out, ev, name)) == if marks then [Mark(name, Spot(ev, EventsOf(ev.tid)))] else []
  {
    hide NewSpot, Select;
    var m := Mark(name, Spot(ev, EventsOf(ev.tid)));
    NewSpotSelected(marks, out, ev, EventsOf(ev.tid));
    SelectBoth(marks, NewSpot(out, ev, EventsOf(ev.tid)), [m]);
    SelectOne(marks, m);
  }

  lemma TurnedSelected(marks: bool, out: seq<Item>, ev: Ev, begin: bool, name: string, a: Slot)
    ensures Select(marks, Turned(out, ev, begin, name, a)) == []
  {
    hide NewSpot, Select, Spot;
    var begun := if begin then [Opened(name, Spot(ev, a))] else [];
    NewSpotSelected(marks, out, ev, a);
    SelectNone(marks, begun);
    SelectBoth(marks, NewSpot(out, ev, a), begun);
  }

  lemma ScheduledSelected(marks: bool, out: seq<Item>, k: Knowledge, tid: Tid, cpu: Cpu)
    ensures Select(marks, Scheduled(out, k, tid, cpu)) == []
  {
    hide Dec, Has, Meant, LastOpened, Select, Once;
    var name := Meant(k, tid).name + " " + Dec(tid);
    var title := Named("CPU " + Dec(cpu));
    var begun := [Opened(name, CpuTrack(cpu)), Opened("running:cpu" + Dec(cpu), SchedOf(tid))];
    var track := Once(Has(out, CpuTrack(cpu)), Track(CpuTrack(cpu), Some(Cpus), title));
    OnceSelected(marks, Has(out, CpuTrack(cpu)), Track(CpuTrack(cpu), Some(Cpus), title));
    SelectNone(marks, begun);
    SelectBoth(marks, track, begun);
    assert track + [] == track;
  }

  /** The mark of an event, or the priority that it gives. */
  function Own(marks: bool, k: Knowledge, ev: Ev): seq<Item> {
    if marks then MarkOf(k, ev)
    else if ev.body.ThreadPriority? && ev.tid != -1 then [Value(ev.body.prio, PrioOf(ev.tid))]
    else []
  }

  lemma DoingSelected(marks: bool, syscalls: seq<string>, k: Knowledge, out: seq<Item>, ev: Ev)
    ensures Select(marks, Doing(syscalls, k, out, ev)) == Own(marks, k, ev)
  {
    hide Select, Turned, Marked, Scheduled, Contains, LockCalled, Suffix, Dec, Spot, Fit;
    SelectNone(marks, []);
    match ev.body {
      case ThreadCreate(_) =>
      case LockName(_, _) =>
      case ProcessExec(info) =>
        SelectOne(marks, Track(Proc(info.pid), None, Process(info.pid, "'" + info.name + "'")));
        FitTrack(marks, Track(Proc(info.pid), None, Process(info.pid, "'" + info.name + "'")));
      case ThreadPriority(prio) =>
        SelectOne(marks, Value(prio, PrioOf(ev.tid)));
        FitTrack(marks, Value(prio, PrioOf(ev.tid)));
      case ThreadEnd => MarkedSelected(marks, out, ev, "thread_end");
      case Syscall(begin, n) =>
        if n < |syscalls| { TurnedSelected(marks, out, ev, begin, "syscall:" + syscalls[n], EventsOf(ev.tid)); }
      case Interrupt(begin, irq) => TurnedSelected(marks, out, ev, begin, "irq:" + Dec(irq), EventsOf(ev.tid));
      case InLockSet(begin, lid) =>
        TurnedSelected(marks, out, ev, begin, "lockSet:" + LockCalled(k, lid) + Suffix(lid), EventsOf(ev.tid));
      case Locked(begin, lid) =>
        TurnedSelected(marks, out, ev, begin, "locked:" + LockCalled(k, lid) + Suffix(lid), LockOf(ev.tid, lid));
      case Sched(begin) => TurnedSelected(marks, out, ev, begin, "sched", EventsOf(ev.tid));
      case Runnable(begin) =>
        var q := Turned(out, ev, begin, "runnable", SchedOf(ev.tid));
        TurnedSelected(marks, out, ev, begin, "runnable", SchedOf(ev.tid));
        ScheduledSelected(marks, out, k, ev.tid, ev.cpu);
        SelectBoth(marks, q, Scheduled(out, k, ev.tid, ev.cpu));
        assert q + [] == q;
      case Plain(name, lock) =>
        MarkedSelected(marks, out, ev, name);
        if lock.Some? { MarkedSelected(marks, out, ev, name + "(" + LockCalled(k, lock.value) + ")"); }
    }
  }

  lemma FitTrack(marks: bool, m: Item)
    ensures (m.Track? ==> !Fit(marks, m)) && (m.Value? ==> Fit(marks, m) == !marks)
  {
  }

  lemma ShownSelected(marks: bool, syscalls: seq<string>, k: Knowledge, out: seq<Item>, ev: Ev)
    ensures Select(marks, ShownBy(syscalls, k, out, ev)) == if marks then MarkOf(k, ev) else ValuesOf(k, ev)
  {
    hide Select, Arrival, Doing, Meant, LockCalled, Contains, Spot, Meet;
    ArrivalSelected(marks, out, k, ev.tid);
    DoingSelected(marks, syscalls, Meet(k, ev.tid), out, ev);
    SelectBoth(marks, First(out), Arrival(k, ev.tid));
    SelectBoth(marks, First(out) + Arrival(k, ev.tid), Doing(syscalls, Meet(k, ev.tid), out, ev));
    MeetKeeps(k, ev.tid);
    SameMark(k, Meet(k, ev.tid), ev);
  }

  lemma SameMark(k: Knowledge, k': Knowledge, ev: Ev)
    requires k.lockNames == k'.lockNames
    ensures MarkOf(k, ev) == MarkOf(k', ev)
  {
  }

  lemma {:induction false} ToldSelected(marks: bool, syscalls: seq<string>, evs: seq<Ev>)
    ensures Select(marks, Told(syscalls, evs)) == AllOf(marks, syscalls, evs)
    decreases |evs|
  {
    hide ShownBy, MarkOf, ValuesOf;
    if evs == [] {
      SelectNone(marks, []);
    } else {
      var front, ev := evs[..|evs| - 1], evs[|evs| - 1];
      var out, k := Told(syscalls, front), KnownAfter(front);
      ToldSelected(marks, syscalls, front);
      SelectBoth(marks, out, ShownBy(syscalls, k, out, ev));
      ShownSelected(marks, syscalls, k, out, ev);
    }
  }

  /** The instants of the log are the marks of the events, one for one and in order, each on its thread's events track or
      on the kernel's track of the processor; and the counters are the priorities of the threads met and the priorities
      given, each on its thread's own track. */
  lemma MarksTold(syscalls: seq<string>, evs: seq<Ev>)
    ensures var s := Run(syscalls, evs);
      && Pick(true, s.log) == Placed(AllOf(true, syscalls, evs), s.slots)
      && Pick(false, s.log) == Placed(AllOf(false, syscalls, evs), s.slots)
  {
    hide Run, Told, Placed, Select, Pick, Unended, AllOf, Picked;
    var s := Run(syscalls, evs);
    LogTold(syscalls, evs);
    forall marks ensures Pick(marks, s.log) == Placed(AllOf(marks, syscalls, evs), s.slots) {
      PickUnended(marks, s.log);
      PickPlaced(marks, Told(syscalls, evs), s.slots);
      ToldSelected(marks, syscalls, evs);
    }
  }

  // ---------- what is known, by the last event that told it ----------

  /** What the last thread_create or process_exec of a thread says. */
  function LastTold(evs: seq<Ev>, tid: Tid): Option<Thread>
    decreases |evs|
  {
    if evs == [] then None
    else
      var ev := evs[|evs| - 1];
      if ev.tid == tid && (ev.body.ThreadCreate? || ev.body.ProcessExec?) then Some(ev.body.info)
      else LastTold(evs[..|evs| - 1], tid)
  }

  function LastName(evs: seq<Ev>, lid: Lid): Option<string>
    decreases |evs|
  {
    if evs == [] then None
    else
      var ev := evs[|evs| - 1];
      if ev.body.LockName? && ev.body.lid == lid then Some(ev.body.name) else LastName(evs[..|evs| - 1], lid)
  }

  /** A thread has been seen at work: an event of its own that is not its creation. */
  predicate Worked(evs: seq<Ev>, tid: Tid)
    decreases |evs|
  {
    evs != [] &&
    (Worked(evs[..|evs| - 1], tid) || (evs[|evs| - 1].tid == tid != -1 && !evs[|evs| - 1].body.ThreadCreate?))
  }

  lemma Learns(k: Knowledge, ev: Ev)
    ensures var told := ev.body.ThreadCreate? || ev.body.ProcessExec?; var k' := Learn(k, ev);
      && k'.threads == (if told then k.threads[ev.tid := ev.body.info] else k.threads)
      && k'.seen == (if ev.body.ThreadCreate? || ev.tid == -1 then k.seen else k.seen + {ev.tid})
  {
    hide KnownThread;
  }

  lemma {:induction false} ToldKnown(evs: seq<Ev>, tid: Tid)
    ensures var k := KnownAfter(evs);
      && (LastTold(evs, tid).Some? ==> tid in k.threads && k.threads[tid] == LastTold(evs, tid).value)
      && (LastTold(evs, tid).None? ==>
            if tid == 999999999 then tid in k.threads && k.threads[tid] == Thread(999999999, "UNKNOWN", 999) else tid !in k.threads)
      && (tid in k.seen <==> Worked(evs, tid))
    decreases |evs|
  {
    hide Learn;
    if evs != [] {
      ToldKnown(evs[..|evs| - 1], tid);
      Learns(KnownAfter(evs[..|evs| - 1]), evs[|evs| - 1]);
    }
  }

  lemma {:induction false} NameKnown(evs: seq<Ev>, lid: Lid)
    ensures var k := KnownAfter(evs);
      if LastName(evs, lid).Some? then lid in k.lockNames && k.lockNames[lid] == LastName(evs, lid).value else lid !in k.lockNames
    decreases |evs|
  {
    hide KnownThread;
    if evs != [] { NameKnown(evs[..|evs| - 1], lid); }
  }

  /** A thread is what its last creation or exec says; one that has had neither is what the stand-in's number has been given,
      at first the name UNKNOWN and the priority 999. A lock is called what it was last called, or 0x and its number. */
  lemma KnownIs(evs: seq<Ev>, tid: Tid, lid: Lid)
    ensures var k := KnownAfter(evs);
      && Meant(k, tid) == (match LastTold(evs, tid)
           case Some(t) => t
           case None => match LastTold(evs, 999999999)
             case Some(t) => t
             case None => Thread(999999999, "UNKNOWN", 999))
      && LockCalled(k, lid) == (if LastName(evs, lid).Some? then LastName(evs, lid).value else "0x" + Digits(16, lid))
      && (tid in k.seen <==> Worked(evs, tid))
  {
    hide KnownAfter, LastTold, LastName, Worked;
    ToldKnown(evs, tid);
    ToldKnown(evs, 999999999);
    NameKnown(evs, lid);
  }

  // ---------- numbers spelled out ----------

  predicate IsDigit(base: nat, c: char) { '0' <= c <= '9' || (base == 16 && 'a' <= c <= 'f') }

  /** A number is spelled with the digits of its base, without a zero in front, and they read back as the number. */
  lemma {:induction false} DigitsSpell(base: nat, n: nat)
    requires base == 10 || base == 16
    ensures var d := Digits(base, n);
      d != "" && (n > 0 ==> d[0] != '0') && (forall i :: 0 <= i < |d| ==> IsDigit(base, d[i])) && TailValue(base, d) == n
    decreases n
  {
    hide TailValue;
    TailNothing(base);
    TailOfDigits(base, "", n);
    assert "" + Digits(base, n) == Digits(base, n);
    LastDigit(base, n);
    if n >= base { DigitsSpell(base, n / base); }
  }

  lemma TailNothing(base: nat)
    ensures TailValue(base, "") == 0
  {
  }

  lemma NumberSpelled()
    ensures Digits(10, 42) == "42" && Digits(16, 0x2a) == "2a"
  {
    assert Digits(10, 4) == "4" && Digits(16, 2) == "2";
  }

  lemma FortyTwo()
    ensures Dec(42) == "42" && Dec(-42) == "-42"
    ensures LockedName("a", 0x2a) == "locked:a (0x0000002a)" && RunName(42) == "running:cpu42" && ThreadName("a", 42) == "a 42"
  {
    hide Digits, Pad8;
    NumberSpelled();
    Padded("2a");
    assert Pad8("2a") == Pad8("2a")[..6] + "2a" == "0000002a";
  }

  /** Padding puts zeros in front until there are eight digits. */
  lemma {:induction false} Padded(s: string)
    ensures var p := Pad8(s);
      |p| == (if |s| < 8 then 8 else |s|) && p[|p| - |s|..] == s && forall i :: 0 <= i < |p| - |s| ==> p[i] == '0'
    decreases 8 - |s|
  {
    if |s| < 8 {
      Padded("0" + s);
      var p := Pad8("0" + s);
      assert p[|p| - |s| - 1..] == "0" + s;
      assert p[|p| - |s|..] == p[|p| - |s| - 1..][1..];
    }
  }
}
