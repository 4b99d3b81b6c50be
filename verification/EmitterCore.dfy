/** What every single step of the converter keeps. */
module EmitterCore {
  import opened Basics
  import opened EmitterNames
  import opened EmitterSpec
  import opened EmitterLog

  // ---------- invariants ----------

  /** Numbers of different slots are different, and already given out. */
  ghost predicate SlotsOk(slots: map<Slot, Uid>, uid: Uid) {
    && uid >= FIRST_UID
    && (forall a :: a in slots ==> FIRST_UID <= slots[a] < uid)
    && (forall a, b :: a in slots && b in slots && slots[a] == slots[b] ==> a == b)
  }

  /** Slots whose track is not described yet. */
  predicate Waits(a: Slot, pending: set<Slot>) { a.Flow? || a in pending }

  ghost predicate Fits(p: Packet, slots: map<Slot, Uid>) {
    p.Descriptor? ==>
      forall a :: a in slots && slots[a] == p.uuid ==> if p.what.Process? then a == Proc(p.what.pid) else !a.Proc?
  }

  /** The log describes exactly the slots that do not wait, each before it is used. */
  ghost predicate DescOk(log: seq<Packet>, slots: map<Slot, Uid>, uid: Uid, pending: set<Slot>) {
    && Ordered(log) && Distinct(log)
    && (forall u :: u in Uuids(log) ==> FIRST_UID <= u < uid)
    && (forall a :: a in slots ==> (slots[a] in Uuids(log) <==> !Waits(a, pending)))
    && (forall i :: 0 <= i < |log| ==> Fits(log[i], slots))
  }

  /** The thread a track belongs to. */
  function Owner(a: Slot): Option<Tid> {
    match a
    case Root(t) => Some(t)
    case SchedOf(t) => Some(t)
    case EventsOf(t) => Some(t)
    case PrioOf(t) => Some(t)
    case LockOf(t, _) => Some(t)
    case _ => None
  }

  /** The tracks that share the kernel's stack. */
  function KernelTracks(slots: map<Slot, Uid>): set<Uid> {
    set a | a in slots && a.KernelCpu? :: slots[a]
  }

  /** A begun slice is on the track that its name tells. */
  ghost predicate Home(p: Packet, tid: Tid, name: string, slots: map<Slot, Uid>) {
    && p.Slice? && p.phase.Begin? && p.name == name && !IsRunning(name)
    && if tid == KERNEL_TID then p.track in KernelTracks(slots)
       else SlotFor(tid, PlaceOf(name)) in slots && p.track == slots[SlotFor(tid, PlaceOf(name))]
  }

  ghost predicate StacksOk(tid: Tid, stacks: seq<Stack>, slots: map<Slot, Uid>) {
    forall i, j :: 0 <= i < |stacks| && 0 <= j < |stacks[i].packets| ==>
      Home(stacks[i].packets[j], tid, stacks[i].name, slots)
  }

  /** The open slices of a group of tracks are those on a thread's stacks. */
  ghost predicate Balanced(log: seq<Packet>, stacks: seq<Stack>, tracks: set<Uid>, name: string) {
    Level(log, tracks, name) == Matching(All(stacks), tracks, name)
  }

  /** The slices of these names on a thread's track are the thread's own; its scheduling track also shows where
      it runs. */
  predicate Tracked(a: Slot, tid: Tid, name: string) {
    Owner(a) == Some(tid) && (a.SchedOf? ==> !IsRunning(name))
  }

  /** The slices of a name that are begun and not ended. */
  function OfName(stacks: seq<Stack>, name: string): seq<Packet> {
    if stacks == [] then [] else if stacks[0].name == name then stacks[0].packets else OfName(stacks[1..], name)
  }

  ghost predicate Single(stacks: seq<Stack>) {
    forall i, j :: 0 <= i < j < |stacks| ==> stacks[i].name != stacks[j].name
  }

  ghost predicate SlicesOk(log: seq<Packet>, slots: map<Slot, Uid>, ongoing: map<Tid, seq<Stack>>) {
    && (forall tid :: tid in ongoing ==> StacksOk(tid, ongoing[tid], slots) && Single(ongoing[tid]))
    && (forall tid, a, n :: tid in ongoing && tid != KERNEL_TID && a in slots && Tracked(a, tid, n) ==>
          Balanced(log, ongoing[tid], {slots[a]}, n))
    && (forall n :: Balanced(log, StacksOf(ongoing, KERNEL_TID), KernelTracks(slots), n))
  }

  function SeatOf(m: map<Cpu, Packet>, cpu: Cpu): Seat {
    if cpu in m && m[cpu].Slice? then Taken(m[cpu].name, m[cpu].track) else Empty
  }

  ghost predicate CpuSlice(p: Packet, cpu: Cpu, slots: map<Slot, Uid>) {
    && p.Slice? && p.phase.Begin? && NoRunningSlice(p)
    && CpuTrack(cpu) in slots && p.track == slots[CpuTrack(cpu)]
  }

  /** A processor's track shows one slice at a time. */
  ghost predicate CpusOk(log: seq<Packet>, slots: map<Slot, Uid>, prevCpu: map<Cpu, Packet>) {
    && (forall cpu :: cpu in prevCpu ==> CpuSlice(prevCpu[cpu], cpu, slots))
    && (forall cpu :: CpuTrack(cpu) in slots ==> Scan(log, OnTrack(slots[CpuTrack(cpu)])) == SeatOf(prevCpu, cpu))
  }

  ghost predicate RunningSlice(p: Packet, cpu: Cpu, slots: map<Slot, Uid>) {
    && p.Slice? && p.phase.Begin? && p.name == RunName(cpu)
    && exists tid: Tid :: SchedOf(tid) in slots && slots[SchedOf(tid)] == p.track
  }

  /** A processor runs one thread at a time, shown on that thread's own track. */
  ghost predicate RunningOk(log: seq<Packet>, slots: map<Slot, Uid>, prevRunning: map<Cpu, Packet>) {
    && (forall cpu :: cpu in prevRunning ==> RunningSlice(prevRunning[cpu], cpu, slots))
    && (forall cpu: Cpu :: Scan(log, WithName(RunName(cpu))) == SeatOf(prevRunning, cpu))
  }

  ghost predicate Core(s: State, pending: set<Slot>) {
    && SlotsOk(s.slots, s.uid)
    && DescOk(s.log, s.slots, s.uid, pending)
    && SlicesOk(s.log, s.slots, s.ongoing)
    && CpusOk(s.log, s.slots, s.prevCpu)
    && RunningOk(s.log, s.slots, s.prevRunning)
  }

  // ---------- a packet that does not matter to an invariant ----------

  lemma DescPut(log: seq<Packet>, p: Packet, slots: map<Slot, Uid>, uid: Uid, pending: set<Slot>)
    requires DescOk(log, slots, uid, pending) && !p.Descriptor? && Refs(p) <= Uuids(log)
    ensures DescOk(log + [p], slots, uid, pending)
  {
    hide Uuids, Ordered, Waits;
    OrderedPut(log, p);
    UuidsPut(log, p);
    forall i | 0 <= i < |log + [p]| ensures Fits((log + [p])[i], slots) {
      if i < |log| { assert (log + [p])[i] == log[i]; }
    }
  }

  /** Not a slice that a thread's or the kernel's stack could hold. */
  ghost predicate NoThreadSlice(p: Packet, slots: map<Slot, Uid>) {
    p.Slice? && !p.phase.Instant? ==>
      && p.track !in KernelTracks(slots)
      && (forall a :: a in slots && slots[a] == p.track ==> Owner(a).None? || (a.SchedOf? && IsRunning(p.name)))
  }

  lemma SlicesSkip(log: seq<Packet>, p: Packet, slots: map<Slot, Uid>, ongoing: map<Tid, seq<Stack>>)
    requires SlicesOk(log, slots, ongoing) && NoThreadSlice(p, slots)
    ensures SlicesOk(log + [p], slots, ongoing)
  {
    hide Level, Matching, All, KernelTracks, Owner, IsRunning, StacksOk, Single;
    forall tid, a, n | tid in ongoing && tid != KERNEL_TID && a in slots && Tracked(a, tid, n)
      ensures Balanced(log + [p], ongoing[tid], {slots[a]}, n)
    {
      assert Balanced(log, ongoing[tid], {slots[a]}, n);
      LevelPut(log, p, {slots[a]}, n);
    }
    forall n ensures Balanced(log + [p], StacksOf(ongoing, KERNEL_TID), KernelTracks(slots), n) {
      assert Balanced(log, StacksOf(ongoing, KERNEL_TID), KernelTracks(slots), n);
      LevelPut(log, p, KernelTracks(slots), n);
    }
  }

  ghost predicate NoCpuSlice(p: Packet, slots: map<Slot, Uid>) {
    p.Slice? && !p.phase.Instant? ==> forall cpu :: CpuTrack(cpu) in slots ==> p.track != slots[CpuTrack(cpu)]
  }

  lemma CpusSkip(log: seq<Packet>, p: Packet, slots: map<Slot, Uid>, prevCpu: map<Cpu, Packet>)
    requires CpusOk(log, slots, prevCpu) && NoCpuSlice(p, slots)
    ensures CpusOk(log + [p], slots, prevCpu)
  {
    hide Scan;
    forall cpu | CpuTrack(cpu) in slots ensures Scan(log + [p], OnTrack(slots[CpuTrack(cpu)])) == SeatOf(prevCpu, cpu) {
      ScanPut(log, p, OnTrack(slots[CpuTrack(cpu)]));
    }
  }

  ghost predicate NoRunningSlice(p: Packet) {
    p.Slice? && !p.phase.Instant? ==> forall cpu: Cpu :: p.name != RunName(cpu)
  }

  lemma RunningSkip(log: seq<Packet>, p: Packet, slots: map<Slot, Uid>, prevRunning: map<Cpu, Packet>)
    requires RunningOk(log, slots, prevRunning) && NoRunningSlice(p)
    ensures RunningOk(log + [p], slots, prevRunning)
  {
    hide Scan, RunName;
    forall cpu: Cpu ensures Scan(log + [p], WithName(RunName(cpu))) == SeatOf(prevRunning, cpu) {
      ScanPut(log, p, WithName(RunName(cpu)));
    }
  }

  lemma QuietPut(s: State, p: Packet, pending: set<Slot>)
    requires Core(s, pending) && !p.Descriptor? && Refs(p) <= Uuids(s.log)
    requires NoThreadSlice(p, s.slots) && NoCpuSlice(p, s.slots) && NoRunningSlice(p)
    ensures Core(Put(s, p), pending)
  {
    hide SlotsOk, DescOk, SlicesOk, CpusOk, RunningOk;
    DescPut(s.log, p, s.slots, s.uid, pending);
    SlicesSkip(s.log, p, s.slots, s.ongoing);
    CpusSkip(s.log, p, s.slots, s.prevCpu);
    RunningSkip(s.log, p, s.slots, s.prevRunning);
  }

  // ---------- new slots and descriptions ----------

  lemma SlicesFresh(log: seq<Packet>, slots: map<Slot, Uid>, ongoing: map<Tid, seq<Stack>>, a: Slot, u: Uid)
    requires SlicesOk(log, slots, ongoing) && a !in slots
    requires forall b :: b in slots ==> slots[b] != u
    requires forall i :: 0 <= i < |log| && log[i].Slice? ==> log[i].track != u
    ensures SlicesOk(log, slots[a := u], ongoing)
  {
    hide Level, Matching, IsRunning, PlaceOf, Single;
    var slots' := slots[a := u];
    forall tid | tid in ongoing ensures StacksOk(tid, ongoing[tid], slots') {
      assert StacksOk(tid, ongoing[tid], slots);
      assert KernelTracks(slots) <= KernelTracks(slots') by { KernelTracksFresh(slots, a, u); }
    }
    forall tid, b, n | tid in ongoing && tid != KERNEL_TID && b in slots' && Tracked(b, tid, n)
      ensures Balanced(log, ongoing[tid], {slots'[b]}, n)
    {
      if b == a {
        AllTracks(tid, ongoing[tid], slots);
        FreshBalanced(log, ongoing[tid], {}, u, n);
      } else {
        assert Balanced(log, ongoing[tid], {slots[b]}, n);
      }
    }
    forall n ensures Balanced(log, StacksOf(ongoing, KERNEL_TID), KernelTracks(slots'), n) {
      assert Balanced(log, StacksOf(ongoing, KERNEL_TID), KernelTracks(slots), n);
      assert KernelTracks(slots) + {} == KernelTracks(slots);
      if a.KernelCpu? {
        assert StacksOk(KERNEL_TID, StacksOf(ongoing, KERNEL_TID), slots);
        AllTracks(KERNEL_TID, StacksOf(ongoing, KERNEL_TID), slots);
        FreshGroup(log, StacksOf(ongoing, KERNEL_TID), KernelTracks(slots), u, n);
      }
      KernelTracksFresh(slots, a, u);
    }
  }

  lemma KernelTracksFresh(slots: map<Slot, Uid>, a: Slot, u: Uid)
    requires a !in slots
    ensures KernelTracks(slots[a := u]) == KernelTracks(slots) + if a.KernelCpu? then {u} else {}
  {
    var slots' := slots[a := u];
    forall v | v in KernelTracks(slots) ensures v in KernelTracks(slots') {
      var b :| b in slots && b.KernelCpu? && slots[b] == v;
      assert b in slots' && slots'[b] == v;
    }
    if a.KernelCpu? { assert a in slots' && slots'[a] == u; }
  }

  /** The slices a thread's stacks hold are on its own tracks. */
  lemma {:induction false} AllTracks(tid: Tid, stacks: seq<Stack>, slots: map<Slot, Uid>)
    requires StacksOk(tid, stacks, slots)
    ensures forall i :: 0 <= i < |All(stacks)| ==> HomeOwn(All(stacks)[i], tid, slots)
  {
    hide Home;
    if stacks != [] {
      forall i, j | 0 <= i < |stacks[1..]| && 0 <= j < |stacks[1..][i].packets|
        ensures Home(stacks[1..][i].packets[j], tid, stacks[1..][i].name, slots)
      {
        assert stacks[1..][i] == stacks[i + 1];
      }
      AllTracks(tid, stacks[1..], slots);
      forall i | 0 <= i < |stacks[0].packets| ensures HomeOwn(stacks[0].packets[i], tid, slots) {
        HomeName(stacks[0].packets[i], tid, stacks[0].name, slots);
      }
    }
  }

  ghost predicate HomeOwn(p: Packet, tid: Tid, slots: map<Slot, Uid>) {
    p.Slice? && Home(p, tid, p.name, slots)
  }

  lemma HomeName(p: Packet, tid: Tid, name: string, slots: map<Slot, Uid>)
    requires Home(p, tid, name, slots)
    ensures HomeOwn(p, tid, slots)
  {
  }

  lemma FreshGroup(log: seq<Packet>, stacks: seq<Stack>, tracks: set<Uid>, u: Uid, n: string)
    requires Balanced(log, stacks, tracks, n)
    requires forall i :: 0 <= i < |log| && log[i].Slice? ==> log[i].track != u
    requires forall i :: 0 <= i < |All(stacks)| ==> All(stacks)[i].Slice? && All(stacks)[i].track != u
    ensures Balanced(log, stacks, tracks + {u}, n)
  {
    LevelSame(log, tracks, tracks + {u}, n);
    MatchingSame(All(stacks), tracks, tracks + {u}, n);
  }

  lemma FreshBalanced(log: seq<Packet>, stacks: seq<Stack>, tracks: set<Uid>, u: Uid, n: string)
    requires tracks == {}
    requires forall i :: 0 <= i < |log| && log[i].Slice? ==> log[i].track != u
    requires forall i :: 0 <= i < |All(stacks)| ==> All(stacks)[i].Slice? && All(stacks)[i].track != u
    ensures Balanced(log, stacks, {u}, n)
  {
    LevelNowhere(log, n);
    MatchingNone(All(stacks), {}, n);
    FreshGroup(log, stacks, {}, u, n);
    assert {} + {u} == {u};
  }

  /** Tracks in use are described ones, which are below the next number. */
  lemma {:induction false} UsedBelow(log: seq<Packet>, uid: Uid)
    requires Ordered(log) && forall u :: u in Uuids(log) ==> u < uid
    ensures forall i :: 0 <= i < |log| && log[i].Slice? ==> log[i].track < uid
  {
    forall i | 0 <= i < |log| && log[i].Slice? ensures log[i].track < uid {
      assert log[i].track in Refs(log[i]);
      assert log[i].track in Uuids(log[..i]);
      var k :| 0 <= k < i && log[..i][k].Descriptor? && log[..i][k].uuid == log[i].track;
      assert log[k] == log[..i][k];
      assert log[i].track in Uuids(log);
    }
  }

  lemma AllocDesc(s: State, a: Slot, pending: set<Slot>)
    requires SlotsOk(s.slots, s.uid) && DescOk(s.log, s.slots, s.uid, pending) && a !in s.slots && a !in pending
    ensures SlotsOk(Alloc(s, a).slots, s.uid + 1) && DescOk(s.log, Alloc(s, a).slots, s.uid + 1, pending + {a})
  {
    hide Ordered, Distinct;
    var slots' := Alloc(s, a).slots;
    forall i | 0 <= i < |s.log| ensures Fits(s.log[i], slots') {
      assert Fits(s.log[i], s.slots);
      if s.log[i].Descriptor? { assert s.log[i].uuid in Uuids(s.log); }
    }
  }

  lemma AllocCpus(s: State, a: Slot)
    requires SlotsOk(s.slots, s.uid) && CpusOk(s.log, s.slots, s.prevCpu) && a !in s.slots
    requires forall i :: 0 <= i < |s.log| && s.log[i].Slice? ==> s.log[i].track < s.uid
    ensures CpusOk(s.log, Alloc(s, a).slots, s.prevCpu)
  {
    hide Scan, NoRunningSlice;
    if a.CpuTrack? {
      assert [] + s.log == s.log;
      ScanSkips([], s.log, OnTrack(s.uid));
      NothingScanned(OnTrack(s.uid));
    }
  }

  lemma NothingScanned(sel: Sel)
    ensures Scan([], sel) == Empty
  {
  }

  lemma AllocRunning(s: State, a: Slot)
    requires RunningOk(s.log, s.slots, s.prevRunning) && a !in s.slots
    ensures RunningOk(s.log, Alloc(s, a).slots, s.prevRunning)
  {
    hide Scan, RunName;
    var slots' := Alloc(s, a).slots;
    forall cpu | cpu in s.prevRunning ensures RunningSlice(s.prevRunning[cpu], cpu, slots') {
      assert RunningSlice(s.prevRunning[cpu], cpu, s.slots);
      var tid: Tid :| SchedOf(tid) in s.slots && s.slots[SchedOf(tid)] == s.prevRunning[cpu].track;
      assert SchedOf(tid) in slots' && slots'[SchedOf(tid)] == s.prevRunning[cpu].track;
    }
  }

  /** A new slot has a number that occurs nowhere. */
  lemma AllocCore(s: State, a: Slot, pending: set<Slot>)
    requires Core(s, pending) && a !in s.slots && a !in pending
    ensures Core(Alloc(s, a), pending + {a})
  {
    hide SlicesOk, CpusOk, RunningOk, Ordered, Distinct, Uuids, Waits, Fits;
    UsedBelow(s.log, s.uid);
    AllocDesc(s, a, pending);
    SlicesFresh(s.log, s.slots, s.ongoing, a, s.uid);
    AllocCpus(s, a);
    AllocRunning(s, a);
  }

  lemma DistinctPut(log: seq<Packet>, p: Packet)
    requires Distinct(log) && p.Descriptor?
    requires forall i :: 0 <= i < |log| && log[i].Descriptor? && log[i].uuid == p.uuid ==>
      log[i].what.Process? && p.what.Process? && log[i].what.pid == p.what.pid
    ensures Distinct(log + [p])
  {
  }

  predicate ParentKnown(log: seq<Packet>, p: Packet) {
    p.Descriptor? && (p.parent.Some? ==> p.parent.value in Uuids(log))
  }

  /** Describe a slot that waits, or a process again. */
  lemma DescribeDesc(log: seq<Packet>, slots: map<Slot, Uid>, uid: Uid, pending: set<Slot>, a: Slot, p: Packet)
    requires SlotsOk(slots, uid) && DescOk(log, slots, uid, pending)
    requires a in slots && !a.Flow? && ParentKnown(log, p) && p.uuid == slots[a]
    requires a in pending || a.Proc?
    requires if p.what.Process? then a == Proc(p.what.pid) else !a.Proc?
    ensures DescOk(log + [p], slots, uid, pending - {a})
  {
    hide Ordered;
    assert Refs(p) <= Uuids(log);
    OrderedPut(log, p);
    UuidsPut(log, p);
    forall i | 0 <= i < |log| && log[i].Descriptor? && log[i].uuid == p.uuid
      ensures log[i].what.Process? && p.what.Process? && log[i].what.pid == p.what.pid
    {
      assert log[i].uuid in Uuids(log);
      assert Fits(log[i], slots);
    }
    DistinctPut(log, p);
    forall i | 0 <= i < |log + [p]| ensures Fits((log + [p])[i], slots) {
      if i < |log| { assert Fits(log[i], slots); }
    }
  }

  lemma DescribeCore(s: State, a: Slot, parent: Option<Slot>, what: Label, pending: set<Slot>)
    requires Core(s, pending) && a in s.slots && !a.Flow?
    requires a in pending || a.Proc?
    requires parent.Some? ==> parent.value in s.slots && !Waits(parent.value, pending)
    requires if what.Process? then a == Proc(what.pid) else !a.Proc?
    ensures Core(Describe(s, a, parent, what), pending - {a})
  {
    hide SlicesOk, CpusOk, RunningOk, Ordered, Distinct, Uuids, Fits;
    var p := Descriptor(UidOf(s.slots, a), if parent.Some? then Some(UidOf(s.slots, parent.value)) else None, what);
    DescribeDesc(s.log, s.slots, s.uid, pending, a, p);
    SlicesSkip(s.log, p, s.slots, s.ongoing);
    CpusSkip(s.log, p, s.slots, s.prevCpu);
    RunningSkip(s.log, p, s.slots, s.prevRunning);
  }

  lemma InUuids(s: State, pending: set<Slot>, a: Slot)
    requires Core(s, pending) && a in s.slots && !Waits(a, pending)
    ensures s.slots[a] in Uuids(s.log)
  {
  }

  lemma CounterCore(s: State, a: Slot, value: int, pending: set<Slot>)
    requires Core(s, pending) && a in s.slots && !Waits(a, pending)
    ensures Core(Put(s, Counter(value, s.slots[a])), pending)
  {
    hide Core, Uuids;
    InUuids(s, pending, a);
    QuietPut(s, Counter(value, s.slots[a]), pending);
  }
}
