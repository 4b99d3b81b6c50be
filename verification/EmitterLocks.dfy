/** When the slices of a lock pair up by lock, although they are kept by name. */
module EmitterLocks {
  import opened Basics
  import opened EmitterNames
  import opened EmitterSpec
  import opened EmitterCore
  import opened EmitterSlices
  import opened EmitterSafety
  import opened EmitterRuns
  import opened EmitterEvents
  import opened EmitterLog

  /** What a thread holds under a name: nothing before its first event. */
  function HeldBy(s: State, tid: Tid, name: string): seq<Packet> {
    if tid in s.emitted then OfName(StacksOf(s.ongoing, tid), name) else []
  }

  lemma LockedNameTells(lock: string, lock': string, lid: Lid)
    requires LockedName(lock, lid) == LockedName(lock', lid)
    ensures lock == lock'
  {
    var n, k := LockedName(lock, lid), |LockSuffix(lid)|;
    assert n[|LOCKED|..|n| - k] == lock;
    assert LockedName(lock', lid)[|LOCKED|..|n| - k] == lock';
  }

  /** One lock event of a thread, before an exception. */
  lemma LockedStep(s: State, syscalls: seq<string>, tid: Tid, cpu: Cpu, begin: bool, lid: Lid)
    requires s.ok && tid != KERNEL_TID
    ensures var s', name := Emit(s, syscalls, Ev(tid, cpu, Locked(begin, lid))), LockedName(NameOfLock(s.lockNames, lid), lid);
      && s'.ok && s'.lockNames == s.lockNames && s'.started && tid in s'.emitted
      && forall n :: var ps := HeldBy(s, tid, n);
        if n != name then HeldBy(s', tid, n) == ps
        else if begin then |HeldBy(s', tid, n)| == |ps| + 1
        else HeldBy(s', tid, n) == if ps == [] then [] else ps[..|ps| - 1]
  {
    hide Start, Introduce, LockedName, NameOfLock, EmitSlice, NeedTrack, OfName;
    var name := LockedName(NameOfLock(s.lockNames, lid), lid);
    StartFields(s);
    var s1 := if s.started then s else Start(s);
    IntroduceKeeps(s1, tid);
    var s2 := if tid in s1.emitted then s1 else Introduce(s1, tid);
    var s3 := NeedTrack(s2, LockOf(tid, lid), Root(tid), "locked");
    NeedTrackSame(s2, LockOf(tid, lid), Root(tid), "locked");
    forall n ensures OfName([], n) == [] { NothingNamed(n); }
    SliceStep(s3, tid, begin, name, UidOf(s3.slots, LockOf(tid, lid)));
  }

  lemma NothingNamed(n: string)
    ensures OfName([], n) == []
  {
  }

  lemma StartFields(s: State)
    ensures var s' := Start(s); s'.started && s'.ok == s.ok && s'.lockNames == s.lockNames && s'.emitted == s.emitted
    ensures forall tid :: tid != KERNEL_TID ==> StacksOf(Start(s).ongoing, tid) == StacksOf(s.ongoing, tid)
  {
    hide UidOf;
  }

  lemma IntroduceKeeps(s: State, tid: Tid)
    ensures var s' := Introduce(s, tid);
      && s'.ok == s.ok && s'.lockNames == s.lockNames && s'.started == s.started && tid in s'.emitted
      && StacksOf(s'.ongoing, tid) == []
  {
    hide KnownThread, AllocThread, DescribeThread, AddProcess;
    var t := KnownThread(s.threads, tid);
    AllocThreadFields(s, tid);
    AllocThreadMore(s, tid);
    AddProcessFields(AllocThread(s, tid), t);
    AddProcessMore(AllocThread(s, tid), t);
    DescribeThreadFields(AddProcess(AllocThread(s, tid), t), tid, t.pid);
  }

  lemma SliceStep(s: State, tid: Tid, begin: bool, name: string, track: Uid)
    ensures var s' := EmitSlice(s, tid, PhaseOf(begin), name, track);
      && s'.ok == s.ok && s'.lockNames == s.lockNames && s'.started == s.started && s'.emitted == s.emitted
      && forall n :: var ps := OfName(StacksOf(s.ongoing, tid), n);
        OfName(StacksOf(s'.ongoing, tid), n) ==
          if n != name then ps else if begin then ps + [Slice(Begin, name, track)]
          else if ps == [] then [] else ps[..|ps| - 1]
  {
    hide PushOn, PopFrom, HasTop, OfName, EmitSlice, StacksOf;
    SliceStacks(s, tid, PhaseOf(begin), name, track, tid);
    EmitSliceSame(s, tid, PhaseOf(begin), name, track);
    var s' := EmitSlice(s, tid, PhaseOf(begin), name, track);
    forall n ensures var ps := OfName(StacksOf(s.ongoing, tid), n);
      OfName(StacksOf(s'.ongoing, tid), n) ==
        if n != name then ps else if begin then ps + [Slice(Begin, name, track)]
        else if ps == [] then [] else ps[..|ps| - 1]
    {
      var stacks, p := StacksOf(s.ongoing, tid), Slice(Begin, name, track);
      PushOfName(stacks, p, n);
      PopOfName(stacks, name, n);
      PopOfName(stacks, name, name);
    }
  }

  /** The end of a lock takes the last slice held under the lock's present name, and nothing under another. */
  lemma LockEnds(syscalls: seq<string>, evs: seq<Ev>, tid: Tid, cpu: Cpu, lid: Lid)
    requires Run(syscalls, evs).ok && tid != KERNEL_TID
    ensures var s, s' := Run(syscalls, evs), Run(syscalls, evs + [Ev(tid, cpu, Locked(false, lid))]);
      var name := LockedName(NameOfLock(KnownAfter(evs).lockNames, lid), lid);
      s'.ok && forall n :: var ps := HeldBy(s, tid, n);
        HeldBy(s', tid, n) == if n == name && ps != [] then ps[..|ps| - 1] else ps
  {
    hide Run, Emit, HeldBy, KnownAfter, LockedName, NameOfLock;
    EventsTell(syscalls, evs, tid, "");
    LockNamesKnown(Run(syscalls, evs), KnownAfter(evs));
    RunSnoc(syscalls, evs, Ev(tid, cpu, Locked(false, lid)));
    LockedStep(Run(syscalls, evs), syscalls, tid, cpu, false, lid);
  }

  lemma RenameStep(s: State, syscalls: seq<string>, tid: Tid, cpu: Cpu, lid: Lid, lock: string)
    requires s.ok && s.started && tid in s.emitted
    ensures var s' := Emit(s, syscalls, Ev(tid, cpu, LockName(lid, lock)));
      && s'.ok && s'.lockNames == s.lockNames[lid := lock] && forall n :: HeldBy(s', tid, n) == HeldBy(s, tid, n)
  {
    hide OfName;
  }

  /** A slice begun for a lock, a name given to the lock, and its end: they pair up if and only if the name is the
      one the lock had. Otherwise the slice that was begun stays open. */
  lemma RenamedLock(syscalls: seq<string>, evs: seq<Ev>, tid: Tid, cpu: Cpu, cpu': Cpu, cpu'': Cpu, lid: Lid, lock: string)
    requires Run(syscalls, evs).ok && tid != KERNEL_TID
    ensures var was := NameOfLock(KnownAfter(evs).lockNames, lid);
      var s := Run(syscalls, evs);
      var s' := Run(syscalls, evs + [Ev(tid, cpu, Locked(true, lid))] + [Ev(tid, cpu', LockName(lid, lock))]
                              + [Ev(tid, cpu'', Locked(false, lid))]);
      && ((forall n :: |HeldBy(s', tid, n)| == |HeldBy(s, tid, n)|) <==> lock == was)
      && (lock != was ==> |HeldBy(s', tid, LockedName(was, lid))| == |HeldBy(s, tid, LockedName(was, lid))| + 1)
  {
    hide Run, Emit, HeldBy, KnownAfter, LockedName;
    var e0, e1, e2 := Ev(tid, cpu, Locked(true, lid)), Ev(tid, cpu', LockName(lid, lock)), Ev(tid, cpu'', Locked(false, lid));
    var was, s := NameOfLock(KnownAfter(evs).lockNames, lid), Run(syscalls, evs);
    EventsTell(syscalls, evs, tid, "");
    LockNamesKnown(Run(syscalls, evs), KnownAfter(evs));
    RunSnoc(syscalls, evs, e0);
    RunSnoc(syscalls, evs + [e0], e1);
    RunSnoc(syscalls, evs + [e0] + [e1], e2);
    LockedStep(s, syscalls, tid, cpu, true, lid);
    var s1 := Emit(s, syscalls, e0);
    RenameStep(s1, syscalls, tid, cpu', lid, lock);
    var s2 := Emit(s1, syscalls, e1);
    LockedStep(s2, syscalls, tid, cpu'', false, lid);
    if lock != was {
      if LockedName(lock, lid) == LockedName(was, lid) { LockedNameTells(lock, was, lid); }
      assert |HeldBy(Emit(s2, syscalls, e2), tid, LockedName(was, lid))| == |HeldBy(s, tid, LockedName(was, lid))| + 1;
    }
  }

  // ---------- all runs ----------

  /** The names of the slices of a lock that a thread holds, in the order of their begins. An end drops the last one
      of the lock's present name; the end of the thread drops all. */
  function HeldNames(syscalls: seq<string>, evs: seq<Ev>, tid: Tid, lid: Lid): seq<string>
    decreases |evs|
  {
    if evs == [] then []
    else
      var front := evs[..|evs| - 1];
      var before := HeldNames(syscalls, front, tid, lid);
      if Stopped(syscalls, front) then before
      else NoteLock(before, LockedName(NameOfLock(KnownAfter(front).lockNames, lid), lid), evs[|evs| - 1], tid, lid)
  }

  function NoteLock(held: seq<string>, present: string, ev: Ev, tid: Tid, lid: Lid): seq<string> {
    if ev.tid != tid then held
    else
      match ev.body
      case ThreadEnd => []
      case Locked(begin, l) => if l != lid then held else if begin then held + [present] else DropLast(held, present)
      case _ => held
  }

  function DropLast(held: seq<string>, name: string): seq<string> {
    if held == [] then []
    else
      var front, last := held[..|held| - 1], held[|held| - 1];
      if last == name then front else DropLast(front, name) + [last]
  }

  /** The lock's slices as they would pair up by lock: one more with a begin, one fewer with an end if there is one, and
      none after the end of the thread. */
  function LockBalance(syscalls: seq<string>, evs: seq<Ev>, tid: Tid, lid: Lid): nat
    decreases |evs|
  {
    if evs == [] then 0
    else
      var front, ev := evs[..|evs| - 1], evs[|evs| - 1];
      var before := LockBalance(syscalls, front, tid, lid);
      if Stopped(syscalls, front) || ev.tid != tid then before
      else
        match ev.body
        case ThreadEnd => 0
        case Locked(begin, l) => if l != lid then before else if begin then before + 1 else if before > 0 then before - 1 else 0
        case _ => before
  }

  predicate IsEnd(ev: Ev, tid: Tid, lid: Lid) { ev.tid == tid && ev.body == Locked(false, lid) }

  /** Some end came while the thread held slices of the lock, but none under its present name. */
  predicate MissedEnd(syscalls: seq<string>, evs: seq<Ev>, tid: Tid, lid: Lid)
    decreases |evs|
  {
    evs != [] &&
    var front, ev := evs[..|evs| - 1], evs[|evs| - 1];
    MissedEnd(syscalls, front, tid, lid) ||
    (!Stopped(syscalls, front) && IsEnd(ev, tid, lid) && HeldNames(syscalls, front, tid, lid) != [] &&
     LockedName(NameOfLock(KnownAfter(front).lockNames, lid), lid) !in HeldNames(syscalls, front, tid, lid))
  }

  function CountAny(log: seq<Packet>, begin: bool, tracks: set<Uid>): nat
    decreases |log|
  {
    if log == [] then 0
    else
      var p := log[|log| - 1];
      CountAny(log[..|log| - 1], begin, tracks) + if p.Slice? && On(p, tracks, p.name) && p.phase.Begin? == begin then 1 else 0
  }

  /** Begins minus ends on a lock's track of a thread, all names together; nothing if there is no such track. */
  function OpenOnLock(s: State, tid: Tid, lid: Lid): int {
    var tracks := LockTrack(s.slots, tid, lid);
    CountAny(s.log, true, tracks) - CountAny(s.log, false, tracks)
  }

  function LockTrack(slots: map<Slot, Uid>, tid: Tid, lid: Lid): set<Uid> {
    if LockOf(tid, lid) in slots then {slots[LockOf(tid, lid)]} else {}
  }

  // ---------- held names and held slices ----------

  function Occurs(held: seq<string>, name: string): nat {
    if held == [] then 0 else Occurs(held[..|held| - 1], name) + if held[|held| - 1] == name then 1 else 0
  }

  lemma OccursPut(held: seq<string>, x: string, name: string)
    ensures Occurs(held + [x], name) == Occurs(held, name) + if x == name then 1 else 0
  {
    assert (held + [x])[..|held|] == held;
  }

  lemma {:induction false} DropOccurs(held: seq<string>, x: string, name: string)
    ensures Occurs(DropLast(held, x), name) == Held(Occurs(held, name), false, x == name)
    ensures Occurs(held, name) > 0 <==> name in held
    ensures |DropLast(held, x)| == if x in held then |held| - 1 else |held|
    decreases |held|
  {
    if held != [] {
      var front, last := held[..|held| - 1], held[|held| - 1];
      assert held == front + [last];
      DropOccurs(front, x, name);
      OccursPut(DropLast(front, x), last, name);
    }
  }

  /** Only an event of the lock itself has a slice of a name that belongs on the lock's track. */
  lemma SliceOfLock(syscalls: seq<string>, lockNames: map<Lid, string>, ev: Ev, lid: Lid, n: string)
    requires PlaceOf(n) == OnLock(lid)
    ensures match SliceOf(syscalls, lockNames, ev)
      case Some((begin, m)) => m == n ==>
        ev.body == Locked(begin, lid) && n == LockedName(NameOfLock(lockNames, lid), lid)
      case None => true
  {
    hide PlaceOf, Dec, LockedName, LockSetName, NameOfLock;
    match ev.body {
      case Syscall(begin, k) => if k < |syscalls| { OtherPlaces(syscalls[k], 0, "", 0); }
      case Interrupt(begin, irq) => OtherPlaces("", irq, "", 0);
      case InLockSet(begin, l) => OtherPlaces("", 0, NameOfLock(lockNames, l), l);
      case Locked(begin, l) => LockedPlace(NameOfLock(lockNames, l), l);
      case Sched(_) => OtherPlaces("", 0, "", 0);
      case Runnable(_) => OtherPlaces("", 0, "", 0);
      case _ =>
    }
  }

  lemma NoteOccurs(held: seq<string>, h: nat, syscalls: seq<string>, lockNames: map<Lid, string>, ev: Ev, tid: Tid, lid: Lid, n: string)
    requires tid != KERNEL_TID && PlaceOf(n) == OnLock(lid) && Occurs(held, n) == h
    ensures var present := LockedName(NameOfLock(lockNames, lid), lid);
      Occurs(NoteLock(held, present, ev, tid, lid), n) == HeldStep(h, syscalls, lockNames, ev, tid, n)
  {
    hide PlaceOf, Dec, LockedName, LockSetName, NameOfLock, Occurs, DropLast;
    var present := LockedName(NameOfLock(lockNames, lid), lid);
    SliceOfLock(syscalls, lockNames, ev, lid, n);
    OccursNothing(n);
    OccursPut(held, present, n);
    DropOccurs(held, present, n);
    if ev.tid == tid && ev.body.Locked? && ev.body.lid == lid {
      assert SliceOf(syscalls, lockNames, ev) == Some((ev.body.begin, present));
    }
  }

  lemma OccursNothing(n: string)
    ensures Occurs([], n) == 0
  {
  }

  lemma {:induction false} NamesAreHeld(syscalls: seq<string>, evs: seq<Ev>, tid: Tid, lid: Lid, n: string)
    requires tid != KERNEL_TID && PlaceOf(n) == OnLock(lid)
    ensures Occurs(HeldNames(syscalls, evs, tid, lid), n) == HeldCount(syscalls, evs, tid, n)
    decreases |evs|
  {
    hide PlaceOf, NoteLock, HeldStep, Stopped, LockedName, NameOfLock, KnownAfter, Occurs;
    if evs == [] {
      OccursNothing(n);
    } else {
      var front := evs[..|evs| - 1];
      NamesAreHeld(syscalls, front, tid, lid, n);
      NoteOccurs(HeldNames(syscalls, front, tid, lid), HeldCount(syscalls, front, tid, n), syscalls,
                 KnownAfter(front).lockNames, evs[|evs| - 1], tid, lid, n);
    }
  }

  lemma {:induction false} NamesInPlace(syscalls: seq<string>, evs: seq<Ev>, tid: Tid, lid: Lid)
    ensures forall n :: n in HeldNames(syscalls, evs, tid, lid) ==> PlaceOf(n) == OnLock(lid)
    decreases |evs|
  {
    hide PlaceOf, Stopped, LockedName, NameOfLock, KnownAfter, DropLast;
    if evs != [] {
      var front := evs[..|evs| - 1];
      NamesInPlace(syscalls, front, tid, lid);
      LockedPlace(NameOfLock(KnownAfter(front).lockNames, lid), lid);
      DropFrom(HeldNames(syscalls, front, tid, lid), LockedName(NameOfLock(KnownAfter(front).lockNames, lid), lid));
    }
  }

  lemma {:induction false} DropFrom(held: seq<string>, x: string)
    ensures forall n :: n in DropLast(held, x) ==> n in held
    decreases |held|
  {
    if held != [] {
      assert held == held[..|held| - 1] + [held[|held| - 1]];
      DropFrom(held[..|held| - 1], x);
    }
  }

  // ---------- from each name to all names ----------

  function CountIn(log: seq<Packet>, begin: bool, tracks: set<Uid>, names: set<string>): nat
    decreases |log|
  {
    if log == [] then 0
    else
      var p := log[|log| - 1];
      CountIn(log[..|log| - 1], begin, tracks, names) +
      if p.Slice? && p.name in names && On(p, tracks, p.name) && p.phase.Begin? == begin then 1 else 0
  }

  function OccursIn(held: seq<string>, names: set<string>): nat {
    if held == [] then 0 else OccursIn(held[..|held| - 1], names) + if held[|held| - 1] in names then 1 else 0
  }

  lemma {:induction false} CountInAdd(log: seq<Packet>, begin: bool, tracks: set<Uid>, names: set<string>, n: string)
    requires n in names
    ensures CountIn(log, begin, tracks, names) == CountIn(log, begin, tracks, names - {n}) + Count(log, begin, tracks, n)
    decreases |log|
  {
    if log != [] { CountInAdd(log[..|log| - 1], begin, tracks, names, n); }
  }

  lemma {:induction false} OccursInAdd(held: seq<string>, names: set<string>, n: string)
    requires n in names
    ensures OccursIn(held, names) == OccursIn(held, names - {n}) + Occurs(held, n)
    decreases |held|
  {
    if held != [] { OccursInAdd(held[..|held| - 1], names, n); }
  }

  lemma {:induction false} NoNames(log: seq<Packet>, begin: bool, tracks: set<Uid>)
    ensures CountIn(log, begin, tracks, {}) == 0
    decreases |log|
  {
    if log != [] { NoNames(log[..|log| - 1], begin, tracks); }
  }

  lemma {:induction false} NoOccurs(held: seq<string>)
    ensures OccursIn(held, {}) == 0
    decreases |held|
  {
    if held != [] { NoOccurs(held[..|held| - 1]); }
  }

  lemma {:induction false} NamesAddUp(log: seq<Packet>, tracks: set<Uid>, held: seq<string>, names: set<string>)
    requires forall n :: Count(log, true, tracks, n) - Count(log, false, tracks, n) == Occurs(held, n)
    ensures CountIn(log, true, tracks, names) - CountIn(log, false, tracks, names) == OccursIn(held, names)
    decreases names
  {
    hide Count, Occurs, CountIn, OccursIn;
    if names == {} {
      NoNames(log, true, tracks);
      NoNames(log, false, tracks);
      NoOccurs(held);
    } else {
      var n :| n in names;
      CountInAdd(log, true, tracks, names, n);
      CountInAdd(log, false, tracks, names, n);
      OccursInAdd(held, names, n);
      NamesAddUp(log, tracks, held, names - {n});
    }
  }

  function LogNames(log: seq<Packet>): set<string> {
    set i | 0 <= i < |log| && log[i].Slice? :: log[i].name
  }

  lemma {:induction false} AllNames(log: seq<Packet>, begin: bool, tracks: set<Uid>, names: set<string>)
    requires forall i :: 0 <= i < |log| && log[i].Slice? ==> log[i].name in names
    ensures CountIn(log, begin, tracks, names) == CountAny(log, begin, tracks)
    decreases |log|
  {
    if log != [] { AllNames(log[..|log| - 1], begin, tracks, names); }
  }

  lemma {:induction false} AllHeld(held: seq<string>, names: set<string>)
    requires forall n :: n in held ==> n in names
    ensures OccursIn(held, names) == |held|
    decreases |held|
  {
    if held != [] {
      assert forall n :: n in held[..|held| - 1] ==> n in held;
      AllHeld(held[..|held| - 1], names);
    }
  }

  lemma Totals(log: seq<Packet>, tracks: set<Uid>, held: seq<string>)
    requires forall n :: Count(log, true, tracks, n) - Count(log, false, tracks, n) == Occurs(held, n)
    ensures CountAny(log, true, tracks) - CountAny(log, false, tracks) == |held|
  {
    hide Count, Occurs, CountIn, OccursIn, CountAny;
    var names := LogNames(log) + set n | n in held;
    NamesAddUp(log, tracks, held, names);
    AllNames(log, true, tracks, names);
    AllNames(log, false, tracks, names);
    AllHeld(held, names);
  }

  // ---------- what is open on a lock's track ----------

  lemma NotNamedNone(tracks: set<Uid>, log: seq<Packet>, n: string)
    requires tracks == {}
    ensures Count(log, true, tracks, n) == Count(log, false, tracks, n) == 0
  {
    CountNowhere(log, true, n);
    CountNowhere(log, false, n);
  }

  lemma {:induction false} CountNowhere(log: seq<Packet>, begin: bool, n: string)
    ensures Count(log, begin, {}, n) == 0
    decreases |log|
  {
    if log != [] { CountNowhere(log[..|log| - 1], begin, n); }
  }

  /** What is held of a lock is on its track, which is then there. */
  lemma HeldHasTrack(s: State, tid: Tid, lid: Lid, n: string)
    requires Inv(s) && tid != KERNEL_TID && PlaceOf(n) == OnLock(lid)
    ensures HeldIn(s, tid, n) > 0 ==> LockOf(tid, lid) in s.slots
  {
    hide SlotsOk, DescOk, CpusOk, RunningOk, Balanced, IsRunning, PlaceOf, Shape;
    if HeldIn(s, tid, n) > 0 {
      if tid !in s.ongoing { NothingNamed(n); }
      var stacks := s.ongoing[tid];
      assert StacksOk(tid, stacks, s.slots);
      OfNameFrom(stacks, n);
      var i :| 0 <= i < |stacks| && stacks[i].name == n && OfName(stacks, n) == stacks[i].packets;
      assert Home(stacks[i].packets[0], tid, n, s.slots);
    }
  }

  /** On a lock's track the slices of a name that are open are those held. */
  lemma OpenOfName(syscalls: seq<string>, evs: seq<Ev>, tid: Tid, lid: Lid, n: string)
    requires tid != KERNEL_TID
    ensures var s := Run(syscalls, evs); var tracks := LockTrack(s.slots, tid, lid);
      Count(s.log, true, tracks, n) - Count(s.log, false, tracks, n) == Occurs(HeldNames(syscalls, evs, tid, lid), n)
  {
    hide Run, Core, PlaceOf, HeldCount, HeldNames, Occurs, Count, KnownAfter, Stopped, IsRunning, HasTracks, OfName, Follows, HeldIn;
    RunInv(syscalls, evs);
    var s, held := Run(syscalls, evs), HeldNames(syscalls, evs, tid, lid);
    EventsTell(syscalls, evs, tid, n);
    NamesInPlace(syscalls, evs, tid, lid);
    if PlaceOf(n) == OnLock(lid) { NamesAreHeld(syscalls, evs, tid, lid, n); } else { DropOccurs(held, n, n); }
    if LockOf(tid, lid) in s.slots {
      assert Owner(LockOf(tid, lid)) == Some(tid);
      ThreadSlices(syscalls, evs, tid, LockOf(tid, lid), n);
      LockHolds(s, tid, n);
    } else {
      NotNamedNone({}, s.log, n);
      if PlaceOf(n) == OnLock(lid) { HeldHasTrack(s, tid, lid, n); }
    }
  }

  lemma LockHolds(s: State, tid: Tid, n: string)
    ensures |OfName(StacksOf(s.ongoing, tid), n)| == HeldIn(s, tid, n)
  {
  }

  lemma OpenIsHeld(syscalls: seq<string>, evs: seq<Ev>, tid: Tid, lid: Lid)
    requires tid != KERNEL_TID
    ensures OpenOnLock(Run(syscalls, evs), tid, lid) == |HeldNames(syscalls, evs, tid, lid)|
  {
    hide Run, HeldNames, Occurs, Count, CountAny;
    var s, held := Run(syscalls, evs), HeldNames(syscalls, evs, tid, lid);
    var tracks := LockTrack(s.slots, tid, lid);
    forall n ensures Count(s.log, true, tracks, n) - Count(s.log, false, tracks, n) == Occurs(held, n) {
      OpenOfName(syscalls, evs, tid, lid, n);
    }
    Totals(s.log, tracks, held);
  }

  // ---------- pairing by lock ----------

  lemma StepBalance(syscalls: seq<string>, evs: seq<Ev>, tid: Tid, lid: Lid)
    requires evs != []
    requires var front := evs[..|evs| - 1]; |HeldNames(syscalls, front, tid, lid)| == LockBalance(syscalls, front, tid, lid)
    ensures var missed := MissedEnd(syscalls, evs, tid, lid) && !MissedEnd(syscalls, evs[..|evs| - 1], tid, lid);
      missed ==> |HeldNames(syscalls, evs, tid, lid)| != LockBalance(syscalls, evs, tid, lid)
    ensures !MissedEnd(syscalls, evs, tid, lid) ==>
      |HeldNames(syscalls, evs, tid, lid)| == LockBalance(syscalls, evs, tid, lid)
  {
    hide LockedName, NameOfLock, KnownAfter, Stopped, DropLast;
    var front := evs[..|evs| - 1];
    DropOccurs(HeldNames(syscalls, front, tid, lid), LockedName(NameOfLock(KnownAfter(front).lockNames, lid), lid), "");
    DropNothing("");
    DropNothing(LockedName(NameOfLock(KnownAfter(front).lockNames, lid), lid));
  }

  lemma DropNothing(name: string)
    ensures DropLast([], name) == []
  {
  }

  ghost predicate BalancedSoFar(syscalls: seq<string>, evs: seq<Ev>, tid: Tid, lid: Lid) {
    forall j :: 0 <= j <= |evs| ==> |HeldNames(syscalls, evs[..j], tid, lid)| == LockBalance(syscalls, evs[..j], tid, lid)
  }

  lemma {:induction false} HeldIsBalance(syscalls: seq<string>, evs: seq<Ev>, tid: Tid, lid: Lid)
    ensures BalancedSoFar(syscalls, evs, tid, lid) <==> !MissedEnd(syscalls, evs, tid, lid)
    decreases |evs|
  {
    hide HeldNames, LockBalance, MissedEnd;
    assert evs[..|evs|] == evs;
    if evs == [] {
      NoEventsBalance(syscalls, tid, lid);
    } else {
      var front := evs[..|evs| - 1];
      HeldIsBalance(syscalls, front, tid, lid);
      assert forall j :: 0 <= j <= |front| ==> evs[..j] == front[..j];
      if MissedEnd(syscalls, front, tid, lid) {
        MissedStays(syscalls, evs, tid, lid);
        var j :| 0 <= j <= |front| && |HeldNames(syscalls, front[..j], tid, lid)| != LockBalance(syscalls, front[..j], tid, lid);
        assert evs[..j] == front[..j];
      } else {
        assert front[..|front|] == front;
        StepBalance(syscalls, evs, tid, lid);
      }
    }
  }

  lemma MissedStays(syscalls: seq<string>, evs: seq<Ev>, tid: Tid, lid: Lid)
    requires evs != [] && MissedEnd(syscalls, evs[..|evs| - 1], tid, lid)
    ensures MissedEnd(syscalls, evs, tid, lid)
  {
    hide HeldNames, Stopped, KnownAfter, LockedName, NameOfLock;
  }

  lemma NoEventsBalance(syscalls: seq<string>, tid: Tid, lid: Lid)
    ensures |HeldNames(syscalls, [], tid, lid)| == LockBalance(syscalls, [], tid, lid) && !MissedEnd(syscalls, [], tid, lid)
  {
  }

  /** For every thread and lock, what is open on the lock's track is at every prefix of the events what pairing by lock
      would leave open, if and only if no end is missed. */
  lemma LockPairs(syscalls: seq<string>, evs: seq<Ev>, tid: Tid, lid: Lid)
    requires tid != KERNEL_TID
    ensures (forall j :: 0 <= j <= |evs| ==>
               OpenOnLock(Run(syscalls, evs[..j]), tid, lid) == LockBalance(syscalls, evs[..j], tid, lid))
            <==> !MissedEnd(syscalls, evs, tid, lid)
  {
    hide Run, HeldNames, LockBalance, MissedEnd, OpenOnLock;
    HeldIsBalance(syscalls, evs, tid, lid);
    forall j | 0 <= j <= |evs|
      ensures OpenOnLock(Run(syscalls, evs[..j]), tid, lid) == |HeldNames(syscalls, evs[..j], tid, lid)|
    {
      OpenIsHeld(syscalls, evs[..j], tid, lid);
    }
  }

  /** A different name is given to the lock while the thread holds it. */
  predicate Renamed(syscalls: seq<string>, evs: seq<Ev>, tid: Tid, lid: Lid)
    decreases |evs|
  {
    evs != [] &&
    var front, ev := evs[..|evs| - 1], evs[|evs| - 1];
    Renamed(syscalls, front, tid, lid) ||
    (!Stopped(syscalls, front) && ev.body.LockName? && ev.body.lid == lid && HeldNames(syscalls, front, tid, lid) != [] &&
     ev.body.name != NameOfLock(KnownAfter(front).lockNames, lid))
  }

  /** Unless it is renamed while it is held, all of a lock's slices are held under its present name, and no end is missed. */
  lemma {:induction false} NotRenamed(syscalls: seq<string>, evs: seq<Ev>, tid: Tid, lid: Lid)
    requires !Renamed(syscalls, evs, tid, lid)
    ensures !MissedEnd(syscalls, evs, tid, lid)
    ensures !Stopped(syscalls, evs) ==> forall n :: n in HeldNames(syscalls, evs, tid, lid) ==>
      n == LockedName(NameOfLock(KnownAfter(evs).lockNames, lid), lid)
    decreases |evs|
  {
    hide LockedName, Fails, Meet, DropLast;
    if evs != [] {
      var front, ev := evs[..|evs| - 1], evs[|evs| - 1];
      NotRenamed(syscalls, front, tid, lid);
      var held, present := HeldNames(syscalls, front, tid, lid), LockedName(NameOfLock(KnownAfter(front).lockNames, lid), lid);
      DropFrom(held, present);
      MeetKeeps(KnownAfter(front), ev.tid);
      assert held != [] ==> held[0] in held;
    }
  }

  // ---------- a name given back ----------

  lemma LockSnoc(syscalls: seq<string>, evs: seq<Ev>, ev: Ev, tid: Tid, lid: Lid)
    requires !Stopped(syscalls, evs)
    ensures var present := LockedName(NameOfLock(KnownAfter(evs).lockNames, lid), lid);
      var held := HeldNames(syscalls, evs, tid, lid);
      && HeldNames(syscalls, evs + [ev], tid, lid) == NoteLock(held, present, ev, tid, lid)
      && KnownAfter(evs + [ev]) == Learn(KnownAfter(evs), ev)
      && (Stopped(syscalls, evs + [ev]) <==> Fails(syscalls, KnownAfter(evs), ev))
      && (MissedEnd(syscalls, evs + [ev], tid, lid) <==>
            MissedEnd(syscalls, evs, tid, lid) || (IsEnd(ev, tid, lid) && held != [] && present !in held))
  {
    hide NoteLock, LockedName, NameOfLock, Learn, Fails;
    assert (evs + [ev])[..|evs|] == evs;
  }

  /** Renamed while it is held, and named as before again in time: no end is missed. */
  lemma NamedBack(syscalls: seq<string>, evs: seq<Ev>, tid: Tid, cpu: Cpu, lid: Lid, lock: string)
    requires tid != KERNEL_TID && !Stopped(syscalls, evs) && !MissedEnd(syscalls, evs, tid, lid)
    ensures var was := NameOfLock(KnownAfter(evs).lockNames, lid);
      !MissedEnd(syscalls, evs + [Ev(tid, cpu, Locked(true, lid))] + [Ev(tid, cpu, LockName(lid, lock))]
                           + [Ev(tid, cpu, LockName(lid, was))] + [Ev(tid, cpu, Locked(false, lid))], tid, lid)
  {
    hide LockedName, HeldNames, MissedEnd, Stopped, KnownAfter, DropLast, KnownThread;
    var was := NameOfLock(KnownAfter(evs).lockNames, lid);
    var e0, e1 := Ev(tid, cpu, Locked(true, lid)), Ev(tid, cpu, LockName(lid, lock));
    var e2, e3 := Ev(tid, cpu, LockName(lid, was)), Ev(tid, cpu, Locked(false, lid));
    LockSnoc(syscalls, evs, e0, tid, lid);
    LockSnoc(syscalls, evs + [e0], e1, tid, lid);
    LockSnoc(syscalls, evs + [e0] + [e1], e2, tid, lid);
    LockSnoc(syscalls, evs + [e0] + [e1] + [e2], e3, tid, lid);
    assert HeldNames(syscalls, evs + [e0] + [e1] + [e2], tid, lid) == HeldNames(syscalls, evs, tid, lid) + [LockedName(was, lid)];
  }

  /** Renamed while it is held, to a name under which it is not: the end that follows is missed. */
  lemma RenamedMisses(syscalls: seq<string>, evs: seq<Ev>, tid: Tid, cpu: Cpu, lid: Lid, lock: string)
    requires tid != KERNEL_TID && !Stopped(syscalls, evs)
    requires lock != NameOfLock(KnownAfter(evs).lockNames, lid)
    requires LockedName(lock, lid) !in HeldNames(syscalls, evs, tid, lid)
    ensures MissedEnd(syscalls, evs + [Ev(tid, cpu, Locked(true, lid))] + [Ev(tid, cpu, LockName(lid, lock))]
                                + [Ev(tid, cpu, Locked(false, lid))], tid, lid)
  {
    hide LockedName, HeldNames, MissedEnd, Stopped, KnownAfter, DropLast, KnownThread;
    var was := NameOfLock(KnownAfter(evs).lockNames, lid);
    var e0, e1, e2 := Ev(tid, cpu, Locked(true, lid)), Ev(tid, cpu, LockName(lid, lock)), Ev(tid, cpu, Locked(false, lid));
    LockSnoc(syscalls, evs, e0, tid, lid);
    LockSnoc(syscalls, evs + [e0], e1, tid, lid);
    LockSnoc(syscalls, evs + [e0] + [e1], e2, tid, lid);
    if LockedName(lock, lid) == LockedName(was, lid) { LockedNameTells(lock, was, lid); }
    assert HeldNames(syscalls, evs + [e0] + [e1], tid, lid) == HeldNames(syscalls, evs, tid, lid) + [LockedName(was, lid)];
  }
}
