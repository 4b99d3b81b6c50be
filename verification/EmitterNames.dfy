/** The slice names that the converter composes, and what can be read back from them. */
module EmitterNames {

  type Lid = nat
  type Cpu = nat

  const DIGITS := "0123456789abcdef"

  /** A number in base 10 or 16. */
  function Digits(base: nat, n: nat): string
    requires base == 10 || base == 16
    decreases n
  {
    (if n < base then "" else Digits(base, n / base)) + [DIGITS[n % base]]
  }

  function Dec(n: int): string {
    if n < 0 then "-" + Digits(10, -n) else Digits(10, n)
  }

  function Pad8(s: string): string
    decreases 8 - |s|
  {
    if |s| < 8 then Pad8("0" + s) else s
  }

  function DigitValue(c: char): nat {
    if '0' <= c <= '9' then (c - '0') as nat else if 'a' <= c <= 'f' then 10 + (c - 'a') as nat else 0
  }

  /** The value of the digits behind the last 'x' or 'u' of a string. */
  function TailValue(base: nat, s: string): nat {
    if s == "" || s[|s| - 1] == 'x' || s[|s| - 1] == 'u' then 0
    else TailValue(base, s[..|s| - 1]) * base + DigitValue(s[|s| - 1])
  }

  lemma DigitBack(d: nat)
    requires d < 16
    ensures DigitValue(DIGITS[d]) == d && DIGITS[d] != 'x' && DIGITS[d] != 'u' && DIGITS[d] != ' '
  {
  }

  lemma LastDigit(base: nat, n: nat)
    requires base == 10 || base == 16
    ensures n == n / base * base + n % base && n % base < 16
  {
    if base == 10 { assert n == n / 10 * 10 + n % 10; } else { assert n == n / 16 * 16 + n % 16; }
  }

  lemma TailOfOne(base: nat, pre: string, d: nat)
    requires d < 16
    ensures TailValue(base, pre + [DIGITS[d]]) == TailValue(base, pre) * base + d
  {
    DigitBack(d);
    assert (pre + [DIGITS[d]])[..|pre|] == pre;
  }

  /** What follows a mark, in digits, is read back. */
  lemma {:induction false} TailOfDigits(base: nat, pre: string, n: nat)
    requires base == 10 || base == 16
    requires TailValue(base, pre) == 0
    ensures TailValue(base, pre + Digits(base, n)) == n
    decreases n
  {
    hide TailValue;
    LastDigit(base, n);
    if n < base {
      assert pre + Digits(base, n) == pre + [DIGITS[n % base]];
      TailOfOne(base, pre, n % base);
      assert n / base == 0;
    } else {
      assert pre + Digits(base, n) == (pre + Digits(base, n / base)) + [DIGITS[n % base]];
      TailOfOne(base, pre + Digits(base, n / base), n % base);
      TailOfDigits(base, pre, n / base);
    }
  }

  lemma {:induction false} TailOfPadded(pre: string, s: string, n: nat)
    requires TailValue(16, pre) == 0
    requires forall p: string :: TailValue(16, p) == 0 ==> TailValue(16, p + s) == n
    ensures TailValue(16, pre + Pad8(s)) == n
    decreases 8 - |s|
  {
    if |s| < 8 {
      forall p: string | TailValue(16, p) == 0 ensures TailValue(16, p + ("0" + s)) == n {
        assert p + ("0" + s) == (p + "0") + s && (p + "0")[..|p|] == p;
      }
      TailOfPadded(pre, "0" + s, n);
    }
  }

  lemma {:induction false} DigitsHaveNoSpace(base: nat, n: nat)
    requires base == 10 || base == 16
    ensures ' ' !in Digits(base, n)
    decreases n
  {
    DigitBack(n % base);
    if n >= base { DigitsHaveNoSpace(base, n / base); }
  }

  // ---------- slices ----------

  const SYSCALL := "syscall:"
  const IRQ := "irq:"
  const LOCKSET := "lockSet:"
  const LOCKED := "locked:"
  const SCHED := "sched"
  const RUNNABLE := "runnable"
  const RUNNING := "running:cpu"

  function LockSuffix(lid: Lid): string { " (0x" + Pad8(Digits(16, lid)) + ")" }
  function LockSetName(lock: string, lid: Lid): string { LOCKSET + lock + LockSuffix(lid) }
  function LockedName(lock: string, lid: Lid): string { LOCKED + lock + LockSuffix(lid) }

  /** The slice of a thread running on a processor. */
  function RunName(cpu: Cpu): string { RUNNING + Dec(cpu) }

  /** The slice on a processor's track: a thread's name and number. */
  function ThreadName(name: string, tid: int): string { name + " " + Dec(tid) }

  predicate IsRunning(n: string) { |n| >= 11 && n[..11] == RUNNING }

  /** Where a thread's slice of a given name belongs: with its locks, its scheduling, or its other events. */
  datatype Place = OnEvents | OnSched | OnLock(lid: Lid)

  function PlaceOf(n: string): Place {
    if n == RUNNABLE then OnSched
    else if |n| >= 8 && n[..7] == LOCKED then OnLock(TailValue(16, n[..|n| - 1]))
    else OnEvents
  }

  /** The name of a lock's slice tells the lock, however the lock itself is named. */
  lemma LockedPlace(lock: string, lid: Lid)
    ensures PlaceOf(LockedName(lock, lid)) == OnLock(lid) && !IsRunning(LockedName(lock, lid))
  {
    var n, pre := LockedName(lock, lid), LOCKED + lock + " (0x";
    assert n[..|n| - 1] == pre + Pad8(Digits(16, lid));
    forall p: string | TailValue(16, p) == 0 ensures TailValue(16, p + Digits(16, lid)) == lid {
      TailOfDigits(16, p, lid);
    }
    TailOfPadded(pre, Digits(16, lid), lid);
    assert n[..7] == LOCKED && n[0] == 'l';
  }

  lemma OtherPlaces(name: string, irq: nat, lock: string, lid: Lid)
    ensures PlaceOf(SYSCALL + name) == OnEvents && !IsRunning(SYSCALL + name)
    ensures PlaceOf(IRQ + Dec(irq)) == OnEvents && !IsRunning(IRQ + Dec(irq))
    ensures PlaceOf(LockSetName(lock, lid)) == OnEvents && !IsRunning(LockSetName(lock, lid))
    ensures PlaceOf(SCHED) == OnEvents && !IsRunning(SCHED)
    ensures PlaceOf(RUNNABLE) == OnSched && !IsRunning(RUNNABLE)
  {
    hide Dec, LockSuffix, TailValue;
    assert (SYSCALL + name)[0] == 's';
    assert (IRQ + Dec(irq))[0] == 'i';
    assert LockSetName(lock, lid)[4] == 'S';
    assert RUNNABLE[4] == 'a' && RUNNING[4] == 'i' && LOCKED[4] == 'e';
    assert RUNNING[0] == 'r' && LOCKED[0] == 'l';
  }

  lemma RunNames(cpu: Cpu, cpu': Cpu)
    ensures IsRunning(RunName(cpu))
    ensures RunName(cpu) == RunName(cpu') ==> cpu == cpu'
  {
    assert RUNNING[..10][..10] == RUNNING[..10];
    assert TailValue(10, RUNNING) == 0;
    TailOfDigits(10, RUNNING, cpu);
    TailOfDigits(10, RUNNING, cpu');
  }

  lemma RunNotThread(cpu: Cpu, name: string, tid: int)
    ensures RunName(cpu) != ThreadName(name, tid)
  {
    DigitsHaveNoSpace(10, cpu);
    assert ThreadName(name, tid)[|name|] == ' ';
    assert ' ' in ThreadName(name, tid) && ' ' !in RUNNING;
    assert ' ' !in RunName(cpu);
  }
}
