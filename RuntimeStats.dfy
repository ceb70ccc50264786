// Allocation and class-initialisation statistics, and how the runtime
// routes a statistics kind to the process-wide counters or to the current
// thread's: the low 16 bits of a kind mask name global counters, the high
// 16 bits the same counters of the current thread.
//
// The kind codes and the counter set come from the runtime's statistics
// header, which is not part of this model: the codes are named constants
// here, and Clear is taken to zero exactly the counters whose kind bit is
// set in its argument.
module RuntimeStats {

  import Bytes

  type Int32 = x: int | -0x8000_0000 <= x < 0x8000_0000

  datatype Option<T> = None | Some(value: T)

  const KIND_ALLOCATED_OBJECTS := 0x1
  const KIND_ALLOCATED_BYTES := 0x2
  const KIND_FREED_OBJECTS := 0x4
  const KIND_FREED_BYTES := 0x8
  const KIND_GC_INVOCATIONS := 0x10
  const KIND_CLASS_INIT_COUNT := 0x20
  const KIND_CLASS_INIT_TIME := 0x40
  const KIND_EXT_ALLOCATED_OBJECTS := 0x1000
  const KIND_EXT_ALLOCATED_BYTES := 0x2000
  const KIND_EXT_FREED_OBJECTS := 0x4000
  const KIND_EXT_FREED_BYTES := 0x8000

  /** A kind mask's global half (kinds & 0xffff) and thread half (kinds >> 16, an arithmetic shift). */
  const kThreadShift := 0x10000

  /** The seven kinds that have a counter. */
  predicate CountedKind(kind: int)
  {
    kind == KIND_ALLOCATED_OBJECTS || kind == KIND_ALLOCATED_BYTES || kind == KIND_FREED_OBJECTS ||
    kind == KIND_FREED_BYTES || kind == KIND_GC_INVOCATIONS || kind == KIND_CLASS_INIT_COUNT ||
    kind == KIND_CLASS_INIT_TIME
  }

  /** The four legacy external-allocation kinds, kept for compatibility. */
  predicate LegacyKind(kind: int)
  {
    kind == KIND_EXT_ALLOCATED_OBJECTS || kind == KIND_EXT_ALLOCATED_BYTES ||
    kind == KIND_EXT_FREED_OBJECTS || kind == KIND_EXT_FREED_BYTES
  }

  /** `flags & kind != 0` for a one-bit kind, on a two's-complement flags value. */
  predicate HasKind(flags: int, kind: int)
    requires kind > 0
  {
    (flags / kind) % 2 == 1
  }

  /** A value converted to int32_t: its low 32 bits, read as two's complement. */
  function ToInt32(x: int): (r: Int32)
    ensures (r - x) % 0x1_0000_0000 == 0
    ensures 0 <= x < 0x8000_0000 ==> r == x
  {
    var low := x % 0x1_0000_0000;
    if low < 0x8000_0000 then low else low - 0x1_0000_0000
  }

  /** The counters of one statistics record. */
  datatype Counters = Counters(
    allocatedObjects: nat, allocatedBytes: nat, freedObjects: nat, freedBytes: nat,
    gcForAllocCount: nat, classInitCount: nat, classInitTimeNs: nat)

  /** The counters after Clear(flags): each counter whose kind is in flags is zero, the rest unchanged. */
  function Cleared(c: Counters, flags: int): Counters
  {
    Counters(
      if HasKind(flags, KIND_ALLOCATED_OBJECTS) then 0 else c.allocatedObjects,
      if HasKind(flags, KIND_ALLOCATED_BYTES) then 0 else c.allocatedBytes,
      if HasKind(flags, KIND_FREED_OBJECTS) then 0 else c.freedObjects,
      if HasKind(flags, KIND_FREED_BYTES) then 0 else c.freedBytes,
      if HasKind(flags, KIND_GC_INVOCATIONS) then 0 else c.gcForAllocCount,
      if HasKind(flags, KIND_CLASS_INIT_COUNT) then 0 else c.classInitCount,
      if HasKind(flags, KIND_CLASS_INIT_TIME) then 0 else c.classInitTimeNs)
  }

  /**
   * The switch of GetStat on one record: the counter the kind names, as an
   * int32; class-init time in microseconds; 0 for the legacy kinds; None
   * (a fatal error) for any other kind.
   */
  function StatOf(c: Counters, kind: int): (r: Option<Int32>)
    ensures r.Some? <==> CountedKind(kind) || LegacyKind(kind)
    ensures LegacyKind(kind) ==> r == Some(0)
    ensures kind == KIND_CLASS_INIT_TIME ==> r == Some(ToInt32(c.classInitTimeNs / 1000))
  {
    if kind == KIND_ALLOCATED_OBJECTS then Some(ToInt32(c.allocatedObjects))
    else if kind == KIND_ALLOCATED_BYTES then Some(ToInt32(c.allocatedBytes))
    else if kind == KIND_FREED_OBJECTS then Some(ToInt32(c.freedObjects))
    else if kind == KIND_FREED_BYTES then Some(ToInt32(c.freedBytes))
    else if kind == KIND_GC_INVOCATIONS then Some(ToInt32(c.gcForAllocCount))
    else if kind == KIND_CLASS_INIT_COUNT then Some(ToInt32(c.classInitCount))
    else if kind == KIND_CLASS_INIT_TIME then Some(ToInt32(c.classInitTimeNs / 1000))
    else if LegacyKind(kind) then Some(0)
    else None
  }

  /** GetStat's routing: kinds from 1 << 16 up read the thread's record at kind >> 16. */
  function RoutedStat(global: Counters, thread: Counters, kind: Int32): Option<Int32>
  {
    if kind < kThreadShift then StatOf(global, kind) else StatOf(thread, kind / kThreadShift)
  }

  /** A statistics record; Clear updates its counters in place. */
  class Stats {
    var allocatedObjects: nat
    var allocatedBytes: nat
    var freedObjects: nat
    var freedBytes: nat
    var gcForAllocCount: nat
    var classInitCount: nat
    var classInitTimeNs: nat

    function Snapshot(): Counters
      reads this
    {
      Counters(allocatedObjects, allocatedBytes, freedObjects, freedBytes,
               gcForAllocCount, classInitCount, classInitTimeNs)
    }

    constructor ()
      ensures Snapshot() == Counters(0, 0, 0, 0, 0, 0, 0)
    {
      allocatedObjects, allocatedBytes, freedObjects, freedBytes := 0, 0, 0, 0;
      gcForAllocCount, classInitCount, classInitTimeNs := 0, 0, 0;
    }

    /** Zeroes the counters whose kind bit is set in flags. */
    method Clear(flags: int)
      modifies this
      ensures Snapshot() == Cleared(old(Snapshot()), flags)
    {
      if HasKind(flags, KIND_ALLOCATED_OBJECTS) { allocatedObjects := 0; }
      if HasKind(flags, KIND_ALLOCATED_BYTES) { allocatedBytes := 0; }
      if HasKind(flags, KIND_FREED_OBJECTS) { freedObjects := 0; }
      if HasKind(flags, KIND_FREED_BYTES) { freedBytes := 0; }
      if HasKind(flags, KIND_GC_INVOCATIONS) { gcForAllocCount := 0; }
      if HasKind(flags, KIND_CLASS_INIT_COUNT) { classInitCount := 0; }
      if HasKind(flags, KIND_CLASS_INIT_TIME) { classInitTimeNs := 0; }
    }
  }

  /**
   * The runtime's view of statistics: its own record and the record of the
   * thread that calls it (the current thread is an input).
   */
  class Runtime {
    const stats: Stats
    const threadStats: Stats

    predicate Valid()
      reads this
    {
      stats != threadStats
    }

    constructor (current: Stats)
      ensures Valid() && threadStats == current && fresh(stats)
    {
      stats := new Stats();
      threadStats := current;
    }

    /** Clears the global counters named by kinds & 0xffff and the thread's named by kinds >> 16. */
    method ResetStats(kinds: Int32)
      requires Valid()
      modifies stats, threadStats
      ensures stats.Snapshot() == Cleared(old(stats.Snapshot()), kinds % kThreadShift)
      ensures threadStats.Snapshot() == Cleared(old(threadStats.Snapshot()), kinds / kThreadShift)
    {
      stats.Clear(kinds % kThreadShift);
      threadStats.Clear(kinds / kThreadShift);
    }

    /** One statistic: None stands for the fatal error on an unknown kind. */
    function GetStat(kind: Int32): (r: Option<Int32>)
      reads this, stats, threadStats
      ensures kind < kThreadShift ==> r == StatOf(stats.Snapshot(), kind)
      ensures kind >= kThreadShift ==> r == StatOf(threadStats.Snapshot(), kind / kThreadShift)
    {
      RoutedStat(stats.Snapshot(), threadStats.Snapshot(), kind)
    }
  }

  // ---------------------------------------------------------------------
  // Resetting and reading back.

  /**
   * Clearing a counted kind makes its statistic read 0, and leaves the
   * statistic of every counted kind not in flags as it was.
   */
  lemma ClearedStat(c: Counters, flags: int, kind: int)
    requires CountedKind(kind)
    ensures HasKind(flags, kind) ==> StatOf(Cleared(c, flags), kind) == Some(0)
    ensures !HasKind(flags, kind) ==> StatOf(Cleared(c, flags), kind) == StatOf(c, kind)
  {
  }

  /**
   * After ResetStats(kinds), reading a counted kind that kinds & 0xffff
   * names gives 0 from the global record, and reading it shifted into the
   * thread half (kind << 16) gives 0 when kinds >> 16 names it; every other
   * counted kind reads as before, in both halves.
   */
  lemma ResetThenGetStat(global: Counters, thread: Counters, kinds: Int32, kind: int)
    requires CountedKind(kind)
    ensures var g := Cleared(global, kinds % kThreadShift);
            var t := Cleared(thread, kinds / kThreadShift);
            && RoutedStat(g, t, kind) ==
                 (if HasKind(kinds, kind) then Some(0) else RoutedStat(global, thread, kind))
            && RoutedStat(g, t, kind * kThreadShift) ==
                 (if HasKind(kinds / kThreadShift, kind) then Some(0)
                  else RoutedStat(global, thread, kind * kThreadShift))
  {
    ClearedStat(global, kinds % kThreadShift, kind);
    ClearedStat(thread, kinds / kThreadShift, kind);
    LowHalfKind(kinds, kind);
    assert (kind * kThreadShift) / kThreadShift == kind;
  }

  /** A kind below 1 << 16 is in kinds & 0xffff exactly when it is in kinds. */
  lemma LowHalfKind(kinds: int, kind: int)
    requires CountedKind(kind)
    ensures HasKind(kinds % kThreadShift, kind) <==> HasKind(kinds, kind)
  {
    LowHalfBit(kinds, kind, kThreadShift / kind);
  }

  /** Bit b < 16 of x is bit b of x & 0xffff, for kind == 2^b and kind * m == 1 << 16. */
  lemma LowHalfBit(kinds: int, kind: int, m: int)
    requires kind > 0 && m > 0 && kind * m == kThreadShift && m % 2 == 0
    ensures (kinds % kThreadShift) / kind % 2 == (kinds / kind) % 2
  {
    var q, low := kinds / kThreadShift, kinds % kThreadShift;
    var a, r := low / kind, low % kind;
    calc {
      kinds;
      q * kThreadShift + low;
      q * (kind * m) + a * kind + r;
      (q * m + a) * kind + r;
    }
    Bytes.ModUnique(kinds, kind, q * m + a, r);
    var h := m / 2;
    calc {
      q * m + a;
      2 * (q * h + a / 2) + a % 2;
    }
    Bytes.ModUnique(q * m + a, 2, q * h + a / 2, a % 2);
  }
}
