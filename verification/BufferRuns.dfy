/** What holds over whole runs of the mapper: lock accounting, dead handles, one mapping per buffer, and writers. */
module BufferRuns {
  import opened Formats
  import opened Access
  import opened BufferLife

  // ----- which calls are accepted -----

  /**
   * A lock is accepted if and only if the handle is live, the fence signals, the region lies inside the buffer, the
   * format is known, nobody writes already (BLOB aside) if the lock is for writing, and the buffer is or can be mapped
   * if the CPU is to touch it. An unlock needs a lock, a free a live handle. What is refused changes nothing but the
   * numbering of descriptors.
   */
  lemma CallsAcceptedExactlyWhen(s: State, op: Op)
    requires !op.Import? && op.h in s.pool ==> IsInt(s.pool[op.h].surface.width) && IsInt(s.pool[op.h].surface.height)
    requires op.Lock? ==> IsInt(op.l) && IsInt(op.t) && IsInt(op.w) && IsInt(op.ht)
    ensures op.Lock? ==>
      (ReplyTo(s, op) == Done <==>
       && op.h in s.pool && op.fenceOk
       && var b := s.pool[op.h];
       && 0 <= op.l && 0 <= op.t && 0 <= op.w && 0 <= op.ht
       && op.l + op.w <= b.surface.width && op.t + op.ht <= b.surface.height
       && HasInfo(b.surface.base)
       && (op.writing && b.cpuWrite ==> b.surface.base == BLOB)
       && (op.reading || op.writing ==> b.mapping.Some? || op.mapAnswer == Mapped))
    ensures op.Unlock? ==> (ReplyTo(s, op) == Done <==> op.h in s.pool && s.pool[op.h].lockCount > 0)
    ensures op.Free? ==> (ReplyTo(s, op) == Done <==> op.h in s.pool)
    ensures op.Import? ==> (ReplyTo(s, op) == Done <==> op.validHandle && op.dup0 && op.dup1 && op.mmapOk)
    ensures ReplyTo(s, op) != Done ==> Next(s, op).pool == s.pool && (!op.Import? ==> Next(s, op) == s)
  {
    if op.Lock? && op.h in s.pool {
      var u := s.pool[op.h].surface;
      RegionAcceptedExactlyWhenInside(op.l, op.t, op.w, op.ht, u.width, u.height, true);
    }
    hide ValidateLock, HasInfo;
  }

  // ----- lock accounting -----

  predicate AcceptedLock(s: State, op: Op, h: nat) {
    op.Lock? && op.h == h && (op.reading || op.writing) && ReplyTo(s, op) == Done
  }

  predicate AcceptedUnlock(s: State, op: Op, h: nat) {
    op.Unlock? && op.h == h && ReplyTo(s, op) == Done
  }

  /** An accepted unlock whose cache flush failed. */
  predicate FailedFlush(s: State, op: Op, h: nat) {
    AcceptedUnlock(s, op, h) && s.pool[h].cpuWrite && !op.syncOk
  }

  function One(condition: bool): nat {
    if condition then 1 else 0
  }

  function Locks(s: State, ops: seq<Op>, h: nat): nat
    decreases |ops|
  {
    if ops == [] then 0 else One(AcceptedLock(s, ops[0], h)) + Locks(Next(s, ops[0]), ops[1..], h)
  }

  function Unlocks(s: State, ops: seq<Op>, h: nat): nat
    decreases |ops|
  {
    if ops == [] then 0 else One(AcceptedUnlock(s, ops[0], h)) + Unlocks(Next(s, ops[0]), ops[1..], h)
  }

  function FailedFlushes(s: State, ops: seq<Op>, h: nat): nat
    decreases |ops|
  {
    if ops == [] then 0 else One(FailedFlush(s, ops[0], h)) + FailedFlushes(Next(s, ops[0]), ops[1..], h)
  }

  /** The count a handle has, or will start with once it is imported. */
  function LockCount(s: State, h: nat): nat {
    if h in s.pool then s.pool[h].lockCount else 0
  }

  lemma StepBalance(s: State, op: Op, h: nat)
    requires h in Next(s, op).pool && (h in s.pool ==> h < s.nextHandle)
    ensures LockCount(Next(s, op), h) + One(AcceptedUnlock(s, op, h))
         == LockCount(s, h) + One(AcceptedLock(s, op, h)) + One(FailedFlush(s, op, h))
  {
    hide ValidateLock, HasInfo;
  }

  lemma DeadStaysDead(s: State, op: Op, h: nat)
    requires h !in s.pool && h < s.nextHandle
    ensures h !in Next(s, op).pool && h < Next(s, op).nextHandle
    ensures (op.Lock? || op.Unlock? || op.Free?) && op.h == h ==> ReplyTo(s, op) == BadBuffer && Next(s, op) == s
  {
    hide ValidateLock, HasInfo;
  }

  lemma {:induction false} DeadForever(s: State, ops: seq<Op>, h: nat)
    requires h !in s.pool && h < s.nextHandle
    ensures h !in Run(s, ops).pool && h < Run(s, ops).nextHandle
    decreases |ops|
  {
    if ops != [] {
      DeadStaysDead(s, ops[0], h);
      DeadForever(Next(s, ops[0]), ops[1..], h);
    }
  }

  /** A freed handle is refused by lock, unlock and free, however the run goes on. */
  lemma FreedHandleIsRefused(s: State, h: nat, ops: seq<Op>, op: Op)
    requires Valid(s) && ReplyTo(s, Free(h)) == Done
    requires (op.Lock? || op.Unlock? || op.Free?) && op.h == h
    ensures var t := Run(Next(s, Free(h)), ops); ReplyTo(t, op) == BadBuffer && Next(t, op) == t
  {
    assert Numbered(s);
    FreeReleasesOnce(s, Free(h));
    hide Valid, ValidateLock, HasInfo;
    DeadForever(Next(s, Free(h)), ops, h);
    DeadStaysDead(Run(Next(s, Free(h)), ops), op, h);
  }

  /**
   * In every run the lock count is the accepted CPU locks minus the accepted unlocks; each failed cache flush leaves
   * it one too high.
   */
  lemma {:induction false} LockCountIsBalance(s: State, ops: seq<Op>, h: nat)
    requires Valid(s) && h in Run(s, ops).pool
    ensures LockCount(Run(s, ops), h) + Unlocks(s, ops, h) == LockCount(s, h) + Locks(s, ops, h) + FailedFlushes(s,
        ops, h)
    decreases |ops|
  {
    if ops != [] {
      var t := Next(s, ops[0]);
      assert Numbered(s);
      StepKeepsValid(s, ops[0]);
      if h !in t.pool {
        NeverImported(s, ops[0], h);
        if h < t.nextHandle {
          DeadForever(t, ops[1..], h);
        }
      } else {
        StepBalance(s, ops[0], h);
      }
      hide Valid, Next, ValidateLock;
      LockCountIsBalance(t, ops[1..], h);
    }
  }

  /** A step that leaves a handle outside the pool either freed it, so it is dead, or did not touch it. */
  lemma NeverImported(s: State, op: Op, h: nat)
    requires Valid(s) && h !in Next(s, op).pool
    ensures h >= Next(s, op).nextHandle ==>
      h !in s.pool && LockCount(s, h) == 0 && !AcceptedLock(s, op, h) && !AcceptedUnlock(s, op, h)
  {
    assert Numbered(s);
    hide ValidateLock, HasInfo;
  }

  /** From the start of the process, with every flush succeeding, the count is exactly locks minus unlocks. */
  lemma LocksMinusUnlocks(ops: seq<Op>, h: nat)
    requires h in Run(START, ops).pool && FailedFlushes(START, ops, h) == 0
    ensures Run(START, ops).pool[h].lockCount == Locks(START, ops, h) - Unlocks(START, ops, h)
  {
    StartIsValid();
    LockCountIsBalance(START, ops, h);
  }

  // ----- mappings -----

  lemma MappingStays(s: State, op: Op, h: nat)
    requires h in s.pool && h < s.nextHandle && h in Next(s, op).pool && s.pool[h].mapping.Some?
    ensures Next(s, op).pool[h].mapping == s.pool[h].mapping && Next(s, op).pool[h].shareFd == s.pool[h].shareFd
  {
    hide ValidateLock, HasInfo;
  }

  /** A buffer is mapped at most once: as long as the handle lives, it keeps its first mapping. */
  lemma {:induction false} MappedOnce(s: State, ops: seq<Op>, h: nat)
    requires Valid(s) && h in s.pool && s.pool[h].mapping.Some? && h in Run(s, ops).pool
    ensures Run(s, ops).pool[h].mapping == s.pool[h].mapping
    decreases |ops|
  {
    if ops != [] {
      var t := Next(s, ops[0]);
      assert Numbered(s);
      StepKeepsValid(s, ops[0]);
      hide Valid, Next, ValidateLock;
      if h in t.pool {
        MappingStays(s, ops[0], h);
        MappedOnce(t, ops[1..], h);
      } else {
        assert h < t.nextHandle;
        DeadForever(t, ops[1..], h);
      }
    }
  }

  /** The lock invariants over every run: a positive count means mapped, a writer means a positive count. */
  lemma LockedMeansMapped(ops: seq<Op>, h: nat)
    requires h in Run(START, ops).pool
    ensures var b := Run(START, ops).pool[h]; (b.lockCount > 0 ==> b.mapping.Some?) && (b.cpuWrite ==> b.lockCount > 0)
  {
    StartIsValid();
    RunKeepsValid(START, ops);
    assert BufferOk(Run(START, ops).pool[h]);
  }

  /** When every handle has been freed the process holds no descriptor and no mapping, and released nothing twice. */
  lemma NothingHeldAtTheEnd(ops: seq<Op>)
    requires Run(START, ops).pool == map[]
    ensures var k := Run(START, ops).kernel; k.open == {} && k.mapped == {} && k.badReleases == 0
  {
    StartIsValid();
    RunKeepsValid(START, ops);
    var s := Run(START, ops);
    hide Run;
    assert forall h: nat, k: nat :: !HoldsFd(s, h, k) && !HoldsMap(s, h, k);
    assert forall k: nat :: k !in s.kernel.open && k !in s.kernel.mapped;
  }

  // ----- writers -----

  /** A read-only CPU lock taken while a write lock is held. */
  predicate ReadsOverWrite(s: State, op: Op, h: nat) {
    AcceptedLock(s, op, h) && op.reading && !op.writing && s.pool[h].cpuWrite
  }

  predicate NoReadOverWrite(s: State, ops: seq<Op>, h: nat)
    decreases |ops|
  {
    ops != [] ==> !ReadsOverWrite(s, ops[0], h) && NoReadOverWrite(Next(s, ops[0]), ops[1..], h)
  }

  /** Write locks taken since the buffer was last unlocked completely, given how many there were before. */
  function Writers(s: State, ops: seq<Op>, h: nat, before: nat): nat
    decreases |ops|
  {
    if ops == [] then before
    else
      var t := Next(s, ops[0]);
      var now := before + One(AcceptedLock(s, ops[0], h) && ops[0].writing);
      Writers(t, ops[1..], h, if LockCount(t, h) == 0 then 0 else now)
  }

  function WritersOf(b: Buffer): nat {
    One(b.cpuWrite)
  }

  lemma StepWriters(s: State, op: Op, h: nat)
    requires h in s.pool && h < s.nextHandle && BufferOk(s.pool[h]) && h in Next(s, op).pool && !ReadsOverWrite(s,
        op, h)
    requires s.pool[h].surface.base != BLOB
    ensures var t := Next(s, op);
      && t.pool[h].surface == s.pool[h].surface
      && WritersOf(t.pool[h]) == if LockCount(t, h) == 0 then 0
                                 else WritersOf(s.pool[h]) + One(AcceptedLock(s, op, h) && op.writing)
  {
    hide ValidateLock, HasInfo;
  }

  /**
   * Writer exclusion: except for BLOB, as long as no read-only lock is taken over a write lock, at most one write lock
   * is out at a time, and the write flag says whether there is one.
   */
  lemma {:induction false} OneWriterAtATime(s: State, ops: seq<Op>, h: nat)
    requires Valid(s) && h in s.pool && s.pool[h].surface.base != BLOB && h in Run(s, ops).pool
    requires NoReadOverWrite(s, ops, h)
    ensures Writers(s, ops, h, WritersOf(s.pool[h])) == WritersOf(Run(s, ops).pool[h]) <= 1
    decreases |ops|
  {
    if ops != [] {
      var t := Next(s, ops[0]);
      assert Numbered(s) && BufferOk(s.pool[h]);
      StepKeepsValid(s, ops[0]);
      hide Valid, Next, ValidateLock, AcceptedLock, ReadsOverWrite, LockCount, BufferOk;
      if h in t.pool {
        StepWriters(s, ops[0], h);
        OneWriterAtATime(t, ops[1..], h);
      } else {
        assert h < t.nextHandle;
        DeadForever(t, ops[1..], h);
      }
    }
  }

  /** The excluded case: a read lock over a write lock clears the flag, and a second write lock is let in. */
  lemma ReadOverWriteAdmitsSecondWriter(s: State, h: nat, read: Op, write: Op)
    requires Valid(s) && h in s.pool && ReadsOverWrite(s, read, h)
    requires write.Lock? && write.h == h && write.writing && write.fenceOk
    requires ValidateLock(write.l, write.t, write.w, write.ht, s.pool[h].surface.width, s.pool[h].surface.height,
        true) == Locked
    ensures var t := Next(s, read);
      && !t.pool[h].cpuWrite && ReplyTo(t, write) == Done
      && Next(t, write).pool[h].lockCount == s.pool[h].lockCount + 2
  {
    assert BufferOk(s.pool[h]);
    hide ValidateLock, HasInfo;
  }
}
