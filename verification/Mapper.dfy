/**
 * The mapper's code: handles with their own fields, the pool of registered handles, and the calls that change them.
 * Every call is proved to be the step of BufferLife with the same answers from the kernel.
 */
module Mapper {
  import opened Formats
  import opened Access
  import opened BufferLife

  datatype TxDirection = TxNone | TxBoth | TxToDevice | TxFromDevice

  function DirectionOf(reading: bool, writing: bool): TxDirection {
    if reading && writing then TxBoth
    else if writing then TxToDevice
    else if reading then TxFromDevice
    else TxNone
  }

  const NUM_FDS: nat := 2
  const CLOSED: int := -1

  class ImportedHandle {
    /** The cloned descriptors: the buffer's, then the attribute region's. */
    var fds: seq<int>
    var lockCount: nat
    var cpuWrite: bool
    var importPid: int
    var base: Option<nat>
    var attrBase: Option<nat>
    const surface: Surface

    /** native_handle_create: no descriptor yet. The source never sets the lock count; it is taken to start at zero. */
    constructor (surface: Surface)
      ensures this.surface == surface && fds == [] && lockCount == 0 && !cpuWrite && importPid == -1
      ensures base == None && attrBase == None
    {
      this.surface, fds, lockCount, cpuWrite, importPid := surface, [], 0, false, -1;
      base, attrBase := None, None;
    }

    predicate Complete(pid: int)
      reads this
    {
      |fds| == NUM_FDS && fds[0] >= 0 && fds[1] >= 0 && attrBase.Some? && importPid == pid
    }

    function AsBuffer(): Buffer
      requires Complete(importPid)
      reads this
    {
      Buffer(fds[0], fds[1], attrBase.value, base, lockCount, cpuWrite, surface)
    }

    /** buffer_sync: a direction locks, no direction unlocks; a failed flush returns early. */
    method BufferSync(direction: TxDirection, syncOk: bool)
      modifies this`lockCount, this`cpuWrite
      ensures direction != TxNone ==>
        lockCount == old(lockCount) + 1 && cpuWrite == (direction == TxToDevice || direction == TxBoth)
      ensures direction == TxNone && old(cpuWrite) && !syncOk ==> lockCount == old(lockCount) && cpuWrite
      ensures direction == TxNone && (old(cpuWrite) ==> syncOk) ==>
        && lockCount == (if old(lockCount) > 0 then old(lockCount) - 1 else 0)
        && cpuWrite == (old(cpuWrite) && lockCount > 0)
    {
      if direction != TxNone {
        lockCount := lockCount + 1;
        cpuWrite := direction == TxToDevice || direction == TxBoth;
      } else {
        if cpuWrite {
          if !syncOk {
            return;
          }
        }
        lockCount := if lockCount > 0 then lockCount - 1 else 0;
        if lockCount == 0 {
          cpuWrite := false;
        }
      }
    }
  }

  class Process {
    const pid: int
    /** gRegisteredHandles, by address. */
    var pool: map<nat, ImportedHandle>
    var nextHandle: nat
    var kernel: Kernel

    constructor (pid: int)
      ensures this.pid == pid && Linked() && Abs() == START
    {
      this.pid := pid;
      pool, nextHandle, kernel := map[], 0, Kernel({}, {}, 0, 0);
    }

    /** Registered handles are complete, and no object is registered under two addresses. */
    ghost predicate Linked()
      reads this, pool.Values
    {
      && (forall a: nat :: a in pool ==> a < nextHandle && pool[a].Complete(pid))
      && (forall a: nat, b: nat :: a in pool && b in pool && a != b ==> pool[a] != pool[b])
    }

    /** The protocol state this process is in. */
    ghost function Abs(): State
      requires Linked()
      reads this, pool.Values
    {
      State(map a: nat | a in pool :: pool[a].AsBuffer(), nextHandle, kernel)
    }

    // ----- system calls -----

    method Close(fd: int)
      modifies this`kernel
      ensures kernel == if fd >= 0 then old(kernel).Close(fd) else old(kernel)
    {
      if fd >= 0 {
        kernel := kernel.Close(fd);
      }
    }

    /** native_handle_close: closes the descriptors counted so far, in order. */
    method CloseHandle(handle: ImportedHandle)
      requires |handle.fds| <= NUM_FDS
      modifies this`kernel
      ensures kernel == CloseAll(old(kernel), handle.fds)
    {
      var i := 0;
      while i < |handle.fds|
        invariant 0 <= i <= |handle.fds|
        invariant CloseAll(kernel, handle.fds[i..]) == CloseAll(old(kernel), handle.fds)
      {
        assert handle.fds[i..][1..] == handle.fds[i + 1..];
        Close(handle.fds[i]);
        i := i + 1;
      }
    }

    /** make_imported_handle: on a failed dup the handle is destroyed, which closes what has been cloned. */
    method MakeImportedHandle(surface: Surface, dupOk: seq<bool>) returns (handle: ImportedHandle, ok: bool)
      requires |dupOk| == NUM_FDS
      modifies this`kernel
      ensures fresh(handle) && ok == (dupOk[0] && dupOk[1])
      ensures handle.surface == surface && handle.lockCount == 0 && !handle.cpuWrite && handle.base == None
      ensures ok ==> handle.fds == [old(kernel).next, old(kernel).next + 1] && kernel == old(kernel).Dup().Dup()
      ensures !ok && !dupOk[0] ==> kernel == old(kernel)
      ensures !ok && dupOk[0] ==> kernel == old(kernel).Dup().Close(old(kernel).next)
    {
      handle := new ImportedHandle(surface);
      for i := 0 to NUM_FDS
        invariant fresh(handle) && handle.surface == surface && handle.lockCount == 0 && !handle.cpuWrite &&
            handle.base == None
        invariant forall k :: 0 <= k < i ==> dupOk[k]
        invariant i == 0 ==> handle.fds == [] && kernel == old(kernel)
        invariant i == 1 ==> handle.fds == [old(kernel).next] && kernel == old(kernel).Dup()
        invariant i == 2 ==> handle.fds == [old(kernel).next, old(kernel).next + 1] && kernel == old(kernel).Dup().Dup()
      {
        if !dupOk[i] {
          CloseHandle(handle);
          return handle, false;
        }
        handle.fds := handle.fds + [kernel.next];
        kernel := kernel.Dup();
      }
      ok := true;
    }

    // ----- the calls -----

    method ImportBuffer(validHandle: bool, surface: Surface, dup0: bool, dup1: bool, mmapOk: bool)
      returns (reply: Reply, address: nat)
      requires Linked()
      modifies this`kernel, this`pool, this`nextHandle
      ensures Linked() && fresh(pool.Values - old(pool.Values))
      ensures Abs() == Next(old(Abs()), Import(validHandle, surface, dup0, dup1, mmapOk))
      ensures reply == ReplyTo(old(Abs()), Import(validHandle, surface, dup0, dup1, mmapOk))
      ensures reply == Done ==> address == old(nextHandle) && address in pool
    {
      hide CloseAll, Next, ReplyTo, Kernel.Dup, Kernel.Map, Kernel.Close;
      ghost var before := Abs();
      ImportOutcome(before, validHandle, surface, dup0, dup1, mmapOk);
      address := nextHandle;
      if !validHandle {
        return BadBuffer, address;
      }
      var handle, ok := MakeImportedHandle(surface, [dup0, dup1]);
      if !ok {
        SameBuffers(before);
        return NoResources, address;
      }
      SameBuffers(before);
      if !mmapOk {
        CloseBoth(kernel, handle.fds);
        CloseHandle(handle);
        SameBuffers(before);
        return NoResources, address;
      }
      Register(handle);
      assert pool.Values <= old(pool.Values) + {handle};
      return Done, address;
    }

    /** The attribute mapping and the owner of a new handle. */
    method SetUp(handle: ImportedHandle)
      requires |handle.fds| == NUM_FDS && handle.fds[0] >= 0 && handle.fds[1] >= 0 && handle.lockCount == 0
      modifies this`kernel, handle
      ensures kernel == old(kernel).Map() && handle.Complete(pid)
      ensures handle.AsBuffer() ==
        Buffer(old(handle.fds[0]), old(handle.fds[1]), old(kernel).next, None, 0, false, handle.surface)
    {
      handle.attrBase := Some(kernel.next);
      kernel := kernel.Map();
      handle.importPid := pid;
      handle.base := None;
      handle.cpuWrite := false;
    }

    /** The rest of a successful import: a new handle is never in the pool already, so adding it succeeds. */
    method Register(handle: ImportedHandle)
      requires Linked() && |handle.fds| == NUM_FDS && handle.fds[0] >= 0 && handle.fds[1] >= 0
      requires handle.lockCount == 0
      requires forall a: nat :: a in pool ==> pool[a] != handle
      modifies this`kernel, this`pool, this`nextHandle, handle
      ensures Linked() && pool == old(pool)[old(nextHandle) := handle] && nextHandle == old(nextHandle) + 1
      ensures kernel == old(kernel).Map()
      ensures Abs().pool == old(Abs()).pool[old(nextHandle) :=
        Buffer(old(handle.fds[0]), old(handle.fds[1]), old(kernel).next, None, 0, false, handle.surface)]
    {
      hide Kernel.Map;
      ghost var before := Abs();
      SetUp(handle);
      pool := pool[nextHandle := handle];
      nextHandle := nextHandle + 1;
      OneBufferAdded(before, before.nextHandle);
    }

    /** RegisteredHandlePool::get */
    method Registered(address: nat) returns (r: Option<ImportedHandle>)
      ensures r == if address in pool then Some(pool[address]) else None
    {
      r := if address in pool then Some(pool[address]) else None;
    }

    /** mali_map_buffer: maps only what is not mapped yet. */
    method MapBuffer(handle: ImportedHandle, outcome: MapOutcome) returns (ok: bool)
      modifies this`kernel, handle`base
      ensures ok == (old(handle.base).Some? || outcome == Mapped)
      ensures ok && old(handle.base).None? ==> handle.base == Some(old(kernel).next) && kernel == old(kernel).Map()
      ensures !ok || old(handle.base).Some? ==> handle.base == old(handle.base) && kernel == old(kernel)
    {
      ok := true;
      if handle.base.None? {
        if outcome != Mapped {
          return false;
        }
        handle.base := Some(kernel.next);
        kernel := kernel.Map();
      }
    }

    /** mali_gralloc_lock */
    method GrallocLock(handle: ImportedHandle, op: Op) returns (reply: Reply)
      requires op.Lock? && handle.Complete(pid)
      modifies this`kernel, handle`base, handle`lockCount, handle`cpuWrite
      ensures handle.Complete(pid)
      ensures op.fenceOk && !(old(handle.cpuWrite) && op.writing && handle.surface.base != BLOB) ==>
        reply == LockReply(old(handle.AsBuffer()), op)
      ensures reply != Done || !(op.reading || op.writing) ==>
        handle.AsBuffer() == old(handle.AsBuffer()) && kernel == old(kernel)
      ensures reply == Done && (op.reading || op.writing) ==>
        && kernel == (if old(handle.base).None? then old(kernel).Map() else old(kernel))
        && handle.AsBuffer() == old(handle.AsBuffer()).(
           mapping := if old(handle.base).None? then Some(old(kernel).next) else old(handle.base),
           lockCount := old(handle.lockCount) + 1, cpuWrite := op.writing)
    {
      hide Info, WellFormed, ValidateLock;
      if ValidateLock(op.l, op.t, op.w, op.ht, handle.surface.width, handle.surface.height,
          handle.importPid == pid) != Locked {
        return BadValue;
      }
      var info := GetFormatInfo(handle.surface.base);
      if info.None? {
        return BadValue;
      }
      if op.reading || op.writing {
        var mapped := MapBuffer(handle, op.mapAnswer);
        if !mapped {
          return if op.mapAnswer == MapInvalid then BadValue else NoResources;
        }
        handle.BufferSync(DirectionOf(op.reading, op.writing), true);
      }
      return Done;
    }

    /** lockBuffer: one writer at a time, except for BLOB. */
    method LockHandle(handle: ImportedHandle, op: Op) returns (reply: Reply)
      requires op.Lock? && op.fenceOk && handle.Complete(pid)
      modifies this`kernel, handle`base, handle`lockCount, handle`cpuWrite
      ensures handle.Complete(pid)
      ensures reply == LockReply(old(handle.AsBuffer()), op)
      ensures handle.AsBuffer() == LockedBuffer(old(handle.AsBuffer()), old(kernel), op)
      ensures kernel == LockedKernel(old(handle.AsBuffer()), old(kernel), op)
    {
      hide ValidateLock, HasInfo;
      if handle.cpuWrite && op.writing && handle.surface.base != BLOB {
        return BadBuffer;
      }
      reply := GrallocLock(handle, op);
    }

    /** lock: looks the handle up and waits for the fence. */
    method LockBuffer(op: Op) returns (reply: Reply)
      requires Linked() && op.Lock?
      modifies this`kernel, pool.Values
      ensures Linked() && pool == old(pool)
      ensures Abs() == Next(old(Abs()), op) && reply == ReplyTo(old(Abs()), op)
    {
      hide ValidateLock, HasInfo, LockedBuffer, LockedKernel;
      ghost var before := Abs();
      var registered := Registered(op.h);
      if registered.None? {
        return BadBuffer;
      }
      var handle := registered.value;
      if !op.fenceOk {
        return BadValue;
      }
      hide LockReply, Next, ReplyTo;
      LockOutcome(before, op);
      reply := LockHandle(handle, op);
      OneBufferChanged(before, op.h);
    }

    /** unlock and unlockBuffer: a failed flush is not reported. */
    method UnlockBuffer(h: nat, syncOk: bool) returns (reply: Reply)
      requires Linked()
      modifies pool.Values
      ensures Linked() && pool == old(pool)
      ensures Abs() == Next(old(Abs()), Unlock(h, syncOk)) && reply == ReplyTo(old(Abs()), Unlock(h, syncOk))
    {
      ghost var before := Abs();
      var registered := Registered(h);
      if registered.None? {
        return BadBuffer;
      }
      hide Next, ReplyTo, UnlockedBuffer;
      UnlockOutcome(before, h, syncOk);
      reply := UnlockHandle(registered.value, syncOk);
      OneBufferChanged(before, h);
    }

    /** unlockBuffer */
    method UnlockHandle(handle: ImportedHandle, syncOk: bool) returns (reply: Reply)
      requires handle.Complete(pid)
      modifies handle`lockCount, handle`cpuWrite
      ensures handle.Complete(pid)
      ensures reply == if old(handle.lockCount) > 0 then Done else BadBuffer
      ensures handle.AsBuffer() == UnlockedBuffer(old(handle.AsBuffer()), syncOk)
    {
      if handle.lockCount == 0 {
        return BadBuffer;
      }
      handle.BufferSync(TxNone, syncOk);
      return Done;
    }

    /** freeBuffer: unregister, unmap, close the attribute descriptor by hand, then destroy the handle. */
    method FreeBuffer(h: nat) returns (reply: Reply)
      requires Linked()
      modifies this`kernel, this`pool, pool.Values
      ensures Linked() && pool == old(pool) - {h}
      ensures Abs() == Next(old(Abs()), Free(h)) && reply == ReplyTo(old(Abs()), Free(h))
    {
      hide Kernel.Unmap, Kernel.Close;
      ghost var before := Abs();
      var registered := Registered(h);
      if registered.None? {
        assert pool - {h} == pool;
        return BadBuffer;
      }
      var handle := registered.value;
      assert before.pool[h] == handle.AsBuffer();
      pool := pool - {h};
      Destroy(handle);
      OneBufferRemoved(before, h);
      return Done;
    }

    /** What freeBuffer and the handle's destructor release. */
    method Destroy(handle: ImportedHandle)
      requires handle.Complete(pid)
      modifies this`kernel, handle
      ensures var b := old(handle.AsBuffer());
        var k := if b.mapping.Some? then old(kernel).Unmap(b.mapping.value) else old(kernel);
        kernel == k.Unmap(b.attrMap).Close(b.attrFd).Close(b.shareFd)
    {
      if handle.importPid == pid {
        if handle.base.Some? {
          kernel := kernel.Unmap(handle.base.value);
          handle.base := None;
          handle.cpuWrite := false;
          handle.lockCount := 0;
        }
        kernel := kernel.Unmap(handle.attrBase.value);
        Close(handle.fds[1]);
      }
      handle.fds := [handle.fds[0], CLOSED];
      handle.attrBase := None;
      handle.importPid := -1;
      CloseFirst(kernel, handle.fds);
      CloseHandle(handle);
    }

    method Perform(op: Op) returns (reply: Reply)
      requires Linked()
      modifies this`kernel, this`pool, this`nextHandle, pool.Values
      ensures Linked() && fresh(pool.Values - old(pool.Values))
      ensures Abs() == Next(old(Abs()), op) && reply == ReplyTo(old(Abs()), op)
    {
      match op {
        case Import(validHandle, surface, dup0, dup1, mmapOk) =>
          var address;
          reply, address := ImportBuffer(validHandle, surface, dup0, dup1, mmapOk);
        case Lock(_, _, _, _, _, _, _, _, _) => reply := LockBuffer(op);
        case Unlock(h, syncOk) => reply := UnlockBuffer(h, syncOk);
        case Free(h) => reply := FreeBuffer(h);
      }
    }

    /** Any sequence of calls takes the process through the run of the protocol, so what holds of runs holds of it. */
    method Execute(ops: seq<Op>)
      requires Linked()
      modifies this`kernel, this`pool, this`nextHandle, pool.Values
      ensures Linked() && Abs() == Run(old(Abs()), ops)
    {
      hide Next, ReplyTo;
      var i := 0;
      while i < |ops|
        invariant 0 <= i <= |ops|
        invariant Linked() && fresh(pool.Values - old(pool.Values))
        invariant Run(Abs(), ops[i..]) == Run(old(Abs()), ops)
      {
        assert ops[i..][0] == ops[i] && ops[i..][1..] == ops[i + 1..];
        var reply := Perform(ops[i]);
        i := i + 1;
      }
    }

    /** The other handles are as before, so one entry of the abstract pool is replaced. */
    lemma OneBufferChanged(before: State, h: nat)
      requires Linked() && h in pool && before.pool.Keys == pool.Keys
      requires forall a: nat :: a in pool && a != h ==> pool[a].AsBuffer() == before.pool[a]
      ensures Abs().pool == before.pool[h := pool[h].AsBuffer()]
    {
    }

    lemma OneBufferAdded(before: State, address: nat)
      requires Linked() && address in pool && address !in before.pool && pool.Keys == before.pool.Keys + {address}
      requires forall a: nat :: a in pool && a != address ==> pool[a].AsBuffer() == before.pool[a]
      ensures Abs().pool == before.pool[address := pool[address].AsBuffer()]
    {
    }

    lemma OneBufferRemoved(before: State, address: nat)
      requires Linked() && pool.Keys == before.pool.Keys - {address}
      requires forall a: nat :: a in pool ==> pool[a].AsBuffer() == before.pool[a]
      ensures Abs().pool == before.pool - {address}
    {
    }

    /** Only the kernel has changed. */
    twostate lemma SameBuffers(before: State)
      requires old(Linked()) && before == old(Abs())
      requires pool == old(pool) && nextHandle == old(nextHandle)
      requires forall a: nat :: a in pool ==> unchanged(pool[a])
      ensures Linked() && Abs() == before.(kernel := kernel)
    {
      assert Abs().pool == before.pool;
    }
  }

  lemma ImportOutcome(s: State, validHandle: bool, surface: Surface, dup0: bool, dup1: bool, mmapOk: bool)
    ensures var op := Import(validHandle, surface, dup0, dup1, mmapOk);
      var k0 := s.kernel;
      && k0.Dup().next == k0.next + 1 && k0.Dup().Dup().next == k0.next + 2
      && ReplyTo(s, op) == (if !validHandle then BadBuffer else if dup0 && dup1 && mmapOk then Done else NoResources)
      && Next(s, op) ==
         if !validHandle || !dup0 then s
         else if !dup1 then s.(kernel := k0.Dup().Close(k0.next))
         else if !mmapOk then s.(kernel := k0.Dup().Dup().Close(k0.next).Close(k0.next + 1))
         else State(s.pool[s.nextHandle := Buffer(k0.next, k0.next + 1, k0.next + 2, None, 0, false, surface)],
                    s.nextHandle + 1, k0.Dup().Dup().Map())
  {
  }

  /** What a lock leaves of one buffer and of the kernel. */
  function LockedBuffer(b: Buffer, kernel: Kernel, op: Op): Buffer
    requires op.Lock?
  {
    if LockReply(b, op) == Done && (op.reading || op.writing) then
      b.(mapping := if b.mapping.None? then Some(kernel.next) else b.mapping, lockCount := b.lockCount + 1,
      cpuWrite := op.writing)
    else b
  }

  function LockedKernel(b: Buffer, kernel: Kernel, op: Op): Kernel
    requires op.Lock?
  {
    if LockReply(b, op) == Done && (op.reading || op.writing) && b.mapping.None? then kernel.Map() else kernel
  }

  lemma LockOutcome(s: State, op: Op)
    requires op.Lock? && op.h in s.pool
    ensures ReplyTo(s, op) == LockReply(s.pool[op.h], op)
    ensures Next(s, op) == State(s.pool[op.h := LockedBuffer(s.pool[op.h], s.kernel, op)], s.nextHandle,
                                 LockedKernel(s.pool[op.h], s.kernel, op))
  {
    hide LockReply;
    assert s.pool[op.h := s.pool[op.h]] == s.pool;
  }

  function UnlockedBuffer(b: Buffer, syncOk: bool): Buffer {
    if b.lockCount == 0 || (b.cpuWrite && !syncOk) then b
    else b.(lockCount := b.lockCount - 1, cpuWrite := b.cpuWrite && b.lockCount > 1)
  }

  lemma UnlockOutcome(s: State, h: nat, syncOk: bool)
    requires h in s.pool
    ensures ReplyTo(s, Unlock(h, syncOk)) == if s.pool[h].lockCount > 0 then Done else BadBuffer
    ensures Next(s, Unlock(h, syncOk)) == s.(pool := s.pool[h := UnlockedBuffer(s.pool[h], syncOk)])
  {
    assert s.pool[h := s.pool[h]] == s.pool;
  }

  function CloseAll(k: Kernel, fds: seq<int>): Kernel
    decreases |fds|
  {
    if fds == [] then k
    else CloseAll(if fds[0] >= 0 then k.Close(fds[0]) else k, fds[1..])
  }

  lemma CloseBoth(k: Kernel, fds: seq<int>)
    requires |fds| == NUM_FDS && fds[0] >= 0 && fds[1] >= 0
    ensures CloseAll(k, fds) == k.Close(fds[0]).Close(fds[1])
  {
    var rest := fds[1..];
    assert rest[0] == fds[1] && rest[1..] == [];
    assert CloseAll(k.Close(fds[0]), rest) == CloseAll(k.Close(fds[0]).Close(fds[1]), rest[1..]);
  }

  /** After the attribute descriptor has been forgotten only the buffer's is closed. */
  lemma CloseFirst(k: Kernel, fds: seq<int>)
    requires |fds| == NUM_FDS && fds[0] >= 0 && fds[1] == CLOSED
    ensures CloseAll(k, fds) == k.Close(fds[0])
  {
    var rest := fds[1..];
    assert rest[0] == fds[1] && rest[1..] == [];
    assert CloseAll(k.Close(fds[0]), rest) == CloseAll(k.Close(fds[0]), rest[1..]);
  }
}
