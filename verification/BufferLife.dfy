/**
 * The mapper's protocol as a state machine: import, lock, unlock and free over the buffers of one process, with the
 * descriptors and mappings the process holds. Each API call is one step; what the system calls answer is part of it.
 */
module BufferLife {
  import opened Formats
  import opened Access

  /** What a lock looks at and never changes. */
  datatype Surface = Surface(width: int, height: int, base: BaseFormat)

  /** An imported handle: two cloned descriptors, the attribute mapping, and the lock state. */
  datatype Buffer = Buffer(
    shareFd: nat, attrFd: nat, attrMap: nat, mapping: Option<nat>, lockCount: nat, cpuWrite: bool, surface: Surface)

  /** The kernel's side of one process. Descriptors and mappings are numbered in the order they are made. */
  datatype Kernel = Kernel(open: set<nat>, mapped: set<nat>, next: nat, badReleases: nat) {
    function Dup(): Kernel { this.(open := open + {next}, next := next + 1) }
    function Map(): Kernel { this.(mapped := mapped + {next}, next := next + 1) }

    /** Closing a descriptor that is not open, or unmapping what is not mapped, is counted as an error. */
    function Close(fd: nat): Kernel {
      if fd in open then this.(open := open - {fd}) else this.(badReleases := badReleases + 1)
    }
    function Unmap(m: nat): Kernel {
      if m in mapped then this.(mapped := mapped - {m}) else this.(badReleases := badReleases + 1)
    }
  }

  /** The pool of registered handles, by address; a new handle gets an address never used before. */
  datatype State = State(pool: map<nat, Buffer>, nextHandle: nat, kernel: Kernel)

  const START := State(map[], 0, Kernel({}, {}, 0, 0))

  datatype MapOutcome = Mapped | MapRefused | MapInvalid

  /** One call, with the answers of the system calls it may make. */
  datatype Op =
    | Import(validHandle: bool, surface: Surface, dup0: bool, dup1: bool, mmapOk: bool)
    | Lock(h: nat, reading: bool, writing: bool, l: int, t: int, w: int, ht: int, fenceOk: bool, mapAnswer: MapOutcome)
    | Unlock(h: nat, syncOk: bool)
    | Free(h: nat)

  datatype Reply = Done | BadBuffer | BadValue | NoResources

  // ----- the steps -----

  function ImportReply(op: Op): Reply
    requires op.Import?
  {
    if !op.validHandle then BadBuffer else if op.dup0 && op.dup1 && op.mmapOk then Done else NoResources
  }

  function LockReply(b: Buffer, op: Op): Reply
    requires op.Lock?
  {
    if !op.fenceOk then BadValue
    else if b.cpuWrite && op.writing && b.surface.base != BLOB then BadBuffer
    else if ValidateLock(op.l, op.t, op.w, op.ht, b.surface.width, b.surface.height, true) != Locked then BadValue
    else if !HasInfo(b.surface.base) then BadValue
    else if (op.reading || op.writing) && b.mapping.None? && op.mapAnswer != Mapped then
      (if op.mapAnswer == MapInvalid then BadValue else NoResources)
    else Done
  }

  function ReplyTo(s: State, op: Op): Reply {
    match op
    case Import(_, _, _, _, _) => ImportReply(op)
    case Lock(h, _, _, _, _, _, _, _, _) => if h in s.pool then LockReply(s.pool[h], op) else BadBuffer
    case Unlock(h, _) => if h in s.pool && s.pool[h].lockCount > 0 then Done else BadBuffer
    case Free(h) => if h in s.pool then Done else BadBuffer
  }

  /** Descriptors are cloned one by one; when a step fails, what was acquired so far is released. */
  function ImportNext(s: State, op: Op): State
    requires op.Import?
  {
    if !op.validHandle || !op.dup0 then s
    else
      var k0 := s.kernel;
      var k1 := k0.Dup();
      if !op.dup1 then s.(kernel := k1.Close(k0.next))
      else
        var k2 := k1.Dup();
        if !op.mmapOk then s.(kernel := k2.Close(k0.next).Close(k1.next))
        else
          State(s.pool[s.nextHandle := Buffer(k0.next, k1.next, k2.next, None, 0, false, op.surface)],
                s.nextHandle + 1, k2.Map())
  }

  function LockNext(s: State, op: Op): State
    requires op.Lock? && op.h in s.pool && LockReply(s.pool[op.h], op) == Done
  {
    var b := s.pool[op.h];
    if !op.reading && !op.writing then s
    else
      var kernel := if b.mapping.None? then s.kernel.Map() else s.kernel;
      var mapping := if b.mapping.None? then Some(s.kernel.next) else b.mapping;
      s.(pool := s.pool[op.h := b.(mapping := mapping, lockCount := b.lockCount + 1, cpuWrite := op.writing)],
      kernel := kernel)
  }

  /** A failed cache flush leaves the count, and the write flag, as they are. */
  function UnlockNext(s: State, op: Op): State
    requires op.Unlock? && op.h in s.pool && s.pool[op.h].lockCount > 0
  {
    var b := s.pool[op.h];
    if b.cpuWrite && !op.syncOk then s
    else
      var left := b.lockCount - 1;
      s.(pool := s.pool[op.h := b.(lockCount := left, cpuWrite := b.cpuWrite && left > 0)])
  }

  /** The attribute descriptor is closed by hand and forgotten; the handle's destructor closes the other one. */
  function FreeNext(s: State, op: Op): State
    requires op.Free? && op.h in s.pool
  {
    var b := s.pool[op.h];
    var k1 := if b.mapping.Some? then s.kernel.Unmap(b.mapping.value) else s.kernel;
    s.(pool := s.pool - {op.h}, kernel := k1.Unmap(b.attrMap).Close(b.attrFd).Close(b.shareFd))
  }

  function Next(s: State, op: Op): State {
    if op.Import? then ImportNext(s, op)
    else if ReplyTo(s, op) != Done then s
    else
      match op
      case Lock(_, _, _, _, _, _, _, _, _) => LockNext(s, op)
      case Unlock(_, _) => UnlockNext(s, op)
      case Free(_) => FreeNext(s, op)
  }

  function Run(s: State, ops: seq<Op>): State
    decreases |ops|
  {
    if ops == [] then s else Run(Next(s, ops[0]), ops[1..])
  }

  // ----- the invariant -----

  function Fds(b: Buffer): set<nat> {
    {b.shareFd, b.attrFd}
  }

  function Maps(b: Buffer): set<nat> {
    {b.attrMap} + if b.mapping.Some? then {b.mapping.value} else {}
  }

  /** The state of one buffer. */
  ghost predicate BufferOk(b: Buffer) {
    && b.shareFd != b.attrFd
    && (b.mapping.Some? ==> b.mapping.value != b.attrMap)
    && (b.lockCount > 0 ==> b.mapping.Some?)
    && (b.cpuWrite ==> b.lockCount > 0)
  }

  ghost predicate HoldsFd(s: State, h: nat, fd: nat) {
    h in s.pool && fd in Fds(s.pool[h])
  }

  ghost predicate HoldsMap(s: State, h: nat, m: nat) {
    h in s.pool && m in Maps(s.pool[h])
  }

  /** Different handles hold different descriptors and mappings. */
  ghost predicate Separate(s: State) {
    && (forall h: nat, g: nat, fd: nat :: HoldsFd(s, h, fd) && HoldsFd(s, g, fd) ==> h == g)
    && (forall h: nat, g: nat, m: nat :: HoldsMap(s, h, m) && HoldsMap(s, g, m) ==> h == g)
  }

  /** The process holds exactly what its handles hold: nothing has leaked, nothing is missing. */
  ghost predicate Accounted(s: State) {
    && (forall h: nat, fd: nat :: HoldsFd(s, h, fd) ==> fd in s.kernel.open)
    && (forall fd: nat :: fd in s.kernel.open ==> exists h: nat :: HoldsFd(s, h, fd))
    && (forall h: nat, m: nat :: HoldsMap(s, h, m) ==> m in s.kernel.mapped)
    && (forall m: nat :: m in s.kernel.mapped ==> exists h: nat :: HoldsMap(s, h, m))
  }

  ghost predicate Numbered(s: State) {
    && (forall k: nat :: k in s.kernel.open ==> k < s.kernel.next)
    && (forall k: nat :: k in s.kernel.mapped ==> k < s.kernel.next)
    && (forall h: nat :: h in s.pool ==> h < s.nextHandle)
  }

  ghost predicate Valid(s: State) {
    && (forall h: nat :: h in s.pool ==> BufferOk(s.pool[h]))
    && Separate(s) && Accounted(s) && Numbered(s) && s.kernel.badReleases == 0
  }

  lemma StartIsValid()
    ensures Valid(START)
  {
  }

  /** Import is all or nothing: unless it succeeds, the process holds what it held before. */
  lemma FailedImportLeavesNothing(s: State, op: Op)
    requires Valid(s) && op.Import? && ReplyTo(s, op) != Done
    ensures var t := Next(s, op);
      t.pool == s.pool && t.nextHandle == s.nextHandle
      && t.kernel.open == s.kernel.open && t.kernel.mapped == s.kernel.mapped && t.kernel.badReleases == 0
    ensures Valid(Next(s, op))
  {
    var t := Next(s, op);
    assert s.kernel.next !in s.kernel.open && s.kernel.next + 1 !in s.kernel.open;
    assert t.kernel.open == s.kernel.open;
    forall h: nat, k: nat
      ensures HoldsFd(t, h, k) <==> HoldsFd(s, h, k)
      ensures HoldsMap(t, h, k) <==> HoldsMap(s, h, k)
    {
    }
    assert Accounted(t) by {
      forall fd: nat | fd in t.kernel.open
        ensures exists h: nat :: HoldsFd(t, h, fd)
      {
        var h: nat :| HoldsFd(s, h, fd);
        assert HoldsFd(t, h, fd);
      }
      forall m: nat | m in t.kernel.mapped
        ensures exists h: nat :: HoldsMap(t, h, m)
      {
        var h: nat :| HoldsMap(s, h, m);
        assert HoldsMap(t, h, m);
      }
    }
  }

  lemma ImportKeepsValid(s: State, op: Op)
    requires Valid(s) && op.Import? && ReplyTo(s, op) == Done
    ensures Valid(Next(s, op))
    ensures s.nextHandle in Next(s, op).pool && s.nextHandle !in s.pool
  {
    var t, n, b := Next(s, op), s.nextHandle, Next(s, op).pool[s.nextHandle];
    var k := s.kernel.next;
    assert n !in s.pool && k !in s.kernel.open && k + 1 !in s.kernel.open && k + 2 !in s.kernel.mapped;
    forall h: nat, x: nat
      ensures HoldsFd(t, h, x) <==> if h == n then x == k || x == k + 1 else HoldsFd(s, h, x)
      ensures HoldsMap(t, h, x) <==> if h == n then x == k + 2 else HoldsMap(s, h, x)
    {
    }
    GrownIsValid(s, t, n, {k, k + 1}, {k + 2});
  }

  /** A state in which one handle's holdings grew by fresh numbers stays accounted for. */
  lemma GrownIsValid(s: State, t: State, n: nat, fds: set<nat>, maps: set<nat>)
    requires Valid(s)
    requires forall h: nat, x: nat :: HoldsFd(t, h, x) <==> HoldsFd(s, h, x) || (h == n && x in fds)
    requires forall h: nat, x: nat :: HoldsMap(t, h, x) <==> HoldsMap(s, h, x) || (h == n && x in maps)
    requires t.kernel.open == s.kernel.open + fds && t.kernel.mapped == s.kernel.mapped + maps
    requires fds !! s.kernel.open && maps !! s.kernel.mapped
    requires forall h: nat :: h in t.pool ==> BufferOk(t.pool[h])
    requires Numbered(t) && t.kernel.badReleases == 0
    ensures Valid(t)
  {
    hide Fds, Maps, BufferOk, Numbered, HoldsFd, HoldsMap;
    assert Separate(t);
    forall fd: nat | fd in t.kernel.open
      ensures exists h: nat :: HoldsFd(t, h, fd)
    {
      if fd in fds {
        assert HoldsFd(t, n, fd);
      } else {
        var h: nat :| HoldsFd(s, h, fd);
        assert HoldsFd(t, h, fd);
      }
    }
    forall m: nat | m in t.kernel.mapped
      ensures exists h: nat :: HoldsMap(t, h, m)
    {
      if m in maps {
        assert HoldsMap(t, n, m);
      } else {
        var h: nat :| HoldsMap(s, h, m);
        assert HoldsMap(t, h, m);
      }
    }
  }

  lemma LockKeepsValid(s: State, op: Op)
    requires Valid(s) && op.Lock? && ReplyTo(s, op) == Done
    ensures Valid(Next(s, op))
  {
    var t := Next(s, op);
    var b := s.pool[op.h];
    var maps := if (op.reading || op.writing) && b.mapping.None? then {s.kernel.next} else {};
    assert BufferOk(b);
    assert HoldsMap(s, op.h, b.attrMap);
    forall h: nat, x: nat
      ensures HoldsFd(t, h, x) <==> HoldsFd(s, h, x) || (h == op.h && x in {})
      ensures HoldsMap(t, h, x) <==> HoldsMap(s, h, x) || (h == op.h && x in maps)
    {
    }
    hide ValidateLock, HasInfo;
    GrownIsValid(s, t, op.h, {}, maps);
  }

  lemma UnlockKeepsValid(s: State, op: Op)
    requires Valid(s) && op.Unlock? && ReplyTo(s, op) == Done
    ensures Valid(Next(s, op))
  {
    var t := Next(s, op);
    assert BufferOk(s.pool[op.h]);
    forall h: nat, x: nat
      ensures HoldsFd(t, h, x) <==> HoldsFd(s, h, x) || (h == op.h && x in {})
      ensures HoldsMap(t, h, x) <==> HoldsMap(s, h, x) || (h == op.h && x in {})
    {
    }
    GrownIsValid(s, t, op.h, {}, {});
  }

  /** Freeing releases exactly what the handle held, each thing once. */
  lemma FreeReleasesOnce(s: State, op: Op)
    requires Valid(s) && op.Free? && ReplyTo(s, op) == Done
    ensures var t := Next(s, op);
      && t.kernel.open == s.kernel.open - Fds(s.pool[op.h])
      && t.kernel.mapped == s.kernel.mapped - Maps(s.pool[op.h])
      && t.kernel.badReleases == 0 && t.pool == s.pool - {op.h}
    ensures Valid(Next(s, op))
  {
    var t := Next(s, op);
    var b := s.pool[op.h];
    assert BufferOk(b);
    assert HoldsFd(s, op.h, b.shareFd) && HoldsFd(s, op.h, b.attrFd) && HoldsMap(s, op.h, b.attrMap);
    assert b.mapping.Some? ==> HoldsMap(s, op.h, b.mapping.value);
    assert t.kernel.open == s.kernel.open - Fds(b) && t.kernel.mapped == s.kernel.mapped - Maps(b);
    forall h: nat, x: nat
      ensures HoldsFd(t, h, x) <==> HoldsFd(s, h, x) && h != op.h
      ensures HoldsMap(t, h, x) <==> HoldsMap(s, h, x) && h != op.h
    {
    }
    ShrunkIsAccounted(s, t, op.h);
  }

  lemma ShrunkIsAccounted(s: State, t: State, n: nat)
    requires Valid(s) && n in s.pool
    requires forall h: nat, x: nat :: HoldsFd(t, h, x) <==> HoldsFd(s, h, x) && h != n
    requires forall h: nat, x: nat :: HoldsMap(t, h, x) <==> HoldsMap(s, h, x) && h != n
    requires t.kernel.open == s.kernel.open - Fds(s.pool[n]) && t.kernel.mapped == s.kernel.mapped - Maps(s.pool[n])
    ensures Separate(t) && Accounted(t)
  {
    hide Fds, Maps, BufferOk, Numbered;
    forall h: nat, fd: nat | HoldsFd(t, h, fd)
      ensures fd in t.kernel.open
    {
      assert HoldsFd(s, h, fd) && !HoldsFd(s, n, fd);
    }
    forall h: nat, m: nat | HoldsMap(t, h, m)
      ensures m in t.kernel.mapped
    {
      assert HoldsMap(s, h, m) && !HoldsMap(s, n, m);
    }
    forall fd: nat | fd in t.kernel.open
      ensures exists h: nat :: HoldsFd(t, h, fd)
    {
      var h: nat :| HoldsFd(s, h, fd);
      assert HoldsFd(t, h, fd);
    }
    forall m: nat | m in t.kernel.mapped
      ensures exists h: nat :: HoldsMap(t, h, m)
    {
      var h: nat :| HoldsMap(s, h, m);
      assert HoldsMap(t, h, m);
    }
  }

  lemma StepKeepsValid(s: State, op: Op)
    requires Valid(s)
    ensures Valid(Next(s, op))
    ensures s.nextHandle <= Next(s, op).nextHandle
  {
    hide Valid, ValidateLock;
    if op.Import? {
      if ReplyTo(s, op) == Done {
        ImportKeepsValid(s, op);
      } else {
        FailedImportLeavesNothing(s, op);
      }
    } else if ReplyTo(s, op) == Done {
      match op {
        case Lock(_, _, _, _, _, _, _, _, _) => LockKeepsValid(s, op);
        case Unlock(_, _) => UnlockKeepsValid(s, op);
        case Free(_) => FreeReleasesOnce(s, op);
      }
    }
  }

  /** Every run keeps the invariant. */
  lemma {:induction false} RunKeepsValid(s: State, ops: seq<Op>)
    requires Valid(s)
    ensures Valid(Run(s, ops))
    ensures s.nextHandle <= Run(s, ops).nextHandle
    decreases |ops|
  {
    if ops != [] {
      StepKeepsValid(s, ops[0]);
      RunKeepsValid(Next(s, ops[0]), ops[1..]);
    }
  }
}
