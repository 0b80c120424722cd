/**
 * init_afbc and the loop in mali_gralloc_buffer_allocate that calls it: writing one 16-byte entry per superblock
 * into the mapped buffer.
 */
module AfbcHeaders {
  import opened Alignment
  import opened Bytes
  import opened Formats
  import opened MachineInts
  import opened Layout
  import opened PlaneOrder
  import opened AfbcLayout

  /** The four 32-bit words of an entry: subsampled layouts, or every other layout with or without tiled headers. */
  function EntryWords(tiled: bool, subsampled: bool, bodyOffset: nat): seq<nat> {
    if subsampled then [(bodyOffset + 0x1000_0000) % U32, 0x8020_0040, 0x100_4000, 0x2_0080]
    else if tiled then [0, 0, 0, 0]
    else [bodyOffset % U32, 0x1, 0x1_0000, 0x0]
  }

  function EntryBytes(words: seq<nat>): (s: seq<Byte>)
    requires |words| == 4
    ensures |s| == 16
  {
    ToBytes(words[0], 4) + ToBytes(words[1], 4) + ToBytes(words[2], 4) + ToBytes(words[3], 4)
  }

  /** The i-th entry of the header that begins at `start`. */
  function EntryAt(mem: seq<Byte>, start: nat, i: nat): seq<Byte>
    requires start + 16 * (i + 1) <= |mem|
  {
    mem[start + 16 * i..start + 16 * (i + 1)]
  }

  /** `count` copies of `entry` stand at `start`. */
  ghost predicate Entries(mem: seq<Byte>, start: nat, count: nat, entry: seq<Byte>) {
    && start + 16 * count <= |mem|
    && forall i: nat :: i < count ==> EntryAt(mem, start, i) == entry
  }

  /** Two memories agree outside one byte range. */
  ghost predicate SameOutside(a: seq<Byte>, b: seq<Byte>, lo: nat, hi: nat) {
    |a| == |b| && forall k: nat :: k < |a| && !(lo <= k < hi) ==> a[k] == b[k]
  }

  /** Entries survive any change outside them. */
  lemma EntriesKept(a: seq<Byte>, b: seq<Byte>, start: nat, count: nat, entry: seq<Byte>)
    requires Entries(a, start, count, entry) && |a| == |b|
    requires forall k: nat :: start <= k < start + 16 * count ==> a[k] == b[k]
    ensures Entries(b, start, count, entry)
  {
    forall i: nat | i < count
      ensures EntryAt(b, start, i) == entry
    {
      assert EntryAt(b, start, i) == EntryAt(a, start, i);
    }
  }

  method InitAfbc(buf: array<Byte>, start: nat, tiled: bool, subsampled: bool, multiPlane: bool, w: nat, h: nat)
    requires start + 16 * (Mul(w, h) / 256) <= buf.Length
    modifies buf
    ensures Entries(buf[..], start, Mul(w, h) / 256,
                    EntryBytes(EntryWords(tiled, subsampled && !multiPlane, Align(Mul(w, h) / 256 * 16,
                        AfbcGrain(tiled)))))
    ensures SameOutside(old(buf[..]), buf[..], start, start + 16 * (Mul(w, h) / 256))
  {
    hide Mul, Div, Align, ToBytes;
    var count := Mul(w, h) / 256;
    var bodyOffset := Align(count * 16, AfbcGrain(tiled));
    var entry := EntryBytes(EntryWords(tiled, subsampled && !multiPlane, bodyOffset));
    hide EntryBytes, EntryWords;
    var at := start;
    for n := 0 to count
      invariant at == start + 16 * n
      invariant Entries(buf[..], start, n, entry)
      invariant forall k: nat :: k < buf.Length && !(start <= k < at) ==> buf[k] == old(buf[k])
    {
      ghost var before := buf[..];
      forall j | 0 <= j < 16 {
        buf[at + j] := entry[j];
      }
      EntriesKept(before, buf[..], start, n, entry);
      assert EntryAt(buf[..], start, n) == entry;
      at := at + 16;
    }
  }

  // ----- the planes of a fresh allocation -----

  /** The plane table calc_allocation_size leaves in a new descriptor. */
  ghost predicate Filled(q: Request, planes: seq<PlaneInfo>)
    requires Computable(q)
  {
    && |planes| == 3
    && (forall p: nat :: p < q.f.npln ==> planes[p] == Plane(q, p))
    && (forall p: nat :: q.f.npln <= p < 3 ==> planes[p] == NO_PLANE)
  }

  /** The entry every superblock of plane p gets; its body offset is the layout engine's header size. */
  function HeaderEntry(q: Request, p: nat): (entry: seq<Byte>)
    requires Shape(q.f) && p < q.f.npln
    ensures |entry| == 16
  {
    EntryBytes(EntryWords(q.at.tiled, q.f.SubsampledYuv() && q.f.npln == 1, HeaderSize(q, p)))
  }

  function EntriesEnd(q: Request, p: nat): nat
    requires Computable(q) && p < q.f.npln
  {
    Start(q, p) + 16 * SuperblockCount(q, p)
  }

  /** The entries of a plane stay in that plane's own header. */
  lemma EntriesStayInHeader(q: Request, p: nat)
    requires AfbcAllocation(q) && p < q.f.npln
    ensures Computable(q)
    ensures EntriesEnd(q, p) <= Start(q, p) + HeaderSize(q, p) <= End(q, p) <= TotalSize(q)
  {
    SaneIsComputable(q);
    HeaderIsAligned(q, p);
    hide Mul, Div, Align, SuperblockCount, HeaderSize, BodySize, Start;
    if p < q.f.npln - 1 {
      PlanesInOrder(q, p, q.f.npln - 1);
    }
  }

  /** A zero stride means a zero width. */
  lemma NoStrideNoWidth(q: Request, p: nat)
    requires AfbcAllocation(q) && Computable(q) && p < q.f.npln && ByteStride(q, p) == 0
    ensures q.width == 0
  {
    hide Mul, Div, Align, PlaneWidth, Shape;
    PlaneCount(q);
    if PlaneWidth(q, p) > 0 {
      WideStride(PlaneWidth(q, p), q.f.bppAfbc.At(p));
    }
    EmptyPlanes(q, p);
  }

  /** Without a width no plane has superblocks. */
  lemma NoWidthNoSuperblocks(q: Request, p: nat)
    requires Shape(q.f) && p < q.f.npln && q.width == 0
    ensures SuperblockCount(q, p) == 0
  {
    hide Mul, Div, Align, PlaneWidth, PlaneHeight;
    EmptyPlanes(q, p);
    MulFacts(0, PlaneHeight(q, p));
  }

  lemma WideStride(w: nat, bits: nat)
    requires w > 0 && bits >= 8
    ensures Mul(w, bits) / 8 > 0
  {
    MulMono(1, w, 8, bits);
  }

  ghost predicate InEntries(q: Request, p: nat, k: nat)
    requires Computable(q) && p < q.f.npln
  {
    Start(q, p) <= k < EntriesEnd(q, p)
  }

  /** What one call of init_afbc wrote is the header entry of the plane, also when a zero width hides the planes. */
  lemma PlaneEntries(q: Request, p: nat, multiPlane: bool, mem: seq<Byte>)
    requires AfbcAllocation(q) && Computable(q) && p < q.f.npln
    requires multiPlane <==> q.f.npln > 1 && PlaneWidth(q, 1) != 0
    requires var count := Mul(PlaneWidth(q, p), PlaneHeight(q, p)) / 256;
      Entries(mem, Start(q, p), count,
              EntryBytes(EntryWords(q.at.tiled, q.f.SubsampledYuv() && !multiPlane,
                                    Align(count * 16, AfbcGrain(q.at.tiled)))))
    ensures Entries(mem, Start(q, p), SuperblockCount(q, p), HeaderEntry(q, p))
  {
    hide Mul, Div, Align, Start, PlaneWidth, PlaneHeight, EntryBytes, EntryWords, EntryAt, ByteStride;
    if q.f.npln > 1 && !multiPlane {
      EmptyPlanes(q, 1);
      NoWidthNoSuperblocks(q, p);
    }
  }

  /** Earlier planes keep their entries when a later one is written. */
  lemma EarlierEntriesKept(q: Request, p: nat, r: nat, before: seq<Byte>, after: seq<Byte>)
    requires AfbcAllocation(q) && Computable(q) && p < r < q.f.npln
    requires Entries(before, Start(q, p), SuperblockCount(q, p), HeaderEntry(q, p))
    requires SameOutside(before, after, Start(q, r), EntriesEnd(q, r))
    ensures Entries(after, Start(q, p), SuperblockCount(q, p), HeaderEntry(q, p))
  {
    EntriesStayInHeader(q, p);
    PlanesInOrder(q, p, r);
    hide Start, End, HeaderSize, SuperblockCount, HeaderEntry, AfbcAllocation, Computable;
    EntriesKept(before, after, Start(q, p), SuperblockCount(q, p), HeaderEntry(q, p));
  }

  /** One iteration of the plane loop. */
  method InitPlane(q: Request, p: nat, plane: PlaneInfo, multiPlane: bool, mapping: array<Byte>)
    requires AfbcAllocation(q) && Computable(q) && p < q.f.npln && plane == Plane(q, p)
    requires multiPlane <==> q.f.npln > 1 && PlaneWidth(q, 1) != 0
    requires TotalSize(q) <= mapping.Length
    modifies mapping
    ensures Entries(mapping[..], Start(q, p), SuperblockCount(q, p), HeaderEntry(q, p))
    ensures SameOutside(old(mapping[..]), mapping[..], Start(q, p), EntriesEnd(q, p))
  {
    EntriesStayInHeader(q, p);
    hide Mul, Div, Align, Start, End, HeaderSize, PlaneWidth, PlaneHeight, ByteStride, EntryBytes, EntryWords,
      Entries, AfbcAllocation, Computable, SameOutside;
    InitAfbc(mapping, plane.offset, q.at.tiled, q.f.SubsampledYuv(), multiPlane, plane.allocWidth, plane.allocHeight);
    PlaneEntries(q, p, multiPlane, mapping[..]);
  }

  /** The first `count` planes have their entries. */
  ghost predicate Written(q: Request, count: nat, mem: seq<Byte>)
    requires Computable(q) && count <= q.f.npln
  {
    forall p: nat :: p < count ==> Entries(mem, Start(q, p), SuperblockCount(q, p), HeaderEntry(q, p))
  }

  /** Only bytes inside the entries of the first `count` planes have changed. */
  ghost predicate Untouched(q: Request, count: nat, before: seq<Byte>, mem: seq<Byte>)
    requires Computable(q) && count <= q.f.npln
  {
    && |before| == |mem|
    && forall k: nat :: k < |mem| && (forall p: nat :: p < count ==> !InEntries(q, p, k)) ==> mem[k] == before[k]
  }

  lemma NothingYet(q: Request, mem: seq<Byte>)
    requires Computable(q)
    ensures Written(q, 0, mem) && Untouched(q, 0, mem, mem)
  {
  }

  lemma OnePlaneMore(q: Request, r: nat, first: seq<Byte>, before: seq<Byte>, after: seq<Byte>)
    requires AfbcAllocation(q) && Computable(q) && r < q.f.npln
    requires Written(q, r, before) && Untouched(q, r, first, before)
    requires Entries(after, Start(q, r), SuperblockCount(q, r), HeaderEntry(q, r))
    requires SameOutside(before, after, Start(q, r), EntriesEnd(q, r))
    ensures Written(q, r + 1, after) && Untouched(q, r + 1, first, after)
  {
    assert Shape(q.f);
    hide Start, SuperblockCount, HeaderEntry, AfbcAllocation, Computable, Entries, EntriesEnd, Untouched, SameOutside,
      Shape;
    forall p: nat | p < r
      ensures Entries(after, Start(q, p), SuperblockCount(q, p), HeaderEntry(q, p))
    {
      EarlierEntriesKept(q, p, r, before, after);
    }
    UntouchedGrows(q, r, first, before, after);
  }

  lemma UntouchedGrows(q: Request, r: nat, first: seq<Byte>, before: seq<Byte>, after: seq<Byte>)
    requires Computable(q) && r < q.f.npln
    requires Untouched(q, r, first, before)
    requires SameOutside(before, after, Start(q, r), EntriesEnd(q, r))
    ensures Untouched(q, r + 1, first, after)
  {
    assert Shape(q.f);
    hide Start, Computable, EntriesEnd;
    forall k: nat | k < |after| && (forall p: nat :: p < r + 1 ==> !InEntries(q, p, k))
      ensures after[k] == first[k]
    {
      assert !InEntries(q, r, k);
    }
  }

  /** Once the loop has stopped on a zero stride, no later plane has entries to write. */
  lemma NothingLeft(q: Request, i: nat, first: seq<Byte>, mem: seq<Byte>)
    requires AfbcAllocation(q) && Computable(q) && i <= q.f.npln && TotalSize(q) <= |mem|
    requires i < q.f.npln ==> ByteStride(q, i) == 0
    requires Written(q, i, mem) && Untouched(q, i, first, mem)
    ensures Written(q, q.f.npln, mem) && Untouched(q, q.f.npln, first, mem)
  {
    assert Shape(q.f);
    hide Start, SuperblockCount, HeaderEntry, AfbcAllocation, Computable, Entries, ByteStride, InEntries, TotalSize,
      HeaderSize, End;
    forall p: nat | i <= p < q.f.npln
      ensures Entries(mem, Start(q, p), SuperblockCount(q, p), HeaderEntry(q, p))
    {
      NoStrideNoWidth(q, i);
      NoWidthNoSuperblocks(q, p);
      EntriesStayInHeader(q, p);
      NoEntries(mem, Start(q, p), HeaderEntry(q, p));
    }
    forall k: nat | k < |mem| && (forall p: nat :: p < q.f.npln ==> !InEntries(q, p, k))
      ensures mem[k] == first[k]
    {
    }
  }

  // ----- the memory the loop leaves -----

  /** Byte d of copies of an entry laid end to end. */
  function Repeated(entry: seq<Byte>, d: nat): Byte
    requires |entry| == 16
  {
    entry[d % 16]
  }

  ghost function EntryByte(q: Request, p: nat, k: nat): Byte
    requires Computable(q) && p < q.f.npln && InEntries(q, p, k)
  {
    Repeated(HeaderEntry(q, p), k - Start(q, p))
  }

  /** The byte at k: part of an entry where a plane has one, what was there before otherwise. */
  ghost function ByteAfter(q: Request, before: seq<Byte>, k: nat): Byte
    requires Computable(q) && k < |before|
  {
    if InEntries(q, 0, k) then EntryByte(q, 0, k)
    else if q.f.npln > 1 && InEntries(q, 1, k) then EntryByte(q, 1, k)
    else if q.f.npln > 2 && InEntries(q, 2, k) then EntryByte(q, 2, k)
    else before[k]
  }

  ghost function Initialised(q: Request, before: seq<Byte>): (after: seq<Byte>)
    requires Computable(q)
    ensures |after| == |before| && forall k: nat :: k < |after| ==> after[k] == ByteAfter(q, before, k)
  {
    seq(|before|, k requires 0 <= k < |before| => ByteAfter(q, before, k))
  }

  lemma ByteOfEntries(mem: seq<Byte>, start: nat, count: nat, entry: seq<Byte>, k: nat)
    requires Entries(mem, start, count, entry) && |entry| == 16 && start <= k < start + 16 * count
    ensures mem[k] == Repeated(entry, k - start)
  {
    var i := (k - start) / 16;
    assert EntryAt(mem, start, i) == entry;
    assert EntryAt(mem, start, i)[(k - start) % 16] == mem[k];
  }

  /** Entries everywhere and nothing else changed: that is one memory. */
  lemma OnlyInitialised(q: Request, before: seq<Byte>, mem: seq<Byte>)
    requires Computable(q) && Written(q, q.f.npln, mem) && Untouched(q, q.f.npln, before, mem)
    ensures mem == Initialised(q, before)
  {
    hide Start, SuperblockCount, HeaderEntry, Computable, Entries, Repeated, Shape;
    PlaneCount(q);
    forall k: nat | k < |mem|
      ensures mem[k] == ByteAfter(q, before, k)
    {
      forall p: nat | p < q.f.npln && InEntries(q, p, k)
        ensures mem[k] == EntryByte(q, p, k)
      {
        ByteOfEntries(mem, Start(q, p), SuperblockCount(q, p), HeaderEntry(q, p), k);
      }
      if !InEntries(q, 0, k) && (q.f.npln > 1 ==> !InEntries(q, 1, k)) && (q.f.npln > 2 ==> !InEntries(q, 2, k)) {
        forall p: nat | p < q.f.npln
          ensures !InEntries(q, p, k)
        {
          assert p == 0 || p == 1 || p == 2;
        }
      }
    }
  }

  /** The entries of a plane end before those of any later plane start. */
  lemma EntriesInOrder(q: Request, p: nat, r: nat)
    requires AfbcAllocation(q) && p < r < q.f.npln
    ensures Computable(q) && EntriesEnd(q, p) <= Start(q, r)
  {
    hide Start, End, HeaderSize, SuperblockCount, AfbcAllocation, Computable, TotalSize;
    EntriesStayInHeader(q, p);
    PlanesInOrder(q, p, r);
  }

  lemma ByteOfPlane(q: Request, p: nat, before: seq<Byte>, k: nat)
    requires AfbcAllocation(q) && Computable(q) && p < q.f.npln && k < |before| && InEntries(q, p, k)
    ensures ByteAfter(q, before, k) == EntryByte(q, p, k)
  {
    hide AfbcAllocation, Computable, EntryByte, EntriesEnd, Start, Shape;
    PlaneCount(q);
    if p > 0 {
      EntriesInOrder(q, 0, p);
    }
    if p > 1 {
      EntriesInOrder(q, 1, p);
    }
  }

  lemma RepeatedAt(entry: seq<Byte>, i: nat, j: nat)
    requires |entry| == 16 && j < 16
    ensures Repeated(entry, 16 * i + j) == entry[j]
  {
    Rest(16 * i + j, 16, i, j) by { assert Mul(i, 16) == 16 * i; }
  }

  lemma EntryFromBytes(mem: seq<Byte>, start: nat, i: nat, entry: seq<Byte>)
    requires start + 16 * (i + 1) <= |mem| && |entry| == 16
    requires forall j: nat :: j < 16 ==> mem[start + 16 * i + j] == entry[j]
    ensures EntryAt(mem, start, i) == entry
  {
    var found := EntryAt(mem, start, i);
    assert |found| == 16;
    forall j: nat | j < 16
      ensures found[j] == entry[j]
    {
    }
  }

  /** A range that holds an entry over and over holds that many entries. */
  lemma EntriesFromBytes(mem: seq<Byte>, start: nat, count: nat, entry: seq<Byte>)
    requires start + 16 * count <= |mem| && |entry| == 16
    requires forall k: nat :: start <= k < start + 16 * count ==> mem[k] == Repeated(entry, k - start)
    ensures Entries(mem, start, count, entry)
  {
    hide Repeated, EntryAt;
    forall i: nat | i < count
      ensures EntryAt(mem, start, i) == entry
    {
      forall j: nat | j < 16
        ensures mem[start + 16 * i + j] == entry[j]
      {
        RepeatedAt(entry, i, j);
        assert start + 16 * i + j - start == 16 * i + j;
      }
      EntryFromBytes(mem, start, i, entry);
    }
  }

  /** In that memory every plane has its entries. */
  lemma InitialisedIsWritten(q: Request, before: seq<Byte>)
    requires AfbcAllocation(q) && Computable(q) && TotalSize(q) <= |before|
    ensures Written(q, q.f.npln, Initialised(q, before))
  {
    hide Start, SuperblockCount, HeaderEntry, AfbcAllocation, Computable, TotalSize, ByteAfter, HeaderSize, End,
      Entries, Initialised, Repeated, Shape;
    PlaneCount(q);
    forall p: nat | p < q.f.npln
      ensures Entries(Initialised(q, before), Start(q, p), SuperblockCount(q, p), HeaderEntry(q, p))
    {
      EntriesStayInHeader(q, p);
      forall k: nat | Start(q, p) <= k < EntriesEnd(q, p)
        ensures Initialised(q, before)[k] == Repeated(HeaderEntry(q, p), k - Start(q, p))
      {
        ByteOfPlane(q, p, before, k);
      }
      EntriesFromBytes(Initialised(q, before), Start(q, p), SuperblockCount(q, p), HeaderEntry(q, p));
    }
  }

  /**
   * The loop over the planes, driven by the plane table alone. Every superblock of every plane gets its entry, the
   * entry's body offset is the plane's header size, and every other byte, in particular every body, is untouched.
   */
  method InitHeaders(q: Request, planes: array<PlaneInfo>, mapping: array<Byte>)
    requires AfbcAllocation(q) && Computable(q) && Filled(q, planes[..]) && TotalSize(q) <= mapping.Length
    modifies mapping
    ensures Written(q, q.f.npln, mapping[..])
    ensures Untouched(q, q.f.npln, old(mapping[..]), mapping[..])
    ensures mapping[..] == Initialised(q, old(mapping[..]))
  {
    assert Shape(q.f) && planes[0] == Plane(q, 0);
    var multiPlane := planes[1].allocWidth != 0;
    assert multiPlane <==> q.f.npln > 1 && PlaneWidth(q, 1) != 0;
    hide Mul, Div, Align, Start, End, SuperblockCount, HeaderSize, PlaneWidth, PlaneHeight, ByteStride,
      HeaderEntry, Entries, AfbcAllocation, Computable, TotalSize, Written, Untouched;
    NothingYet(q, mapping[..]);
    var i := 0;
    while i < 3 && (i == 0 || planes[i].byteStride != 0)
      invariant i <= q.f.npln
      invariant Written(q, i, mapping[..]) && Untouched(q, i, old(mapping[..]), mapping[..])
    {
      assert i < q.f.npln && planes[i] == Plane(q, i);
      ghost var before := mapping[..];
      InitPlane(q, i, planes[i], multiPlane, mapping);
      OnePlaneMore(q, i, old(mapping[..]), before, mapping[..]);
      i := i + 1;
    }
    if i < q.f.npln {
      assert planes[i] == Plane(q, i);
    }
    NothingLeft(q, i, old(mapping[..]), mapping[..]);
    OnlyInitialised(q, old(mapping[..]), mapping[..]);
  }

  lemma NoEntries(mem: seq<Byte>, start: nat, entry: seq<Byte>)
    requires start <= |mem|
    ensures Entries(mem, start, 0, entry)
  {
  }

  /**
   * Read back from memory, the first word of an entry is the distance from header to body: marked for the subsampled
   * layouts, zero where tiled headers need no offset. The others are the superblock descriptor of the layout: those of
   * a subsampled block, nothing with tiled headers, or a one in the first and in the third word's upper half.
   */
  lemma EntryNamesBody(q: Request, p: nat, mem: seq<Byte>, i: nat)
    requires AfbcAllocation(q) && Computable(q) && p < q.f.npln && i < SuperblockCount(q, p)
    requires Entries(mem, Start(q, p), SuperblockCount(q, p), HeaderEntry(q, p))
    ensures var entry, subsampled := EntryAt(mem, Start(q, p), i), q.f.SubsampledYuv() && q.f.npln == 1;
      && |entry| == 16
      && FromBytes(entry[..4]) == (if subsampled then (HeaderSize(q, p) + 0x1000_0000) % U32
                                   else if q.at.tiled then 0
                                   else HeaderSize(q, p) % U32)
      && FromBytes(entry[4..8]) == (if subsampled then 0x8020_0040 else if q.at.tiled then 0 else 1)
      && FromBytes(entry[8..12]) == (if subsampled then 0x100_4000 else if q.at.tiled then 0 else 0x1_0000)
      && FromBytes(entry[12..]) == (if subsampled then 0x2_0080 else 0)
  {
    hide Start, SuperblockCount, HeaderSize, Mul, Div, AfbcAllocation, Computable, EntryAt, EntryBytes, FromBytes,
      Shape;
    PlaneCount(q);
    var words := EntryWords(q.at.tiled, q.f.SubsampledYuv() && q.f.npln == 1, HeaderSize(q, p));
    assert EntryAt(mem, Start(q, p), i) == EntryBytes(words);
    WordsReadBack(words);
  }

  lemma WordsReadBack(words: seq<nat>)
    requires |words| == 4 && forall k :: 0 <= k < 4 ==> words[k] < U32
    ensures var entry := EntryBytes(words);
      && FromBytes(entry[..4]) == words[0] && FromBytes(entry[4..8]) == words[1]
      && FromBytes(entry[8..12]) == words[2] && FromBytes(entry[12..]) == words[3]
  {
    hide ToBytes, FromBytes;
    Pow256Of4();
    var a, b, c, d := ToBytes(words[0], 4), ToBytes(words[1], 4), ToBytes(words[2], 4), ToBytes(words[3], 4);
    var entry := EntryBytes(words);
    assert entry[..4] == a && entry[4..8] == b && entry[8..12] == c && entry[12..] == d;
    RoundTrip(words[0], 4);
    RoundTrip(words[1], 4);
    RoundTrip(words[2], 4);
    RoundTrip(words[3], 4);
  }
}
