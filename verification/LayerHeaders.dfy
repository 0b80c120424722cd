/**
 * AFBC headers of multi-layer buffers. The allocation initialises the headers of one layer only, so the other layers
 * depend on what the memory held before.
 */
module LayerHeaders {
  import opened Alignment
  import opened Bytes
  import opened Usages
  import opened Formats
  import opened AllocTypes
  import opened Layout
  import opened AfbcLayout
  import opened AfbcHeaders
  import opened Derive
  import opened Layers
  import opened RkSelection

  /** Where the header of plane p begins in layer i. */
  ghost function HeaderPlace(q: Request, layers: nat, i: nat, p: nat): nat
    requires Derivable(q) && p < q.f.npln
  {
    Mul(i, LayerStep(q, layers)) + Start(q, p)
  }

  ghost predicate PlaneWritten(q: Request, layers: nat, i: nat, p: nat, mem: seq<Byte>)
    requires Derivable(q) && p < q.f.npln
  {
    Entries(mem, HeaderPlace(q, layers, i, p), SuperblockCount(q, p), HeaderEntry(q, p))
  }

  /** The headers of layer i hold the entries they should. */
  ghost predicate LayerWritten(q: Request, layers: nat, i: nat, mem: seq<Byte>)
    requires Derivable(q)
  {
    forall p: nat :: p < q.f.npln ==> PlaneWritten(q, layers, i, p, mem)
  }

  ghost predicate Empty(q: Request)
    requires Shape(q.f)
  {
    forall p: nat :: p < q.f.npln ==> SuperblockCount(q, p) == 0
  }

  /** A memory of the size of the allocation. */
  ghost predicate Holds(q: Request, layers: nat, mem: seq<Byte>)
    requires Derivable(q)
  {
    |mem| == AllocationSize(q, layers)
  }

  /** The entries of a layer lie in that layer. */
  lemma LayerEntries(q: Request, layers: nat, i: nat, p: nat)
    requires AfbcAllocation(q) && Derivable(q) && i < layers && p < q.f.npln
    ensures HeaderPlace(q, layers, i, p) + 16 * SuperblockCount(q, p) <= Mul(i + 1, LayerStep(q, layers))
         <= AllocationSize(q, layers)
  {
    hide Mul, Start, End, SuperblockCount, HeaderSize, LayerStep, AllocationSize, AfbcAllocation, Sane, Computable;
    LayersPartitionTheBuffer(q, layers, i, p);
    EntriesStayInHeader(q, p);
  }

  lemma FirstPlace(q: Request, layers: nat, p: nat)
    requires Derivable(q) && p < q.f.npln
    ensures HeaderPlace(q, layers, 0, p) == Start(q, p)
  {
    hide Mul, Start, LayerStep, Sane, Computable;
    MulFacts(0, LayerStep(q, layers));
  }

  lemma LaterPlace(q: Request, layers: nat, i: nat, p: nat)
    requires Derivable(q) && p < q.f.npln && 0 < i
    ensures LayerStep(q, layers) <= Mul(i, LayerStep(q, layers)) <= HeaderPlace(q, layers, i, p)
  {
    hide Mul, Start, LayerStep, Sane, Computable;
    MulMono(1, i, LayerStep(q, layers), LayerStep(q, layers));
    MulFacts(1, LayerStep(q, layers));
  }

  /** The entries that are written end before the second layer. */
  lemma EntriesInFirstLayer(q: Request, layers: nat, p: nat)
    requires AfbcAllocation(q) && Derivable(q) && 0 < layers && p < q.f.npln
    ensures EntriesEnd(q, p) <= LayerStep(q, layers)
  {
    hide Mul, Start, SuperblockCount, LayerStep, AllocationSize, AfbcAllocation, Sane, Computable, HeaderPlace;
    LayerEntries(q, layers, 0, p);
    FirstPlace(q, layers, p);
    MulFacts(1, LayerStep(q, layers));
  }

  /** No byte from the second layer on is touched. */
  lemma LaterBytesUntouched(q: Request, layers: nat, before: seq<Byte>, k: nat)
    requires AfbcAllocation(q) && Derivable(q) && 0 < layers && LayerStep(q, layers) <= k < |before|
    ensures Initialised(q, before)[k] == before[k]
  {
    assert 1 <= q.f.npln <= 3;
    hide EntriesEnd, LayerStep, AllocationSize, AfbcAllocation, Sane, Computable, EntryByte, Start, Initialised;
    forall p: nat | p < q.f.npln
      ensures !InEntries(q, p, k)
    {
      EntriesInFirstLayer(q, layers, p);
    }
    hide InEntries;
  }

  /** A plane of a later layer has its header after the call exactly if it had it before. */
  lemma LaterPlaneAsBefore(q: Request, layers: nat, i: nat, p: nat, before: seq<Byte>)
    requires AfbcAllocation(q) && Derivable(q) && 0 < i < layers && p < q.f.npln && Holds(q, layers, before)
    ensures PlaneWritten(q, layers, i, p, Initialised(q, before)) <==> PlaneWritten(q, layers, i, p, before)
  {
    assert Shape(q.f);
    hide Mul, HeaderPlace, SuperblockCount, HeaderEntry, LayerStep, AllocationSize, AfbcAllocation, Derivable, Entries,
      Initialised, Start;
    LayerEntries(q, layers, i, p);
    LaterPlace(q, layers, i, p);
    var start, count := HeaderPlace(q, layers, i, p), SuperblockCount(q, p);
    forall k: nat | start <= k < start + 16 * count
      ensures Initialised(q, before)[k] == before[k]
    {
      LaterBytesUntouched(q, layers, before, k);
    }
    EntriesSame(Initialised(q, before), before, start, count, HeaderEntry(q, p));
  }

  lemma EntriesSame(a: seq<Byte>, b: seq<Byte>, start: nat, count: nat, entry: seq<Byte>)
    requires |a| == |b| && start + 16 * count <= |a|
    requires forall k: nat :: start <= k < start + 16 * count ==> a[k] == b[k]
    ensures Entries(a, start, count, entry) <==> Entries(b, start, count, entry)
  {
    hide Entries;
    if Entries(a, start, count, entry) {
      EntriesKept(a, b, start, count, entry);
    }
    if Entries(b, start, count, entry) {
      EntriesKept(b, a, start, count, entry);
    }
  }

  /** A later layer has its headers after the call exactly if it had them before. */
  lemma LaterLayersAsBefore(q: Request, layers: nat, i: nat, before: seq<Byte>)
    requires AfbcAllocation(q) && Derivable(q) && 0 < i < layers && Holds(q, layers, before)
    ensures LayerWritten(q, layers, i, Initialised(q, before)) <==> LayerWritten(q, layers, i, before)
  {
    hide PlaneWritten, AfbcAllocation, Sane, Computable, RkEnlarges, Holds, Initialised;
    forall p: nat | p < q.f.npln
      ensures PlaneWritten(q, layers, i, p, Initialised(q, before)) <==> PlaneWritten(q, layers, i, p, before)
    {
      LaterPlaneAsBefore(q, layers, i, p, before);
    }
  }

  /** The first layer always gets its headers. */
  lemma FirstLayerWritten(q: Request, layers: nat, before: seq<Byte>)
    requires AfbcAllocation(q) && Derivable(q) && layers > 0 && Holds(q, layers, before)
    ensures LayerWritten(q, layers, 0, Initialised(q, before))
  {
    hide AfbcAllocation, Sane, Computable, RkEnlarges, Initialised, AllocationSize, TotalSize, HeaderPlace, Entries,
      SuperblockCount, HeaderEntry, Start;
    TotalWithinAllocation(q, layers);
    InitialisedIsWritten(q, before);
    forall p: nat | p < q.f.npln
      ensures PlaneWritten(q, layers, 0, p, Initialised(q, before))
    {
      FirstPlace(q, layers, p);
    }
  }

  lemma TotalWithinAllocation(q: Request, layers: nat)
    requires Derivable(q) && layers > 0
    ensures TotalSize(q) <= AllocationSize(q, layers)
  {
    assert 1 <= q.f.npln;
    hide Mul, LayerStep, End, Sane, Computable, AllocationSize;
    LayersPartitionTheBuffer(q, layers, 0, q.f.npln - 1);
    MulFacts(0, LayerStep(q, layers));
  }

  /** Without superblocks there is nothing to write. */
  lemma EmptyLayerWritten(q: Request, layers: nat, i: nat, mem: seq<Byte>)
    requires AfbcAllocation(q) && Derivable(q) && i < layers && Holds(q, layers, mem) && Empty(q)
    ensures LayerWritten(q, layers, i, mem)
  {
    assert Shape(q.f);
    hide AfbcAllocation, Sane, Computable, RkEnlarges, AllocationSize, HeaderPlace, SuperblockCount, HeaderEntry,
      LayerStep, Mul;
    forall p: nat | p < q.f.npln
      ensures PlaneWritten(q, layers, i, p, mem)
    {
      LayerEntries(q, layers, i, p);
      NoEntries(mem, HeaderPlace(q, layers, i, p), HeaderEntry(q, p));
    }
  }

  /** Memory filled with one byte. */
  function Fill(n: nat, b: Byte): (s: seq<Byte>)
    ensures |s| == n && forall k: nat :: k < n ==> s[k] == b
  {
    seq(n, k => b)
  }

  lemma FillHasNoEntry(n: nat, b: Byte, start: nat, count: nat, entry: seq<Byte>, j: nat)
    requires |entry| == 16 && j < 16 && entry[j] != b && count > 0
    ensures !Entries(Fill(n, b), start, count, entry)
  {
    if start + 16 * count <= n {
      assert EntryAt(Fill(n, b), start, 0)[j] == b;
    }
  }

  /** Every layer has its headers after the call, whatever the memory held. */
  ghost predicate AlwaysInitialised(q: Request, layers: nat)
    requires Derivable(q)
  {
    forall before: seq<Byte>, i: nat :: i < layers && Holds(q, layers, before) ==>
      LayerWritten(q, layers, i, Initialised(q, before))
  }

  lemma NothingToMiss(q: Request, layers: nat, before: seq<Byte>, i: nat)
    requires AfbcAllocation(q) && Derivable(q) && i < layers && (layers == 1 || Empty(q)) && Holds(q, layers, before)
    ensures LayerWritten(q, layers, i, Initialised(q, before))
  {
    hide LayerWritten, AfbcAllocation, Sane, Computable, RkEnlarges, Initialised, Holds;
    if layers == 1 {
      FirstLayerWritten(q, layers, before);
    } else {
      SameLength(q, layers, before);
      EmptyLayerWritten(q, layers, i, Initialised(q, before));
    }
  }

  lemma NothingIsEverMissed(q: Request, layers: nat)
    requires AfbcAllocation(q) && Derivable(q) && (layers == 1 || Empty(q))
    ensures AlwaysInitialised(q, layers)
  {
    assert Shape(q.f);
    hide LayerWritten, AfbcAllocation, Sane, Computable, RkEnlarges, Initialised, Holds, Empty;
    forall before: seq<Byte>, i: nat | i < layers && Holds(q, layers, before)
      ensures LayerWritten(q, layers, i, Initialised(q, before))
    {
      NothingToMiss(q, layers, before, i);
    }
  }

  /**
   * The headers of every layer are initialised, whatever the memory held before, if and only if there is one layer or
   * nothing to write.
   */
  lemma HeadersInitialisedExactlyWhen(q: Request, layers: nat)
    requires AfbcAllocation(q) && Derivable(q) && layers > 0
    ensures AlwaysInitialised(q, layers) <==> layers == 1 || Empty(q)
  {
    assert Shape(q.f);
    hide SuperblockCount, AfbcAllocation, Sane, Computable, RkEnlarges, AlwaysInitialised;
    if layers == 1 || Empty(q) {
      NothingIsEverMissed(q, layers);
    } else {
      var p: nat :| p < q.f.npln && SuperblockCount(q, p) > 0;
      SomeMemoryIsNot(q, layers, p);
    }
  }

  lemma SameLength(q: Request, layers: nat, before: seq<Byte>)
    requires Derivable(q) && Holds(q, layers, before)
    ensures Holds(q, layers, Initialised(q, before))
  {
    hide AllocationSize, Sane, Computable, RkEnlarges;
  }

  /** A later layer filled with a byte that some entry does not have. */
  lemma FilledIsNotWritten(q: Request, layers: nat, i: nat, p: nat, b: Byte, j: nat)
    requires AfbcAllocation(q) && Derivable(q) && 0 < i < layers && p < q.f.npln && SuperblockCount(q, p) > 0
    requires j < 16 && HeaderEntry(q, p)[j] != b
    ensures !LayerWritten(q, layers, i, Initialised(q, Fill(AllocationSize(q, layers), b)))
  {
    assert Shape(q.f);
    hide AfbcAllocation, Sane, Computable, RkEnlarges, Initialised, AllocationSize, HeaderPlace, Entries,
      SuperblockCount, HeaderEntry, Fill;
    var before := Fill(AllocationSize(q, layers), b);
    FillHasNoEntry(AllocationSize(q, layers), b, HeaderPlace(q, layers, i, p), SuperblockCount(q, p),
                   HeaderEntry(q, p), j);
    assert !PlaneWritten(q, layers, i, p, before);
    LaterLayersAsBefore(q, layers, i, before);
  }

  lemma SomeMemoryIsNot(q: Request, layers: nat, p: nat)
    requires AfbcAllocation(q) && Derivable(q) && layers > 1 && p < q.f.npln && SuperblockCount(q, p) > 0
    ensures !AlwaysInitialised(q, layers)
  {
    assert Shape(q.f);
    hide AfbcAllocation, Sane, Computable, RkEnlarges, Initialised, AllocationSize, LayerWritten, SuperblockCount,
      HeaderEntry, Fill;
    var other: Byte := if HeaderEntry(q, p)[0] == 0 then 1 else 0;
    FilledIsNotWritten(q, layers, 1, p, other, 0);
    assert Holds(q, layers, Fill(AllocationSize(q, layers), other));
  }

  // ----- zeroed memory -----

  /** Of the header layouts only that of tiled headers without subsampling is all zero. */
  lemma ZeroEntry(q: Request, p: nat)
    requires Shape(q.f) && p < q.f.npln
    ensures q.at.tiled && !(q.f.SubsampledYuv() && q.f.npln == 1) ==>
      forall j: nat :: j < 16 ==> HeaderEntry(q, p)[j] == 0
    ensures !(q.at.tiled && !(q.f.SubsampledYuv() && q.f.npln == 1)) ==> HeaderEntry(q, p)[4] != 0
  {
    hide HeaderSize, Mul, Div;
    var words := EntryWords(q.at.tiled, q.f.SubsampledYuv() && q.f.npln == 1, HeaderSize(q, p));
    hide EntryWords, ToBytes;
    assert EntryBytes(words)[4] == ToBytes(words[1], 4)[0];
    EntryWordOne(q.at.tiled, q.f.SubsampledYuv() && q.f.npln == 1, HeaderSize(q, p));
  }

  lemma EntryWordOne(tiled: bool, subsampled: bool, bodyOffset: nat)
    ensures |EntryWords(tiled, subsampled, bodyOffset)| == 4
    ensures tiled && !subsampled ==> forall j: nat :: j < 16 ==>
      EntryBytes(EntryWords(tiled, subsampled, bodyOffset))[j] == 0
    ensures !(tiled && !subsampled) ==> ToBytes(EntryWords(tiled, subsampled, bodyOffset)[1], 4)[0] != 0
  {
    if tiled && !subsampled {
      ZeroBytes(4);
    } else if subsampled {
      assert ToBytes(0x8020_0040, 4)[0] == 0x40;
    } else {
      assert ToBytes(0x1, 4)[0] == 1;
    }
  }

  lemma {:induction false} ZeroBytes(n: nat)
    ensures forall j: nat :: j < n ==> ToBytes(0, n)[j] == 0
  {
    if n > 0 {
      ZeroBytes(n - 1);
    }
  }

  /**
   * In zeroed memory a later layer comes out right exactly if there is nothing to write or its entries are all zero,
   * which they are for tiled headers unless a subsampled format keeps its chroma in the same plane.
   */
  lemma ZeroedLayerExactlyWhen(q: Request, layers: nat, i: nat)
    requires AfbcAllocation(q) && Derivable(q) && 0 < i < layers
    ensures LayerWritten(q, layers, i, Initialised(q, Fill(AllocationSize(q, layers), 0))) <==>
            Empty(q) || (q.at.tiled && !(q.f.SubsampledYuv() && q.f.npln == 1))
  {
    assert Shape(q.f);
    hide AfbcAllocation, Sane, Computable, RkEnlarges, Initialised, AllocationSize, LayerWritten, SuperblockCount,
      HeaderEntry, Fill;
    var before := Fill(AllocationSize(q, layers), 0);
    assert Holds(q, layers, before);
    if Empty(q) {
      LaterLayersAsBefore(q, layers, i, before);
      EmptyLayerWritten(q, layers, i, before);
    } else if q.at.tiled && !(q.f.SubsampledYuv() && q.f.npln == 1) {
      LaterLayersAsBefore(q, layers, i, before);
      ZeroLayerWritten(q, layers, i);
    } else {
      var p: nat :| p < q.f.npln && SuperblockCount(q, p) > 0;
      ZeroEntry(q, p);
      FilledIsNotWritten(q, layers, i, p, 0, 4);
    }
  }

  lemma ZeroLayerWritten(q: Request, layers: nat, i: nat)
    requires AfbcAllocation(q) && Derivable(q) && i < layers
    requires q.at.tiled && !(q.f.SubsampledYuv() && q.f.npln == 1)
    ensures LayerWritten(q, layers, i, Fill(AllocationSize(q, layers), 0))
  {
    assert Shape(q.f);
    hide AfbcAllocation, Sane, Computable, RkEnlarges, AllocationSize, HeaderPlace, SuperblockCount, HeaderEntry,
      LayerStep, Mul, Entries, Fill;
    forall p: nat | p < q.f.npln
      ensures PlaneWritten(q, layers, i, p, Fill(AllocationSize(q, layers), 0))
    {
      ZeroEntry(q, p);
      LayerEntries(q, layers, i, p);
      FillHasEntries(AllocationSize(q, layers), 0, HeaderPlace(q, layers, i, p), SuperblockCount(q, p),
                     HeaderEntry(q, p));
    }
  }

  lemma FillHasEntries(n: nat, b: Byte, start: nat, count: nat, entry: seq<Byte>)
    requires |entry| == 16 && (forall j: nat :: j < 16 ==> entry[j] == b) && start + 16 * count <= n
    ensures Entries(Fill(n, b), start, count, entry)
  {
    forall i: nat | i < count
      ensures EntryAt(Fill(n, b), start, i) == entry
    {
    }
  }

  // ----- a buffer the allocator hands out -----

  lemma NonEmptyHasSuperblocks(q: Request)
    requires AfbcRequest(q) && q.width > 0 && q.height > 0
    ensures !Empty(q)
  {
    assert Shape(q.f);
    PlanesHaveArea(q, 0);
    AfbcPlaneHasBytes(q);
    hide Mul, Div, Align, PlaneWidth, PlaneHeight, SuperblockCount, AfbcAllocation;
    if SuperblockCount(q, 0) == 0 {
      MultiplesOfZero(AfbcGrain(q.at.tiled));
    }
  }

  /**
   * An RGBA texture array on RK3588: two layers in zeroed memory, and the second one is left without its headers,
   * whatever its size.
   */
  lemma SecondLayerStaysBlank(bufferSize: nat, fbSize: nat, width: nat, height: nat)
    requires bufferSize >= fbSize / 4 && width > 0 && height > 0
    ensures var fmt := RkFormat(Other(RGBA_8888), HW_TEXTURE, bufferSize, fbSize, STOCK);
      var outcome := DeriveOutcome(fmt, HW_TEXTURE, width, height);
      && outcome.Derived? && Derivable(outcome.request)
      && !LayerWritten(outcome.request, 2, 1,
                       Initialised(outcome.request, Fill(AllocationSize(outcome.request, 2), 0)))
  {
    TextureIsAfbc(bufferSize, fbSize, width, height);
    hide RkFormat, DeriveOutcome, LayerWritten, Initialised, Fill, AllocationSize, Sane, Computable, RkEnlarges,
      Empty;
    var q := DeriveOutcome(RkFormat(Other(RGBA_8888), HW_TEXTURE, bufferSize, fbSize, STOCK), HW_TEXTURE, width,
                           height).request;
    NonEmptyHasSuperblocks(q);
    ZeroedLayerExactlyWhen(q, 2, 1);
  }

  lemma TextureIsAfbc(bufferSize: nat, fbSize: nat, width: nat, height: nat)
    requires bufferSize >= fbSize / 4
    ensures var fmt := RkFormat(Other(RGBA_8888), HW_TEXTURE, bufferSize, fbSize, STOCK);
      var outcome := DeriveOutcome(fmt, HW_TEXTURE, width, height);
      && outcome.Derived? && AfbcAllocation(outcome.request) && Derivable(outcome.request)
      && !outcome.request.at.tiled && outcome.request.width >= width && outcome.request.height >= height
  {
    TextureIsPlain();
    RgbaRow();
    hide Info, Has, HasCpu, AllocTypeOf, ValidFormat, AdjustmentOf, AdjustedWidth, AdjustedHeight;
    var req := Other(RGBA_8888);
    var fmt := RkFormat(req, HW_TEXTURE, bufferSize, fbSize, STOCK);
    assert ChoosesAfbc(req, HW_TEXTURE, bufferSize, fbSize, STOCK);
    RkFormatAllocatableExactlyWhen(req, HW_TEXTURE, bufferSize, fbSize, STOCK, height);
    RgbaIsNoVideo();
    assert DeriveOutcome(fmt, HW_TEXTURE, width, height).Derived?;
    RkAfbcIsAligned(req, HW_TEXTURE, bufferSize, fbSize, STOCK, width, height);
    DerivedIsSane(fmt, HW_TEXTURE, width, height);
    AdjustmentCovers(AdjustmentOf(fmt, HW_TEXTURE), width, height);
    PlainAfbcIsUntiled(RGBA_8888, HW_TEXTURE);
  }

  lemma RgbaIsNoVideo()
    ensures !RkVideo(RGBA_8888)
  {
  }
}
