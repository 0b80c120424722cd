/** What the Arm selector's choice means for the picture: nothing better is possible, and what was asked for is kept. */
module SelectionLaws {
  import opened Usages
  import opened Formats
  import opened InternalFormats
  import opened ModifierFlags
  import opened AllocTypes
  import opened Ips
  import opened Capabilities
  import opened AfbcSelection
  import opened Selection
  import opened BestFormat
  import opened SelectFormat
  import opened Layout
  import opened Derive
  import opened CompressedSizes

  // ----- nothing better is possible -----

  /** A row can be laid out this way. */
  predicate Possible(ips: Parties, f: FormatInfo, s: IpSupport, usage: bv64, k: Kind) {
    && k in Kinds(ips, f, s, usage)
    && match k
    case Afrc => AfrcFormat(ips, f, usage).IsAfrc()
    case Afbc => AfbcUsable(ips, f, usage)
    case BlockLinearYuv => BlockLinearUsable(ips)
    case Linear => true
  }

  function KindRank(k: Kind): nat {
    match k case Afrc => 3 case Afbc => 2 case BlockLinearYuv => 1 case Linear => 0
  }

  /** Of one row the best possible kind is taken, and something is taken whenever anything is possible. */
  lemma BestKindOfRow(ips: Parties, f: FormatInfo, s: IpSupport, usage: bv64, k: Kind)
    requires Possible(ips, f, s, usage, k)
    ensures SupportedFormat(ips, f, s, usage).Some?
    ensures KindRank(k) <= Rank(SupportedFormat(ips, f, s, usage).value)
  {
    RanksOf(ips, f, usage);
    hide Kinds, AfbcFormat, AfrcFormat, BlockLinearUsable, AllocTypeOf, IsNoAfbc, InternalFormat.IsAfrc,
      InternalFormat.IsAfbc, InternalFormat.IsBlockLinear, BlockLinearFormat, Rank;
  }

  lemma RanksOf(ips: Parties, f: FormatInfo, usage: bv64)
    ensures AfrcFormat(ips, f, usage).IsAfrc() ==> Rank(AfrcFormat(ips, f, usage)) == 3
    ensures AfbcFormat(ips, f, usage).IsAfbc() ==> Rank(AfbcFormat(ips, f, usage)) == 2
    ensures Rank(BlockLinearFormat(f.id)) == 1
  {
    hide AfrcFormat, AfbcFlags, InternalFormat.IsAfrc, InternalFormat.IsAfbc, InternalFormat.IsBlockLinear,
      BlockLinearFormat, FlagsOf;
    PlainIsNotBlockLinear(f.id);
    AfbcFormatsAreLegal(ips, f, usage);
    AfbcIsNotAfrc(AfbcFormat(ips, f, usage));
  }

  /**
   * Without the CPU no compatible row can be laid out in a better way than the chosen one: AFRC is best, then AFBC,
   * then block-linear, then linear. An RGB row of another depth counts only for AFRC.
   */
  lemma NothingBetterIsPossible(ips: Parties, usage: bv64, req: BaseFormat, fmt: InternalFormat, j: nat, k: Kind)
    requires HasInfo(req) && RowIndex(req) < ROW_COUNT && IsBestFormat(ips, usage, req, fmt)
    requires !CpuInvolved(ips) && j < ROW_COUNT && HasInfo(RowAt(j)) && Compatible(Info(req), Info(RowAt(j)))
    requires Possible(ips, Info(RowAt(j)), Support(RowAt(j)), usage, k)
    requires k == Afrc || !Info(req).isRgb || Info(RowAt(j)).bpp.p0 == Info(req).bpp.p0
    ensures fmt != INVALID && KindRank(k) <= Rank(fmt)
  {
    hide Info, Support, RowAt, RowIndex, HasInfo, Compatible, SupportedFormat, IsBestFormat, Rank, Possible, Grade;
    var f := Info(RowAt(j));
    BestKindOfRow(ips, f, Support(RowAt(j)), usage, k);
    var best := SupportedFormat(ips, f, Support(RowAt(j)), usage).value;
    GradedWhen(best, Info(req), f);
    RowIsCandidate(ips, usage, req, j);
    BestRankWins(ips, usage, req, fmt, j);
  }

  lemma GradedWhen(fmt: InternalFormat, req: FormatInfo, f: FormatInfo)
    ensures Rank(fmt) == 3 || !req.isRgb || f.bpp.p0 == req.bpp.p0 ==> Grade(fmt, req, f) > 0
    ensures Grade(fmt, req, f) > 0 ==> fmt.IsAfrc() || !req.isRgb || f.bpp.p0 == req.bpp.p0
    ensures Rank(fmt) <= 3
  {
    hide InternalFormat.IsAfrc, InternalFormat.IsAfbc, InternalFormat.IsBlockLinear, FlagsOf, SameOrReordered, WeightOf;
  }

  lemma RowIsCandidate(ips: Parties, usage: bv64, req: BaseFormat, j: nat)
    requires HasInfo(req) && j < ROW_COUNT && HasInfo(RowAt(j)) && Compatible(Info(req), Info(RowAt(j)))
    requires SupportedFormat(ips, Info(RowAt(j)), Support(RowAt(j)), usage).Some?
    requires var fmt := SupportedFormat(ips, Info(RowAt(j)), Support(RowAt(j)), usage).value;
      Grade(fmt, Info(req), Info(RowAt(j))) > 0
    ensures CandidateAt(ips, usage, req, j).Some?
    ensures CandidateAt(ips, usage, req, j).value.fmt
         == SupportedFormat(ips, Info(RowAt(j)), Support(RowAt(j)), usage).value
  {
    hide Info, Support, RowAt, HasInfo, Compatible, SupportedFormat, Grade;
  }

  // ----- the picture is kept -----

  /** What a request and the format chosen for it have in common. */
  predicate SamePicture(req: FormatInfo, f: FormatInfo, afrc: bool) {
    && f.hsub == req.hsub && f.vsub == req.vsub && f.isRgb == req.isRgb && f.isYuv == req.isYuv
    && (req.isRgb && !req.isYuv ==>
          && f.TotalComponents() == req.TotalComponents()
          && (afrc || f.bpp.p0 == req.bpp.p0)
          && (f.bps == req.bps || ((req.id == RGBX_8888 || req.id == RGB_565) && f.bpp.p0 == 24)))
    && (!req.isRgb && !req.isYuv ==> f.id == req.id)
    && (req.isYuv && !req.isRgb ==>
          || f.id == req.id
          || (f.bps == req.bps && (f.TotalComponents() == req.TotalComponents()
                                   || (req.hasAlpha && !f.hasAlpha && f.TotalComponents() == 3))))
  }

  /**
   * The chosen format has the subsampling and colour model of the request; RGB keeps its components, and its depth
   * unless it becomes AFRC; YUV keeps its depth and loses at most an alpha component; anything else is what was asked
   * for.
   */
  lemma ChoiceKeepsThePicture(ips: Parties, usage: bv64, req: BaseFormat, fmt: InternalFormat)
    requires HasInfo(req) && RowIndex(req) < ROW_COUNT && IsBestFormat(ips, usage, req, fmt) && fmt != INVALID
    ensures HasInfo(fmt.base) && SamePicture(Info(req), Info(fmt.base), fmt.IsAfrc())
  {
    hide Info, Support, RowAt, RowIndex, HasInfo, CandidateAt, SupportedFormat, IsBestFormat, InternalFormat.IsAfrc,
      Compatible, SamePicture;
    var i := ChoiceIsCandidate(ips, usage, req, fmt);
    CandidateIsSupported(ips, usage, req, i);
    CandidateBase(ips, usage, req, i);
    CandidateIsGraded(ips, usage, req, i);
    RowShape(req);
    RowShape(RowAt(i));
    CompatiblePicture(Info(req), Info(RowAt(i)), fmt.IsAfrc());
  }

  lemma CandidateIsGraded(ips: Parties, usage: bv64, req: BaseFormat, i: nat)
    requires HasInfo(req) && i < ROW_COUNT && HasInfo(RowAt(i)) && CandidateAt(ips, usage, req, i).Some?
    ensures CandidateAt(ips, usage, req, i).value.fmt.IsAfrc() || !Info(req).isRgb
         || Info(RowAt(i)).bpp.p0 == Info(req).bpp.p0
  {
    RowsAreUnique(i);
    hide Info, Support, RowAt, HasInfo, Compatible, SupportedFormat, Grade, InternalFormat.IsAfrc;
    GradedWhen(CandidateAt(ips, usage, req, i).value.fmt, Info(req), Info(RowAt(i)));
  }

  lemma CompatiblePicture(req: FormatInfo, f: FormatInfo, afrc: bool)
    requires Compatible(req, f) && (afrc || !req.isRgb || f.bpp.p0 == req.bpp.p0)
    ensures SamePicture(req, f, afrc)
  {
  }

  // ----- the coding sizes that were asked for -----

  /** The bytes a usage asks for in an AFRC coding unit of the first plane. */
  function LumaAsked(usage: bv64): nat {
    var flags := usage & 0x7000_0000;
    if flags == 0x5000_0000 then 16 else if flags == 0x6000_0000 then 24 else if flags == 0x4000_0000 then 32 else 0
  }

  /** And in one of the other planes. */
  function ChromaAsked(usage: bv64): nat {
    var flags := usage & 0x0180_0000_0000_0000;
    if flags == 0 then 0
    else if flags == 0x0100_0000_0000_0000 then 16
    else if flags == 0x0080_0000_0000_0000 then 24
    else 32
  }

  lemma AskedSizes(usage: bv64)
    ensures LumaAsked(usage) == (if LumaRequest(usage).Some? then LumaRequest(usage).value.Bytes() else 0)
    ensures ChromaAsked(usage) == (if ChromaRequest(usage).Some? then ChromaRequest(usage).value.Bytes() else 0)
  {
  }

  /**
   * From the usage word to the layout: an AFRC format is built exactly when some layout is supported, a luma size is
   * asked for, and a chroma size is asked for exactly for YUV; and the coding units of every plane are laid out with
   * the bytes that were asked for.
   */
  lemma AskedSizesReachLayout(ips: Parties, id: BaseFormat, usage: bv64, width: nat, height: nat, p: nat)
    requires HasInfo(id)
    ensures var fmt := AfrcFormat(ips, Info(id), usage);
      var outcome := DeriveOutcome(fmt, usage, width, height);
      && (fmt.IsAfrc() <==>
            && (ips.Both(AFRC_ROT) || ips.Both(AFRC_SCAN)) && LumaAsked(usage) > 0
            && (Info(id).isYuv <==> ChromaAsked(usage) > 0))
      && (fmt.IsAfrc() && outcome.Derived? && p < outcome.request.f.npln && p < 3 ==>
            && outcome.request.at.IsAfrc()
            && AfrcUnit(outcome.request, p) == (if p == 0 then LumaAsked(usage) else ChromaAsked(usage)))
  {
    AskedSizes(usage);
    hide Info, LumaRequest, ChromaRequest, LumaAsked, ChromaAsked, AfrcWith, Parties.Both, DeriveOutcome,
      InternalFormat.IsAfrc, InternalFormat.IsAfbc, InternalFormat.LumaSize, InternalFormat.ChromaSize,
      CodingSize.Bytes, AfrcUnit;
    var fmt := AfrcFormat(ips, Info(id), usage);
    RowId(id);
    PlainIsNotBlockLinear(id);
    BytesPositive();
    if LumaRequest(usage).Some? {
      AfrcReadsBack(id, ips.Both(AFRC_ROT), LumaRequest(usage).value,
                    if Info(id).isYuv && ChromaRequest(usage).Some? then ChromaRequest(usage).value else Bytes16);
    }
    if fmt.IsAfrc() && DeriveOutcome(fmt, usage, width, height).Derived? {
      AfrcIsLaidOut(fmt, usage, width, height);
      MorePlanesAreYuv(fmt, usage, width, height);
      if p < 3 && p < DeriveOutcome(fmt, usage, width, height).request.f.npln {
        UnitsHold64Samples(fmt, usage, width, height, p);
      }
    }
  }

  lemma BytesPositive()
    ensures forall size: CodingSize :: size.Bytes() > 0
  {
  }

  lemma AfrcIsLaidOut(fmt: InternalFormat, usage: bv64, width: nat, height: nat)
    requires fmt.IsAfrc() && !fmt.IsAfbc() && DeriveOutcome(fmt, usage, width, height).Derived?
    ensures DeriveOutcome(fmt, usage, width, height).request.at.IsAfrc()
  {
    hide Info, ValidFormat, AdjustmentOf, LayoutUsageOf, AdjustedWidth, AdjustedHeight, InternalFormat.Get,
      InternalFormat.IsAfrc, InternalFormat.IsAfbc, InternalFormat.LumaSize, InternalFormat.ChromaSize, ClumpsDefined,
      Clump, PlaneAlignment;
  }

  lemma MorePlanesAreYuv(fmt: InternalFormat, usage: bv64, width: nat, height: nat)
    requires DeriveOutcome(fmt, usage, width, height).Derived?
    requires DeriveOutcome(fmt, usage, width, height).request.at.IsAfrc()
    ensures var q := DeriveOutcome(fmt, usage, width, height).request;
      q.f == Info(fmt.base) && HasInfo(fmt.base) && (q.f.npln > 1 ==> q.f.isYuv)
  {
    DerivedIsSane(fmt, usage, width, height);
    AfrcPlanes(DeriveOutcome(fmt, usage, width, height).request);
    hide Info, AllocTypeOf, ValidFormat, AdjustmentOf, Sane;
  }

  lemma AfrcPlanes(q: Request)
    requires Sane(q) && q.at.IsAfrc()
    ensures q.f.npln > 1 ==> q.f.isYuv
  {
    hide LinearRow, AfbcRow, BlockLinearRow, NamedRows, AfrcFits;
  }

  // ----- which requests get as far as the choice -----

  /** Usages that make some IP read or write the buffer; the composer only does so alone. */
  const PARTY_USAGE: bv64 :=
    SW_READ_MASK | SW_WRITE_MASK | HW_TEXTURE | HW_RENDER | GPU_DATA_BUFFER | HW_FB | HW_VIDEO_ENCODER | DECODER |
    HW_CAMERA_WRITE

  /**
   * A format is chosen for a request if and only if the format has a row, the usage is within what the row permits but
   * for vendor flags, somebody uses the buffer, YUV is not asked for without AFBC, and the allocator knows R8, front
   * buffers and GPU data of formats other than BLOB where those are asked for.
   */
  lemma RequestPassesExactlyWhen(req: BaseFormat, usage: bv64, allocator: AllocatorFlags)
    ensures SelectCheck(req, usage, allocator).None? <==>
      && HasInfo(req) && usage & !PermittedUsage(req) & !VENDOR_USAGE == 0
      && (Has(usage, PARTY_USAGE) || ComposerOnly(usage))
      && !(IsNoAfbc(usage) && Info(req).isYuv)
      && (Has(usage, GPU_DATA_BUFFER) && req != BLOB ==> allocator.dataBufferWithAnyFormat)
      && (Has(usage, FRONTBUFFER) ==> allocator.frontBufferUsage)
      && (req == R8 ==> allocator.supportsR8)
  {
    SomebodyUsesIt(usage);
    hide Info, PermittedUsage, GetProducers, GetConsumers, UsagePermitted, IsNoAfbc, ComposerOnly, Has, HasInfo;
    if HasInfo(req) {
      PermittedMeansSubset(PermittedUsage(req), usage);
    }
  }

  lemma SomebodyUsesIt(usage: bv64)
    ensures GetProducers(usage) == {} && GetConsumers(usage) == {} <==>
            !Has(usage, PARTY_USAGE) && !ComposerOnly(usage)
  {
    PartyFlags(usage);
    CpuTakesPart(usage);
    ConsumersAre(usage);
    ProducersAre(usage);
    hide Has, ComposerOnly, GetProducers, GetConsumers;
    if !(GetProducers(usage) == {} && GetConsumers(usage) == {}) {
      var ip :| ip in GetProducers(usage) + GetConsumers(usage);
      assert ip in ALL_IPS;
    }
  }

  lemma PartyFlags(usage: bv64)
    ensures Has(usage, PARTY_USAGE) <==>
      || Has(usage, SW_READ_MASK) || Has(usage, SW_WRITE_MASK) || Has(usage, HW_TEXTURE) || Has(usage, HW_RENDER)
      || Has(usage, GPU_DATA_BUFFER) || Has(usage, HW_FB) || Has(usage, HW_VIDEO_ENCODER) || Has(usage, DECODER)
      || Has(usage, HW_CAMERA_WRITE)
  {
  }

  /** A buffer nobody is known to write counts as written by the CPU: it gets the requested format, uncompressed. */
  lemma UnwrittenIsUncompressed(caps: Caps, req: BaseFormat, usage: bv64, fmt: InternalFormat)
    requires HasInfo(req) && RowIndex(req) < ROW_COUNT && IsBestFormat(PartiesOf(caps, usage), usage, req, fmt)
    requires GetProducers(usage) == {} && fmt != INVALID
    ensures fmt.base == req && Rank(fmt) == 0
  {
    var ips := PartiesOf(caps, usage);
    ProducersAreKnown(caps, usage);
    assert CpuInvolved(ips);
    hide PartiesOf, Info, Support, HasInfo, RowAt, RowIndex, IsBestFormat, CandidateAt, SupportedFormat, Compatible,
      GetProducers, Rank, CpuInvolved;
    var i := ChoiceIsCandidate(ips, usage, req, fmt);
    CandidateIsSupported(ips, usage, req, i);
    CandidateBase(ips, usage, req, i);
    SupportedRows(ips, RowAt(i), usage);
  }

  // ----- composition without the display -----

  /**
   * Where the GPU reads a buffer as well, the display unit never stands in the way: a table row has some kind of layout
   * exactly if it has one without the display. Where it does not, the display has its say.
   */
  lemma DisplayIsOptional(ips: Parties, id: BaseFormat, usage: bv64)
    requires HasInfo(id)
    ensures var f, s := Info(id), Support(id);
      var without := ips.(consumers := ips.consumers - {DPU});
      && (GPU in ips.consumers ==> (Kinds(ips, f, s, usage) == {} <==> SupportedKinds(without, f, s, usage) == {}))
      && (GPU !in ips.consumers ==> Kinds(ips, f, s, usage) == SupportedKinds(ips, f, s, usage))
  {
    hide Info, Support, SupportedKinds, HasInfo;
    var without := ips.(consumers := ips.consumers - {DPU});
    MoreIpsSupportLess(ips.caps, ips.producers, without.consumers, ips.producers, ips.consumers, id, usage);
    if DPU !in ips.consumers {
      assert without == ips;
    }
  }

  /** AFBC for a front buffer has a second body exactly if it has tiled headers. */
  lemma FrontBuffersAreDoubled(ips: Parties, f: FormatInfo, s: IpSupport, usage: bv64)
    requires Afbc in SupportedKinds(ips, f, s, usage) && IsFrontBuffer(usage)
    ensures var v := AfbcFlags(ips, f, usage); BasicAfbc in v ==> (DoubleBody in v <==> TiledHeaders in v)
  {
    BuiltFlagsAre(ips, f, usage);
    hide Supports, IsFrontBuffer, AfbcFlags, TableAllows, Has, MultiPlaneAfbc;
    assert Passes(ips, f, s, usage, Afbc);
  }

  // ----- what rules a layout out -----

  /** The kind of layout a rank stands for. */
  function KindOfRank(rank: nat): Kind {
    if rank == 3 then Afrc else if rank == 2 then Afbc else if rank == 1 then BlockLinearYuv else Linear
  }

  /**
   * What the chosen format respects, whatever the tables say: GPU data buffers are uncompressed, a usage without AFBC
   * never gets AFBC, and the two deep-colour formats are only chosen where everybody but possibly the display unit
   * takes them, half-float ones compressed only where that is taken too.
   */
  lemma ChoiceHonoursTheUsage(ips: Parties, usage: bv64, req: BaseFormat, fmt: InternalFormat)
    requires HasInfo(req) && RowIndex(req) < ROW_COUNT && IsBestFormat(ips, usage, req, fmt) && fmt != INVALID
    ensures Has(usage, GPU_DATA_BUFFER) ==> Rank(fmt) == 0
    ensures IsNoAfbc(usage) ==> Rank(fmt) != 2
    ensures var readers := ips.consumers - {DPU};
      && (fmt.base == RGBA_1010102 ==> Supports(ips.caps, ips.producers, readers, R10G10B10A2))
      && (fmt.base == RGBA_16161616 ==> Supports(ips.caps, ips.producers, readers, R16G16B16A16_FLOAT))
      && (fmt.base == RGBA_16161616 && Rank(fmt) > 0 ==>
            Supports(ips.caps, ips.producers, readers, AFBC_R16G16B16A16_FLOAT))
  {
    hide Info, Support, HasInfo, RowAt, RowIndex, IsBestFormat, CandidateAt, SupportedFormat, Compatible, Kinds,
      AfrcFormat, AfbcFormat, BlockLinearFormat, Rank, Has, IsNoAfbc, Supports, AllocTypeOf, AfbcUsable;
    var i := ChoiceIsCandidate(ips, usage, req, fmt);
    CandidateIsSupported(ips, usage, req, i);
    CandidateBase(ips, usage, req, i);
    var id := RowAt(i);
    RowId(id);
    RankBound(fmt);
    SupportedCases(ips, Info(id), Support(id), usage);
    KindIsAllowed(ips, Info(id), Support(id), usage, KindOfRank(Rank(fmt)));
    if Rank(fmt) == 2 {
      UsableAfbc(ips, Info(id), usage);
    }
  }

  lemma UsableAfbc(ips: Parties, f: FormatInfo, usage: bv64)
    requires AfbcUsable(ips, f, usage)
    ensures !IsNoAfbc(usage)
  {
    hide IsNoAfbc, AllocTypeOf, AfbcFormat;
  }

  lemma KindIsAllowed(ips: Parties, f: FormatInfo, s: IpSupport, usage: bv64, k: Kind)
    requires k in Kinds(ips, f, s, usage)
    ensures Has(usage, GPU_DATA_BUFFER) ==> k == Linear
    ensures var readers := ips.consumers - {DPU};
      && (f.id == RGBA_1010102 ==> Supports(ips.caps, ips.producers, readers, R10G10B10A2))
      && (f.id == RGBA_16161616 ==> Supports(ips.caps, ips.producers, readers, R16G16B16A16_FLOAT))
      && (f.id == RGBA_16161616 && k != Linear ==>
            Supports(ips.caps, ips.producers, readers, AFBC_R16G16B16A16_FLOAT))
  {
    hide SupportedKinds, Supports, Has;
    var readers := ips.consumers - {DPU};
    var without := ips.(consumers := readers);
    if k in SupportedKinds(ips, f, s, usage) {
      KindIsSupported(ips, f, s, usage, k);
    } else {
      KindIsSupported(without, f, s, usage, k);
    }
    SupportShrinks(ips.caps, ips.producers, readers, ips.producers, ips.consumers, R10G10B10A2);
    SupportShrinks(ips.caps, ips.producers, readers, ips.producers, ips.consumers, R16G16B16A16_FLOAT);
    SupportShrinks(ips.caps, ips.producers, readers, ips.producers, ips.consumers, AFBC_R16G16B16A16_FLOAT);
  }

  lemma KindIsSupported(ips: Parties, f: FormatInfo, s: IpSupport, usage: bv64, k: Kind)
    requires k in SupportedKinds(ips, f, s, usage)
    ensures Has(usage, GPU_DATA_BUFFER) ==> k == Linear
    ensures f.id == RGBA_1010102 ==> ips.Both(R10G10B10A2)
    ensures f.id == RGBA_16161616 ==> ips.Both(R16G16B16A16_FLOAT)
    ensures f.id == RGBA_16161616 && k != Linear ==> ips.Both(AFBC_R16G16B16A16_FLOAT)
  {
    hide Supports, TableAllows, CapsAllow, Has;
    if k in Passing(ips, f, s, usage) {
      assert Passes(ips, f, s, usage, k);
    }
  }

  // ----- the closest AFRC format -----

  /** The requested format, or one that holds the same samples in another order. */
  predicate SameSamples(req: FormatInfo, f: FormatInfo) {
    || f.id == req.id
    || (f.npln == req.npln && f.TotalComponents() == req.TotalComponents() && f.bps == req.bps
        && f.isYuv == req.isYuv && f.hsub == req.hsub && f.vsub == req.vsub)
  }

  /** Without the CPU the chosen AFRC format holds the same samples as the request, if any AFRC candidate does. */
  lemma ClosestAfrcIsChosen(ips: Parties, usage: bv64, req: BaseFormat, fmt: InternalFormat, j: nat)
    requires HasInfo(req) && RowIndex(req) < ROW_COUNT && IsBestFormat(ips, usage, req, fmt) && !CpuInvolved(ips)
    requires j < ROW_COUNT && CandidateAt(ips, usage, req, j).Some?
    requires Rank(CandidateAt(ips, usage, req, j).value.fmt) == 3
    requires HasInfo(RowAt(j)) && SameSamples(Info(req), Info(RowAt(j)))
    ensures HasInfo(fmt.base) && Rank(fmt) == 3 && SameSamples(Info(req), Info(fmt.base))
  {
    hide Info, Support, HasInfo, RowAt, RowIndex, IsBestFormat, CandidateAt, SupportedFormat, Compatible, Rank,
      SameSamples, CpuInvolved;
    BestRankWins(ips, usage, req, fmt, j);
    var i := TopRowOf(ips, usage, req, fmt, j);
    RankBound(fmt);
    CandidateBase(ips, usage, req, i);
    CandidateBase(ips, usage, req, j);
    AfrcGrade(ips, usage, req, i);
    AfrcGrade(ips, usage, req, j);
    CandidateIsSupported(ips, usage, req, i);
    CandidateIsSupported(ips, usage, req, j);
    SameColourModel(Info(req), Info(RowAt(i)));
    SameColourModel(Info(req), Info(RowAt(j)));
  }

  lemma SameColourModel(req: FormatInfo, f: FormatInfo)
    requires Compatible(req, f)
    ensures f.isYuv == req.isYuv
  {
  }

  /** The weight of an AFRC format is that of its layout and sizes, the same for every row of one colour model. */
  function AfrcWeight(ips: Parties, usage: bv64, yuv: bool): nat {
    if LumaRequest(usage).None? || (yuv && ChromaRequest(usage).None?) then 0
    else WeightOf(FlagsOf(AfrcWith(UNDEFINED, ips.Both(AFRC_ROT), LumaRequest(usage).value,
                                   if yuv then ChromaRequest(usage).value else Bytes16)), |ALL_FLAGS|)
  }

  lemma AfrcGrade(ips: Parties, usage: bv64, req: BaseFormat, i: nat)
    requires HasInfo(req) && i < ROW_COUNT && CandidateAt(ips, usage, req, i).Some?
    requires Rank(CandidateAt(ips, usage, req, i).value.fmt) == 3
    ensures HasInfo(RowAt(i))
    ensures CandidateAt(ips, usage, req, i).value.grade
         == (if SameSamples(Info(req), Info(RowAt(i))) then 2 else 1) + AfrcWeight(ips, usage, Info(RowAt(i)).isYuv)
  {
    hide Info, Support, RowAt, HasInfo, Compatible, SupportedFormat, Rank, SameSamples, AfrcWeight, Grade, AfrcFormat;
    RowsAreUnique(i);
    var fmt := CandidateAt(ips, usage, req, i).value.fmt;
    CandidateIsSupported(ips, usage, req, i);
    SupportedCases(ips, Info(RowAt(i)), Support(RowAt(i)), usage);
    RankThree(fmt);
    RowId(req);
    RowId(RowAt(i));
    GradeOfAfrc(ips, Info(RowAt(i)), usage, Info(req));
  }

  lemma GradeOfAfrc(ips: Parties, f: FormatInfo, usage: bv64, req: FormatInfo)
    requires AfrcFormat(ips, f, usage).IsAfrc()
    ensures Grade(AfrcFormat(ips, f, usage), req, f)
         == (if SameSamples(req, f) then 2 else 1) + AfrcWeight(ips, usage, f.isYuv)
  {
    PlainIsNotBlockLinear(f.id);
    hide FlagsOf, WeightOf, LumaRequest, ChromaRequest, InternalFormat.IsAfrc, InternalFormat.SetLumaSize,
      InternalFormat.SetChromaSize, Parties.Both;
    var fmt := AfrcFormat(ips, f, usage);
    var bare := AfrcWith(UNDEFINED, ips.Both(AFRC_ROT), LumaRequest(usage).value,
                         if f.isYuv then ChromaRequest(usage).value else Bytes16);
    AfrcReadsBack(f.id, ips.Both(AFRC_ROT), LumaRequest(usage).value,
                  if f.isYuv then ChromaRequest(usage).value else Bytes16);
    SameModifiers(f.id, UNDEFINED, ips.Both(AFRC_ROT), LumaRequest(usage).value,
                  if f.isYuv then ChromaRequest(usage).value else Bytes16);
    SameFlags(fmt, bare);
  }

  lemma SameModifiers(x: BaseFormat, y: BaseFormat, rotated: bool, luma: CodingSize, chroma: CodingSize)
    ensures AfrcWith(x, rotated, luma, chroma).mods == AfrcWith(y, rotated, luma, chroma).mods
  {
    hide FieldOf;
  }

  lemma SameFlags(x: InternalFormat, y: InternalFormat)
    requires x.mods == y.mods
    ensures FlagsOf(x) == FlagsOf(y)
  {
    hide Is;
    forall g: Flag
      ensures g in FlagsOf(x) <==> g in FlagsOf(y)
    {
      SameFlag(x, y, g);
    }
  }

  lemma SameFlag(x: InternalFormat, y: InternalFormat, g: Flag)
    requires x.mods == y.mods
    ensures Is(x, g) == Is(y, g)
  {
  }
}
