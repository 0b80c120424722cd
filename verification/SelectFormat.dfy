/** select_best_format with its error paths, and what its result guarantees to the allocation code. */
module SelectFormat {
  import opened Alignment
  import opened Usages
  import opened Formats
  import opened InternalFormats
  import opened ModifierFlags
  import opened AllocTypes
  import opened Ips
  import opened Capabilities
  import opened AfbcSelection
  import opened Selection
  import opened BestFormat
  import opened Layout
  import opened Derive
  import opened AfbcLayout
  import opened TiledLayout
  import opened Layers

  // ----- AFRC beats AFBC beats block-linear beats linear -----

  function Rank(fmt: InternalFormat): nat {
    if fmt.IsAfrc() then 3 else if fmt.IsAfbc() then 2 else if fmt.IsBlockLinear() then 1 else 0
  }

  /** The grades each rank can have. */
  ghost predicate GradeInRank(rank: nat, grade: nat) {
    match rank
    case 3 => grade > AFRC_WEIGHT
    case 2 => 3 <= grade <= 9
    case 1 => grade == 2
    case _ => grade == 1
  }

  lemma HeavyWithAfrc(flags: set<Flag>)
    requires BasicAfrc in flags
    ensures WeightOf(flags, |ALL_FLAGS|) >= AFRC_WEIGHT
  {
    assert WeightOf(flags, 2) >= AFRC_WEIGHT;
    WeightGrows(flags, 2, |ALL_FLAGS|);
  }

  lemma {:induction false} WeightGrows(flags: set<Flag>, m: nat, n: nat)
    requires m <= n <= |ALL_FLAGS|
    ensures WeightOf(flags, m) <= WeightOf(flags, n)
    decreases n
  {
    if m < n {
      WeightGrows(flags, m, n - 1);
    }
  }

  lemma LightWithoutAfrc(flags: set<Flag>)
    requires flags <= {BasicAfbc, SplitBlock, WideBlock, TiledHeaders, DoubleBody, YuvTransform, Sparse}
    ensures WeightOf(flags, |ALL_FLAGS|) <= 8
    ensures BasicAfbc in flags ==> WeightOf(flags, |ALL_FLAGS|) >= 2
  {
    LightPrefix(flags, |ALL_FLAGS|);
    assert BasicAfbc in flags ==> WeightOf(flags, 1) == 2;
    WeightGrows(flags, 1, |ALL_FLAGS|);
  }

  lemma {:induction false} LightPrefix(flags: set<Flag>, n: nat)
    requires flags <= {BasicAfbc, SplitBlock, WideBlock, TiledHeaders, DoubleBody, YuvTransform, Sparse}
    requires n <= |ALL_FLAGS|
    ensures WeightOf(flags, n) <=
      if n == 0 then 0 else if n <= 3 then 2 else if n <= 6 then n - 1
      else if n <= 8 then n - 2 else if n <= 10 then n - 3 else 8
  {
    if n > 0 {
      LightPrefix(flags, n - 1);
    }
  }

  lemma WeightOfPlain(id: BaseFormat)
    ensures WeightOf(FlagsOf(InternalFormat(id, 0)), |ALL_FLAGS|) == 0
    ensures WeightOf(FlagsOf(BlockLinearFormat(id)), |ALL_FLAGS|) == 1
  {
    NoModifiers(InternalFormat(id, 0));
    NothingWeighsNothing(|ALL_FLAGS|);
    assert FlagsOf(BlockLinearFormat(id)) == {BasicBlockLinear} by {
      forall g: Flag
        ensures Is(BlockLinearFormat(id), g) <==> g == BasicBlockLinear
      {
        match g {
          case BasicAfbc => case BasicAfrc => case BasicBlockLinear => case SplitBlock => case WideBlock =>
          case TiledHeaders => case ExtraWideBlock => case DoubleBody => case ContentHints => case YuvTransform =>
          case Sparse => case Usm =>
        }
      }
    }
    OnlyBlockLinear(|ALL_FLAGS|);
  }

  lemma {:induction false} NothingWeighsNothing(n: nat)
    requires n <= |ALL_FLAGS|
    ensures WeightOf({}, n) == 0
  {
    if n > 0 {
      NothingWeighsNothing(n - 1);
    }
  }

  lemma {:induction false} OnlyBlockLinear(n: nat)
    requires n <= |ALL_FLAGS|
    ensures WeightOf({BasicBlockLinear}, n) == if n >= 3 then 1 else 0
  {
    if n > 0 {
      OnlyBlockLinear(n - 1);
    }
  }

  /** Which of the four formats a supported format is. */
  lemma SupportedCases(ips: Parties, f: FormatInfo, s: IpSupport, usage: bv64)
    requires SupportedFormat(ips, f, s, usage).Some?
    ensures var fmt := SupportedFormat(ips, f, s, usage).value;
      match Rank(fmt)
      case 3 => Afrc in Kinds(ips, f, s, usage) && fmt == AfrcFormat(ips, f, usage)
      case 2 => Afbc in Kinds(ips, f, s, usage) && AfbcUsable(ips, f, usage) && fmt == AfbcFormat(ips, f, usage)
      case 1 => BlockLinearYuv in Kinds(ips, f, s, usage) && fmt == BlockLinearFormat(f.id)
      case _ => Linear in Kinds(ips, f, s, usage) && fmt == InternalFormat(f.id, 0)
  {
    hide Kinds, AfbcFlags, AfrcFormat, BlockLinearUsable, AllocTypeOf, IsNoAfbc, InternalFormat.IsAfrc,
      InternalFormat.IsAfbc, InternalFormat.IsBlockLinear, BlockLinearFormat;
    PlainIsNotBlockLinear(f.id);
    AfbcFormatsAreLegal(ips, f, usage);
    AfbcIsNotAfrc(AfbcFormat(ips, f, usage));
    hide AfbcFormat;
  }

  lemma AfbcIsNotAfrc(fmt: InternalFormat)
    ensures fmt.IsAfrc() <==> BasicAfrc in FlagsOf(fmt)
    ensures fmt.IsAfbc() <==> BasicAfbc in FlagsOf(fmt)
    ensures fmt.IsBlockLinear() <==> BasicBlockLinear in FlagsOf(fmt)
  {
    assert fmt.IsAfrc() == Is(fmt, BasicAfrc);
    assert fmt.IsAfbc() == Is(fmt, BasicAfbc);
    assert fmt.IsBlockLinear() == Is(fmt, BasicBlockLinear);
  }

  lemma GradesFollowRanks(ips: Parties, f: FormatInfo, s: IpSupport, usage: bv64, req: FormatInfo)
    requires SupportedFormat(ips, f, s, usage).Some?
    ensures var fmt := SupportedFormat(ips, f, s, usage).value;
      Grade(fmt, req, f) > 0 ==> GradeInRank(Rank(fmt), Grade(fmt, req, f))
  {
    var fmt := SupportedFormat(ips, f, s, usage).value;
    SupportedCases(ips, f, s, usage);
    WeightOfPlain(f.id);
    AfbcFormatsAreLegal(ips, f, usage);
    AfbcIsNotAfrc(fmt);
    hide SupportedFormat, Kinds, AfbcFormat, AfbcFlags, AfrcFormat, AfbcUsable, InternalFormat.IsAfrc,
      InternalFormat.IsAfbc, InternalFormat.IsBlockLinear, FlagsOf, BlockLinearFormat, AfbcRules, SameOrReordered,
      WeightOf;
    if fmt.IsAfrc() {
      HeavyWithAfrc(FlagsOf(fmt));
    } else if fmt.IsAfbc() {
      LightWithoutAfrc(FlagsOf(fmt));
    }
  }

  /**
   * Without the CPU the choice has the highest rank of all candidates: AFRC whenever one is possible, otherwise
   * AFBC, otherwise block-linear, otherwise linear.
   */
  lemma BestRankWins(ips: Parties, usage: bv64, req: BaseFormat, fmt: InternalFormat, j: nat)
    requires HasInfo(req) && RowIndex(req) < ROW_COUNT && IsBestFormat(ips, usage, req, fmt)
    requires !CpuInvolved(ips) && j < ROW_COUNT && CandidateAt(ips, usage, req, j).Some?
    ensures fmt != INVALID && Rank(CandidateAt(ips, usage, req, j).value.fmt) <= Rank(fmt)
  {
    hide CandidateAt, RowIndex, RowAt, HasInfo, Rank;
    CandidateGrade(ips, usage, req, j);
    var i := TopRowOf(ips, usage, req, fmt, j);
    CandidateGrade(ips, usage, req, i);
    CandidateBase(ips, usage, req, i);
    InvalidHasNoInfo();
    RankOrder(Rank(CandidateAt(ips, usage, req, j).value.fmt), CandidateAt(ips, usage, req, j).value.grade,
              Rank(fmt), CandidateAt(ips, usage, req, i).value.grade);
  }

  /** The row a choice without the CPU comes from. */
  lemma TopRowOf(ips: Parties, usage: bv64, req: BaseFormat, fmt: InternalFormat, j: nat) returns (i: nat)
    requires HasInfo(req) && RowIndex(req) < ROW_COUNT && IsBestFormat(ips, usage, req, fmt)
    requires !CpuInvolved(ips) && j < ROW_COUNT && CandidateAt(ips, usage, req, j).Some?
    ensures i < ROW_COUNT && CandidateAt(ips, usage, req, i).Some? && fmt == CandidateAt(ips, usage, req, i).value.fmt
    ensures CandidateAt(ips, usage, req, j).value.grade <= CandidateAt(ips, usage, req, i).value.grade
  {
    hide CandidateAt, RowIndex, HasInfo;
    if IsTop(ips, usage, req, RowIndex(req)) {
      i := RowIndex(req);
    } else {
      i :| IsFirstTop(ips, usage, req, i) && fmt == CandidateAt(ips, usage, req, i).value.fmt;
    }
  }

  lemma InvalidHasNoInfo()
    ensures !HasInfo(INVALID.base)
  {
  }

  lemma RankOrder(a: nat, ga: nat, b: nat, gb: nat)
    requires a <= 3 && b <= 3 && GradeInRank(a, ga) && GradeInRank(b, gb) && ga <= gb
    ensures a <= b
  {
  }

  lemma CandidateGrade(ips: Parties, usage: bv64, req: BaseFormat, i: nat)
    requires HasInfo(req) && i < ROW_COUNT && CandidateAt(ips, usage, req, i).Some?
    ensures var c := CandidateAt(ips, usage, req, i).value; Rank(c.fmt) <= 3 && GradeInRank(Rank(c.fmt), c.grade)
  {
    RowsAreUnique(i);
    hide Info, Support, RowAt, Compatible, SupportedFormat, Grade, InternalFormat.IsAfrc, InternalFormat.IsAfbc,
      InternalFormat.IsBlockLinear, GradeInRank;
    GradesFollowRanks(ips, Info(RowAt(i)), Support(RowAt(i)), usage, Info(req));
  }

  // ----- selected formats are allocatable -----

  /** A format some known producer handles in linear form is linear in the format table. */
  lemma LinearRows(id: BaseFormat, p: IpSet, c: IpSet)
    requires HasInfo(id) && p != {} && p <= ALL_IPS && TableAllows(Support(id), p, c, Linear)
    ensures Info(id).linear
  {
    if id == YUV420_8BIT_I || id == YUV444 || id == Q410 || id == Q401 || id == YUV420_10BIT_I {
      hide Info;
      var ip :| ip in p;
      NotLinear(id, p, c, ip);
    }
  }

  lemma NotLinear(id: BaseFormat, p: IpSet, c: IpSet, ip: nat)
    requires id == YUV420_8BIT_I || id == YUV444 || id == Q410 || id == Q401 || id == YUV420_10BIT_I
    requires ip in p && ip in ALL_IPS
    ensures !TableAllows(Support(id), p, c, Linear)
  {
  }

  /** The CPU handles nothing but linear layouts. */
  lemma CpuOnlyLinear(id: BaseFormat, p: IpSet, c: IpSet, k: Kind)
    requires HasInfo(id) && (CPU in p || CPU in c) && TableAllows(Support(id), p, c, k)
    ensures k == Linear
  {
    hide Support, CpuServes;
    CpuColumnsAre(id);
  }

  /** A kind that is left passed all checks, with or without the DPU among the consumers. */
  lemma KindPasses(ips: Parties, f: FormatInfo, s: IpSupport, usage: bv64, k: Kind) returns (c: IpSet)
    requires k in Kinds(ips, f, s, usage)
    ensures CPU in c <==> CPU in ips.consumers
    ensures Passes(Parties(ips.caps, ips.producers, c), f, s, usage, k) || (k == Linear && f.id == RGBA_16161616)
  {
    hide Supports, Passes, IsFrontBuffer, Has;
    c := if k in SupportedKinds(ips, f, s, usage) then ips.consumers else ips.consumers - {DPU};
    assert k in SupportedKinds(Parties(ips.caps, ips.producers, c), f, s, usage);
  }

  /** What the format table must say about the format a candidate comes from. */
  ghost predicate RowAllows(f: FormatInfo, fmt: InternalFormat) {
    match Rank(fmt)
    case 3 => f.afrc
    case 2 => f.afbc && f.npln == 1
    case 1 => f.blockLinear
    case _ => f.linear
  }

  lemma PassedKind(ips: Parties, id: BaseFormat, usage: bv64, k: Kind, c: IpSet)
    requires HasInfo(id) && ips.producers != {} && ips.producers <= ALL_IPS
    requires CPU in c <==> CPU in ips.consumers
    requires Passes(Parties(ips.caps, ips.producers, c), Info(id), Support(id), usage, k)
    ensures match k
      case Linear => Info(id).linear
      case Afbc => Info(id).afbc && Info(id).npln == 1
      case Afrc => Info(id).afrc
      case BlockLinearYuv => Info(id).blockLinear
    ensures CpuInvolved(ips) ==> k == Linear
  {
    RowShape(id);
    hide Info, Support, TableAllows, IsFrontBuffer, Has, MultiPlaneAfbc, Parties.Both;
    if k == Linear {
      LinearRows(id, ips.producers, c);
    } else if CpuInvolved(ips) {
      CpuOnlyLinear(id, ips.producers, c, k);
    }
    if k == Afbc {
      SinglePlane(ips, Info(id), c);
    }
  }

  lemma SupportedRows(ips: Parties, id: BaseFormat, usage: bv64)
    requires HasInfo(id) && ips.producers != {} && ips.producers <= ALL_IPS
    requires SupportedFormat(ips, Info(id), Support(id), usage).Some?
    ensures var fmt := SupportedFormat(ips, Info(id), Support(id), usage).value;
      && fmt.base == id && RowAllows(Info(id), fmt)
      && (CpuInvolved(ips) ==> Rank(fmt) == 0)
  {
    RowId(id);
    HalfFloatIsLinear(id);
    hide Info, Support, HasInfo, SupportedFormat, Kinds, Passes, AfbcUsable, Rank, AfbcFormat, AfrcFormat,
      BlockLinearFormat;
    var f, s := Info(id), Support(id);
    var fmt := SupportedFormat(ips, f, s, usage).value;
    SupportedKeepsBase(ips, f, s, usage);
    SupportedCases(ips, f, s, usage);
    RankBound(fmt);
    var k := if Rank(fmt) == 3 then Afrc else if Rank(fmt) == 2 then Afbc
             else if Rank(fmt) == 1 then BlockLinearYuv else Linear;
    var c := KindPasses(ips, f, s, usage, k);
    if !(k == Linear && id == RGBA_16161616) {
      PassedKind(ips, id, usage, k, c);
    }
  }

  lemma RankBound(fmt: InternalFormat)
    ensures Rank(fmt) <= 3
  {
  }

  lemma HalfFloatIsLinear(id: BaseFormat)
    requires HasInfo(id)
    ensures id == RGBA_16161616 ==> Info(id).linear
  {
  }

  /** The selector never passes an empty producer set, so multi-plane AFBC is never supported. */
  lemma SinglePlane(ips: Parties, f: FormatInfo, c: IpSet)
    requires ips.producers != {} && (f.npln > 1 ==> MultiPlaneAfbc(Parties(ips.caps, ips.producers, c)))
    ensures f.npln <= 1
  {
    hide Supports;
  }

  // ----- allocation -----

  lemma PlainTypes(id: BaseFormat, usage: bv64)
    requires HasInfo(id)
    ensures var at := AllocTypeOf(InternalFormat(id, 0), usage); at.Some? && at.value.IsLinear()
    ensures var at := AllocTypeOf(BlockLinearFormat(id), usage); at.Some? && at.value.IsBlockLinear()
  {
    hide Info;
    PlainIsNotBlockLinear(id);
    hide InternalFormat.IsAfrc, InternalFormat.IsAfbc, InternalFormat.IsBlockLinear, BlockLinearFormat;
    assert BlockLinearFormat(id).base == id by { BlockLinearBase(id); }
  }

  lemma BlockLinearBase(id: BaseFormat)
    ensures BlockLinearFormat(id).base == id
  {
  }

  lemma AfrcRowsHaveClumps(f: FormatInfo)
    requires WellFormed(f) && f.afrc
    ensures ClumpsDefined(f)
  {
    hide Divides, LinearRow, AfbcRow, BlockLinearRow, NamedRows;
  }

  lemma AfrcType(ips: Parties, id: BaseFormat, usage: bv64)
    requires HasInfo(id) && AfrcFormat(ips, Info(id), usage).IsAfrc() && Info(id).afrc
    ensures var at := AllocTypeOf(AfrcFormat(ips, Info(id), usage), usage); at.Some? && at.value.IsAfrc()
  {
    hide Info, HasInfo, WellFormed, LumaRequest, ChromaRequest, AfrcWith, Parties.Both, InternalFormat.IsAfrc,
      InternalFormat.IsAfbc, InternalFormat.Get, InternalFormat.LumaSize, InternalFormat.ChromaSize, ClumpsDefined,
      Clump;
    TableWellFormed(id);
    AfrcRowsHaveClumps(Info(id));
    PlainIsNotBlockLinear(id);
    AfrcReadsBack(id, ips.Both(AFRC_ROT), LumaRequest(usage).value,
                  if Info(id).isYuv then ChromaRequest(usage).value else Bytes16);
    RequestedSizes(usage);
  }

  lemma RequestedSizes(usage: bv64)
    ensures LumaRequest(usage) != Some(InvalidSize) && ChromaRequest(usage) != Some(InvalidSize)
  {
  }

  lemma AfbcType(ips: Parties, f: FormatInfo, usage: bv64)
    requires AfbcUsable(ips, f, usage) && f == Info(f.id) && f.npln == 1
    ensures var at := AllocTypeOf(AfbcFormat(ips, f, usage), usage);
      at.Some? && at.value.IsAfbc() && !at.value.multiPlane
  {
    hide Info, Build, AfbcFlags, IsNoAfbc, InternalFormat.Get, Has;
  }

  /** The allocation type of each rank. */
  ghost predicate TypeOfRank(at: AllocType, rank: nat) {
    match rank
    case 3 => at.IsAfrc()
    case 2 => at.IsAfbc() && !at.multiPlane
    case 1 => at.IsBlockLinear()
    case _ => at.IsLinear()
  }

  lemma SupportedType(ips: Parties, id: BaseFormat, usage: bv64)
    requires HasInfo(id) && ips.producers != {} && ips.producers <= ALL_IPS
    requires SupportedFormat(ips, Info(id), Support(id), usage).Some?
    ensures var fmt := SupportedFormat(ips, Info(id), Support(id), usage).value;
      AllocTypeOf(fmt, usage).Some? && TypeOfRank(AllocTypeOf(fmt, usage).value, Rank(fmt)) && RowAllows(Info(id), fmt)
  {
    RowId(id);
    hide Info, Support, HasInfo, SupportedFormat, Kinds, AfbcUsable, Rank, AfbcFormat, AfrcFormat,
      BlockLinearFormat, AllocTypeOf, AllocType.IsAfbc, AllocType.IsAfrc, AllocType.IsBlockLinear,
      AllocType.IsLinear;
    var fmt := SupportedFormat(ips, Info(id), Support(id), usage).value;
    SupportedRows(ips, id, usage);
    SupportedCases(ips, Info(id), Support(id), usage);
    RankBound(fmt);
    PlainTypes(id, usage);
    if Rank(fmt) == 3 {
      RankThree(fmt);
      AfrcType(ips, id, usage);
    } else if Rank(fmt) == 2 {
      AfbcType(ips, Info(id), usage);
    }
  }

  lemma ValidForRank(f: FormatInfo, fmt: InternalFormat, at: AllocType, height: nat)
    requires TypeOfRank(at, Rank(fmt)) && RowAllows(f, fmt)
    ensures ValidFormat(f, at, height) <==> (f.id == BLOB ==> height == 1)
    ensures at.IsLinear() <==> Rank(fmt) == 0
  {
  }

  /** Every supported format is accepted by get_alloc_type and validate_format, but for BLOB's height. */
  lemma SupportedIsAllocatable(ips: Parties, id: BaseFormat, usage: bv64, height: nat)
    requires HasInfo(id) && ips.producers != {} && ips.producers <= ALL_IPS
    requires SupportedFormat(ips, Info(id), Support(id), usage).Some?
    ensures var fmt := SupportedFormat(ips, Info(id), Support(id), usage).value;
      && fmt.base == id && AllocTypeOf(fmt, usage).Some?
      && (ValidFormat(Info(id), AllocTypeOf(fmt, usage).value, height) <==> (id == BLOB ==> height == 1))
      && (AllocTypeOf(fmt, usage).value.IsLinear() <==> Rank(fmt) == 0)
      && (CpuInvolved(ips) ==> Rank(fmt) == 0)
  {
    RowId(id);
    hide Info, Support, HasInfo, SupportedFormat, Rank, AllocTypeOf, RowAllows, TypeOfRank, ValidFormat,
      AllocType.IsLinear;
    var fmt := SupportedFormat(ips, Info(id), Support(id), usage).value;
    SupportedRows(ips, id, usage);
    SupportedType(ips, id, usage);
    ValidForRank(Info(id), fmt, AllocTypeOf(fmt, usage).value, height);
  }

  lemma RankThree(fmt: InternalFormat)
    requires Rank(fmt) == 3
    ensures fmt.IsAfrc()
  {
  }

  // ----- select_best_format -----

  /** What the allocator interface in use can handle (the descriptor's flags). */
  datatype AllocatorFlags = AllocatorFlags(dataBufferWithAnyFormat: bool, frontBufferUsage: bool, supportsR8: bool)

  datatype SelectError =
    | UnknownBase | UsageNotPermitted | NoProducerOrConsumer | NoAfbcForYuv | DataBufferFormat
    | FrontBufferUnsupported | R8Unsupported

  predicate UsagePermitted(permitted: bv64, usage: bv64) {
    (permitted | usage) & !VENDOR_USAGE == permitted & !VENDOR_USAGE
  }

  /** Only flags the format permits, vendor flags aside. */
  lemma PermittedMeansSubset(permitted: bv64, usage: bv64)
    ensures UsagePermitted(permitted, usage) <==> usage & !permitted & !VENDOR_USAGE == 0
  {
  }

  function SelectCheck(req: BaseFormat, usage: bv64, allocator: AllocatorFlags): Option<SelectError> {
    if !HasInfo(req) then Some(UnknownBase)
    else if !UsagePermitted(PermittedUsage(req), usage) then Some(UsageNotPermitted)
    else if GetProducers(usage) == {} && GetConsumers(usage) == {} then Some(NoProducerOrConsumer)
    else if IsNoAfbc(usage) && Info(req).isYuv then Some(NoAfbcForYuv)
    else if !allocator.dataBufferWithAnyFormat && Has(usage, GPU_DATA_BUFFER) && req != BLOB then Some(DataBufferFormat)
    else if !allocator.frontBufferUsage && Has(usage, FRONTBUFFER) then Some(FrontBufferUnsupported)
    else if req == R8 && !allocator.supportsR8 then Some(R8Unsupported)
    else None
  }

  /** The CPU stands in for a missing producer. */
  function PartiesOf(caps: Caps, usage: bv64): Parties {
    Parties(caps, if GetProducers(usage) == {} then {CPU} else GetProducers(usage), GetConsumers(usage))
  }

  method SelectBestFormat(caps: Caps, req: BaseFormat, usage: bv64,
      allocator: AllocatorFlags) returns (fmt: InternalFormat)
    ensures SelectCheck(req, usage, allocator).Some? ==> fmt == INVALID
    ensures SelectCheck(req, usage, allocator).None? ==>
      HasInfo(req) && RowIndex(req) < ROW_COUNT && IsBestFormat(PartiesOf(caps, usage), usage, req, fmt)
  {
    hide Info, HasInfo, RowIndex, WellFormed, PermittedUsage, UsagePermitted, GetProducers, GetConsumers, IsNoAfbc,
      Has, IsBestFormat;
    var info := GetFormatInfo(req);
    if info.None? {
      return INVALID;
    }
    var f := info.value;
    if !UsagePermitted(PermittedUsage(req), usage) {
      return INVALID;
    }
    var producers, consumers := GetProducers(usage), GetConsumers(usage);
    if producers == {} && consumers == {} {
      return INVALID;
    }
    if producers == {} {
      producers := producers + {CPU};
    }
    if IsNoAfbc(usage) && f.isYuv {
      return INVALID;
    }
    if !allocator.dataBufferWithAnyFormat && Has(usage, GPU_DATA_BUFFER) && req != BLOB {
      return INVALID;
    }
    if !allocator.frontBufferUsage && Has(usage, FRONTBUFFER) {
      return INVALID;
    }
    if req == R8 && !allocator.supportsR8 {
      return INVALID;
    }
    assert Parties(caps, producers, consumers) == PartiesOf(caps, usage);
    fmt := GetBestFormat(f.id, usage, Parties(caps, producers, consumers));
  }

  lemma ProducersAreKnown(caps: Caps, usage: bv64)
    ensures var ips := PartiesOf(caps, usage);
      && ips.producers != {} && ips.producers <= ALL_IPS
      && (HasCpu(usage) ==> CpuInvolved(ips))
  {
    CpuTakesPart(usage);
    hide GetProducers, GetConsumers, HasCpu, Has;
  }

  /** A choice other than INVALID is the supported format of some compatible row; with the CPU, of the requested one. */
  lemma ChoiceIsCandidate(ips: Parties, usage: bv64, req: BaseFormat, fmt: InternalFormat) returns (i: nat)
    requires HasInfo(req) && RowIndex(req) < ROW_COUNT && IsBestFormat(ips, usage, req, fmt) && fmt != INVALID
    ensures i < ROW_COUNT && CandidateAt(ips, usage, req, i).Some? && fmt == CandidateAt(ips, usage, req, i).value.fmt
    ensures CpuInvolved(ips) ==> i == RowIndex(req)
  {
    hide CandidateAt, RowIndex, HasInfo;
    if CpuInvolved(ips) || IsTop(ips, usage, req, RowIndex(req)) {
      i := RowIndex(req);
    } else {
      i :| IsFirstTop(ips, usage, req, i) && fmt == CandidateAt(ips, usage, req, i).value.fmt;
    }
  }

  lemma CandidateIsSupported(ips: Parties, usage: bv64, req: BaseFormat, i: nat)
    requires HasInfo(req) && i < ROW_COUNT && CandidateAt(ips, usage, req, i).Some?
    ensures var id := RowAt(i);
      && HasInfo(id) && Compatible(Info(req), Info(id))
      && SupportedFormat(ips, Info(id), Support(id), usage) == Some(CandidateAt(ips, usage, req, i).value.fmt)
  {
    RowsAreUnique(i);
    hide Info, Support, RowAt, Compatible, SupportedFormat, Grade;
  }

  /**
   * Selected formats are always allocatable: the derivation never rejects what the selector chose, except a BLOB
   * whose height is not one. With CPU usage the base format is the requested one and nothing is compressed, so
   * every compressed layout is reached without CPU usage, as its alignment branch requires.
   */
  lemma SelectedFormatsAreAllocatable(caps: Caps, req: BaseFormat, usage: bv64, fmt: InternalFormat, width: nat,
      height: nat)
    requires HasInfo(req) && RowIndex(req) < ROW_COUNT && IsBestFormat(PartiesOf(caps, usage), usage, req, fmt)
    requires fmt != INVALID
    ensures HasInfo(fmt.base) && AllocTypeOf(fmt, usage).Some?
    ensures ValidFormat(Info(fmt.base), AllocTypeOf(fmt, usage).value, height) <==> (fmt.base == BLOB ==> height == 1)
    ensures Compatible(Info(req), Info(fmt.base))
    ensures HasCpu(usage) ==> fmt.base == req && AllocTypeOf(fmt, usage).value.IsLinear()
    ensures fmt.IsAfbc() ==> !HasCpu(usage)
  {
    var ips := PartiesOf(caps, usage);
    ProducersAreKnown(caps, usage);
    hide PartiesOf, Info, Support, HasInfo, RowAt, RowIndex, IsBestFormat, CandidateAt, SupportedFormat,
      AllocTypeOf, ValidFormat, Compatible, HasCpu, AllocType.IsLinear;
    var i := ChoiceIsCandidate(ips, usage, req, fmt);
    CandidateIsSupported(ips, usage, req, i);
    CandidateBase(ips, usage, req, i);
    SupportedIsAllocatable(ips, RowAt(i), usage, height);
  }

  lemma FamilyOf(q: Request)
    requires Sane(q) && FamilyAligned(q)
    ensures AfbcRequest(q) || AfrcRequest(q) || BlockLinearRequest(q) || q.at.IsLinear()
  {
    hide Sane;
  }

  lemma OutcomeOf(fmt: InternalFormat, usage: bv64, width: nat, height: nat)
    requires HasInfo(fmt.base) && AllocTypeOf(fmt, usage).Some?
    requires ValidFormat(Info(fmt.base), AllocTypeOf(fmt, usage).value, height)
    ensures var d := DeriveOutcome(fmt, usage, width, height);
      && (d.Derived? || d == Rejected(DivisionByZero))
      && (d.Derived? ==> d.request.at == AllocTypeOf(fmt, usage).value && d.request.u.cpu == HasCpu(usage))
  {
    hide Info, AllocTypeOf, ValidFormat, HasCpu, HasHardware, Has, StrideRequestOf, AdjustmentOf, AdjustedWidth,
      AdjustedHeight, RkEnlarges;
  }

  /**
   * The request the layout engine gets from a selected format belongs to its family without CPU usage, or is
   * linear.
   */
  lemma SelectedLayoutIsAligned(caps: Caps, req: BaseFormat, usage: bv64, fmt: InternalFormat, width: nat, height: nat)
    requires HasInfo(req) && RowIndex(req) < ROW_COUNT && IsBestFormat(PartiesOf(caps, usage), usage, req, fmt)
    requires fmt != INVALID && (fmt.base == BLOB ==> height == 1)
    ensures var d := DeriveOutcome(fmt, usage, width, height);
      && (d.Derived? || d == Rejected(DivisionByZero))
      && (d.Derived? ==>
            && Derivable(d.request) && FamilyAligned(d.request)
            && (AfbcRequest(d.request) || AfrcRequest(d.request) || BlockLinearRequest(d.request)
                || d.request.at.IsLinear()))
  {
    hide PartiesOf, Info, HasInfo, RowIndex, IsBestFormat, AllocTypeOf, ValidFormat, HasCpu, Compatible,
      DeriveOutcome, Sane, Computable, RkEnlarges, AfbcRequest, AfrcRequest, BlockLinearRequest,
      AllocType.IsLinear, InternalFormat.IsAfbc;
    SelectedFormatsAreAllocatable(caps, req, usage, fmt, width, height);
    OutcomeOf(fmt, usage, width, height);
    if DeriveOutcome(fmt, usage, width, height).Derived? {
      DerivedIsSane(fmt, usage, width, height);
      FamilyOf(DeriveOutcome(fmt, usage, width, height).request);
    }
  }

  /** Formats without permitted usage are never selected: without usage there is no producer and no consumer. */
  lemma UnlistedFormatsAreRefused(req: BaseFormat, usage: bv64, allocator: AllocatorFlags)
    requires req == BGR_888 || req == NV24 || req == NV30
    ensures SelectCheck(req, usage, allocator) == Some(UsageNotPermitted)
         || SelectCheck(req, usage, allocator) == Some(NoProducerOrConsumer)
  {
    hide GetProducers, GetConsumers, UsagePermitted, PublicUsage, IsNoAfbc, Has, Info;
    if UsagePermitted(0, usage) {
      VendorUsageIsPrivate(usage);
      NothingPublic(usage);
    }
  }

  lemma VendorUsageIsPrivate(usage: bv64)
    requires UsagePermitted(0, usage)
    ensures PublicUsage(usage) == 0
  {
  }

  lemma NothingPublic(usage: bv64)
    requires PublicUsage(usage) == 0
    ensures GetProducers(usage) == {} && GetConsumers(usage) == {}
  {
    hide PublicUsage;
  }
}
