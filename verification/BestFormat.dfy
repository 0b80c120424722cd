/** get_supported_format and get_best_format: the argmax over all compatible base formats. */
module BestFormat {
  import opened Usages
  import opened Formats
  import opened InternalFormats
  import opened ModifierFlags
  import opened AllocTypes
  import opened Ips
  import opened Capabilities
  import opened AfbcSelection
  import opened Selection

  // ----- the supported format of one base format -----

  /** The DPU is left out of the consumers when only it stands in the way of composition on the GPU. */
  function Kinds(ips: Parties, f: FormatInfo, s: IpSupport, usage: bv64): set<Kind> {
    var kinds := SupportedKinds(ips, f, s, usage);
    if kinds == {} && GPU in ips.consumers && DPU in ips.consumers
    then SupportedKinds(ips.(consumers := ips.consumers - {DPU}), f, s, usage)
    else kinds
  }

  predicate AfbcUsable(ips: Parties, f: FormatInfo, usage: bv64) {
    var fmt := AfbcFormat(ips, f, usage);
    var at := AllocTypeOf(fmt, usage);
    !IsNoAfbc(usage) && fmt.IsAfbc() && at.Some? && (f.npln == 1 || at.value.multiPlane)
  }

  predicate BlockLinearUsable(ips: Parties) {
    ips.Both(YUV_BL_8) || ips.Both(YUV_BL_10)
  }

  function BlockLinearFormat(id: BaseFormat): InternalFormat {
    InternalFormat(id, BLOCK_LINEAR_BASIC)
  }

  /** AFRC first, then AFBC, then block-linear, then linear; nothing when none is left. */
  function SupportedFormat(ips: Parties, f: FormatInfo, s: IpSupport, usage: bv64): Option<InternalFormat> {
    var kinds := Kinds(ips, f, s, usage);
    if Afrc in kinds && AfrcFormat(ips, f, usage).IsAfrc() then Some(AfrcFormat(ips, f, usage))
    else if Afbc in kinds && AfbcUsable(ips, f, usage) then Some(AfbcFormat(ips, f, usage))
    else if BlockLinearYuv in kinds && BlockLinearUsable(ips) then Some(BlockLinearFormat(f.id))
    else if Linear in kinds then Some(InternalFormat(f.id, 0))
    else None
  }

  method GetBlFormat(ips: Parties, base: InternalFormat) returns (fmt: InternalFormat)
    requires base.mods == 0
    ensures fmt == if BlockLinearUsable(ips) then BlockLinearFormat(base.base) else base
  {
    fmt := base;
    if ips.Both(YUV_BL_8) || ips.Both(YUV_BL_10) {
      fmt := InternalFormat(base.base, BLOCK_LINEAR_BASIC);
    }
  }

  lemma PlainIsNotBlockLinear(id: BaseFormat)
    ensures !InternalFormat(id, 0).IsBlockLinear() && BlockLinearFormat(id).IsBlockLinear()
    ensures !InternalFormat(id, 0).IsAfbc() && !InternalFormat(id, 0).IsAfrc()
    ensures !BlockLinearFormat(id).IsAfbc() && !BlockLinearFormat(id).IsAfrc()
  {
  }

  method GetSupportedFormat(ips: Parties, f: FormatInfo, s: IpSupport, usage: bv64) returns (r: Option<InternalFormat>)
    ensures r == SupportedFormat(ips, f, s, usage)
  {
    hide SupportedKinds, AfrcFormat, AfbcFormat, AllocTypeOf, IsNoAfbc, BlockLinearUsable, InternalFormat.IsAfrc,
      InternalFormat.IsAfbc, InternalFormat.IsBlockLinear, BlockLinearFormat;
    var kinds := IsFormatSupported(ips, f, s, usage);
    if kinds == F_NONE && GPU in ips.consumers && DPU in ips.consumers {
      var withoutDpu := ips.consumers - {DPU};
      kinds := IsFormatSupported(ips.(consumers := withoutDpu), f, s, usage);
    }
    if Afrc in kinds {
      var afrc := GetAfrcFormat(ips, f, usage);
      if afrc.IsAfrc() {
        return Some(afrc);
      }
    }
    if Afbc in kinds {
      if !IsNoAfbc(usage) {
        var afbc := GetAfbcFormat(ips, f, usage);
        if afbc.IsAfbc() {
          var allocType := GetAllocType(afbc, usage);
          if allocType.Some? && (f.npln == 1 || allocType.value.multiPlane) {
            return Some(afbc);
          }
        }
      }
    }
    if BlockLinearYuv in kinds {
      var blockLinear := GetBlFormat(ips, InternalFormat(f.id, 0));
      PlainIsNotBlockLinear(f.id);
      if blockLinear.IsBlockLinear() {
        return Some(blockLinear);
      }
    }
    if Linear in kinds {
      return Some(InternalFormat(f.id, 0));
    }
    return None;
  }

  // ----- compatibility and grade -----

  predicate ComparableComponents(req: FormatInfo, cand: FormatInfo) {
    if req.isYuv && cand.bps == req.bps then
      || cand.TotalComponents() == req.TotalComponents()
      || (req.hasAlpha && cand.TotalComponents() == 3 && cand.isYuv && !cand.hasAlpha)
    else if req.isRgb then
      && cand.TotalComponents() == req.TotalComponents()
      && ((cand.bpp.p0 == req.bpp.p0 && cand.bps == req.bps)
          || ((req.id == RGBX_8888 || req.id == RGB_565) && cand.bpp.p0 == 24))
    else cand.id == req.id
  }

  predicate Compatible(req: FormatInfo, cand: FormatInfo) {
    && cand.hsub == req.hsub && cand.vsub == req.vsub && cand.isRgb == req.isRgb && cand.isYuv == req.isYuv
    && ComparableComponents(req, cand)
  }

  predicate SameOrReordered(x: FormatInfo, y: FormatInfo) {
    && x.npln == y.npln && x.TotalComponents() == y.TotalComponents() && x.bps == y.bps && x.isYuv == y.isYuv
    && x.hsub == y.hsub && x.vsub == y.vsub
  }

  const AFRC_WEIGHT: nat := 0x4000_0000

  function Weight(g: Flag): nat {
    match g
    case BasicAfbc => 2
    case BasicAfrc => AFRC_WEIGHT
    case Usm => 0
    case _ => 1
  }

  /** The weight of those of the first n flags that are in the set. */
  function WeightOf(flags: set<Flag>, n: nat): nat
    requires n <= |ALL_FLAGS|
  {
    if n == 0 then 0
    else WeightOf(flags, n - 1) + if ALL_FLAGS[n - 1] in flags then Weight(ALL_FLAGS[n - 1]) else 0
  }

  /** The part of the grade that does not come from the modifiers; zero rules the candidate out. */
  function BaseGrade(fmt: InternalFormat, req: FormatInfo, base: FormatInfo): nat {
    if fmt.IsAfrc() then (if req.id == fmt.base || SameOrReordered(req, base) then 2 else 1)
    else if req.isRgb && req.bpp.p0 != base.bpp.p0 then 0
    else 1
  }

  function Grade(fmt: InternalFormat, req: FormatInfo, base: FormatInfo): nat {
    if BaseGrade(fmt, req, base) == 0 then 0 else BaseGrade(fmt, req, base) + WeightOf(FlagsOf(fmt), |ALL_FLAGS|)
  }

  method GradeFormat(fmt: InternalFormat, req: FormatInfo, base: FormatInfo) returns (grade: nat)
    ensures grade == Grade(fmt, req, base)
  {
    hide FlagsOf, InternalFormat.IsAfrc, SameOrReordered;
    grade := 1;
    if fmt.IsAfrc() {
      if req.id == fmt.base || SameOrReordered(req, base) {
        grade := grade + 1;
      }
    } else if req.isRgb && req.bpp.p0 != base.bpp.p0 {
      return 0;
    }
    ghost var start := grade;
    for i := 0 to |ALL_FLAGS|
      invariant grade == start + WeightOf(FlagsOf(fmt), i)
    {
      if ALL_FLAGS[i] in FlagsOf(fmt) {
        grade := grade + Weight(ALL_FLAGS[i]);
      }
    }
  }

  // ----- the best format -----

  datatype Candidate = Candidate(fmt: InternalFormat, grade: nat)

  /** What row i of the format table contributes to a request for format `req`. */
  function CandidateAt(ips: Parties, usage: bv64, req: BaseFormat, i: nat): Option<Candidate>
    requires HasInfo(req) && i < ROW_COUNT
  {
    RowsAreUnique(i);
    var f := Info(RowAt(i));
    if !Compatible(Info(req), f) then None
    else
      match SupportedFormat(ips, f, Support(RowAt(i)), usage)
      case None => None
      case Some(fmt) => if Grade(fmt, Info(req), f) == 0 then None else Some(Candidate(fmt, Grade(fmt, Info(req), f)))
  }

  method EvaluateRow(ips: Parties, usage: bv64, req: BaseFormat, i: nat) returns (r: Option<Candidate>)
    requires HasInfo(req) && i < ROW_COUNT
    ensures r == CandidateAt(ips, usage, req, i)
  {
    RowsAreUnique(i);
    hide Info, Support, RowAt, Compatible, SupportedFormat, Grade;
    var f := Info(RowAt(i));
    if !Compatible(Info(req), f) {
      return None;
    }
    var fmt := GetSupportedFormat(ips, f, Support(RowAt(i)), usage);
    if fmt.None? {
      return None;
    }
    var grade := GradeFormat(fmt.value, Info(req), f);
    if grade == 0 {
      return None;
    }
    return Some(Candidate(fmt.value, grade));
  }

  lemma SupportedKeepsBase(ips: Parties, f: FormatInfo, s: IpSupport, usage: bv64)
    ensures SupportedFormat(ips, f, s, usage).Some? ==> SupportedFormat(ips, f, s, usage).value.base == f.id
  {
    hide Kinds, AfbcFlags, AllocTypeOf, IsNoAfbc, BlockLinearUsable, LumaRequest, ChromaRequest,
      InternalFormat.IsAfrc, InternalFormat.IsAfbc, AfrcWith, Parties.Both;
    if ChromaRequest(usage).Some? && LumaRequest(usage).Some? {
      AfrcReadsBack(f.id, ips.Both(AFRC_ROT), LumaRequest(usage).value, ChromaRequest(usage).value);
    }
    if LumaRequest(usage).Some? {
      AfrcReadsBack(f.id, ips.Both(AFRC_ROT), LumaRequest(usage).value, Bytes16);
    }
  }

  /** A candidate has the base format of its row, and only the requested row has the requested base. */
  lemma CandidateBase(ips: Parties, usage: bv64, req: BaseFormat, i: nat)
    requires HasInfo(req) && i < ROW_COUNT && CandidateAt(ips, usage, req, i).Some?
    ensures var c := CandidateAt(ips, usage, req, i).value;
      && c.grade > 0 && c.fmt.base == RowAt(i) && HasInfo(c.fmt.base)
      && (c.fmt.base == req <==> i == RowIndex(req))
  {
    RowsAreUnique(i);
    RowsAreComplete(req);
    TableWellFormed(RowAt(i));
    SupportedKeepsBase(ips, Info(RowAt(i)), Support(RowAt(i)), usage);
    hide Info, Support, RowAt, RowIndex, Compatible, SupportedFormat, Grade, WellFormed, HasInfo;
  }

  /** Row i has a candidate of the highest grade. */
  ghost predicate IsTop(ips: Parties, usage: bv64, req: BaseFormat, i: nat)
    requires HasInfo(req)
  {
    && i < ROW_COUNT && CandidateAt(ips, usage, req, i).Some?
    && forall j: nat :: j < ROW_COUNT && CandidateAt(ips, usage, req, j).Some? ==>
      CandidateAt(ips, usage, req, j).value.grade <= CandidateAt(ips, usage, req, i).value.grade
  }

  /** The first of the top rows. */
  ghost predicate IsFirstTop(ips: Parties, usage: bv64, req: BaseFormat, i: nat)
    requires HasInfo(req)
  {
    IsTop(ips, usage, req, i) && forall j: nat :: j < i ==> !IsTop(ips, usage, req, j)
  }

  predicate CpuInvolved(ips: Parties) {
    CPU in ips.producers || CPU in ips.consumers
  }

  /**
   * The rule of the selection: the requested format when it is at the top or the CPU is involved, else the first
   * top.
   */
  ghost predicate IsBestFormat(ips: Parties, usage: bv64, req: BaseFormat, fmt: InternalFormat)
    requires HasInfo(req) && RowIndex(req) < ROW_COUNT
  {
    var own := CandidateAt(ips, usage, req, RowIndex(req));
    if CpuInvolved(ips) || IsTop(ips, usage, req, RowIndex(req)) then
      fmt == if own.Some? then own.value.fmt else INVALID
    else if forall i: nat :: i < ROW_COUNT ==> CandidateAt(ips, usage, req, i).None? then fmt == INVALID
    else exists i: nat :: IsFirstTop(ips, usage, req, i) && fmt == CandidateAt(ips, usage, req, i).value.fmt
  }

  /** The running maximum over the first i rows and its first holder; zero when there is no candidate yet. */
  ghost predicate BestSoFar(ips: Parties, usage: bv64, req: BaseFormat, i: nat, best: Candidate, first: nat)
    requires HasInfo(req) && i <= ROW_COUNT
  {
    && (forall j: nat :: j < i && CandidateAt(ips, usage, req, j).Some? ==>
          0 < CandidateAt(ips, usage, req, j).value.grade <= best.grade)
    && (best.grade > 0 ==>
          && first < i && CandidateAt(ips, usage, req, first) == Some(best)
          && forall j: nat :: j < first && CandidateAt(ips, usage, req, j).Some? ==>
            CandidateAt(ips, usage, req, j).value.grade < best.grade)
  }

  lemma BestStep(ips: Parties, usage: bv64, req: BaseFormat, i: nat, best: Candidate, first: nat)
    requires HasInfo(req) && i < ROW_COUNT && BestSoFar(ips, usage, req, i, best, first)
    requires CandidateAt(ips, usage, req, i).Some? ==> CandidateAt(ips, usage, req, i).value.grade > 0
    ensures var c := CandidateAt(ips, usage, req, i);
      if c.Some? && c.value.grade > best.grade then BestSoFar(ips, usage, req, i + 1, c.value, i)
      else BestSoFar(ips, usage, req, i + 1, best, first)
  {
    hide CandidateAt;
  }

  /** The requested row's candidate among the first i rows; a zero grade when there is none. */
  ghost predicate OwnSoFar(ips: Parties, usage: bv64, req: BaseFormat, i: nat, own: Candidate)
    requires HasInfo(req) && RowIndex(req) < ROW_COUNT
  {
    if RowIndex(req) < i && CandidateAt(ips, usage, req, RowIndex(req)).Some?
    then CandidateAt(ips, usage, req, RowIndex(req)) == Some(own) && own.grade > 0
    else own.grade == 0
  }

  /** The final choice follows the rule. */
  lemma ChoiceIsBest(ips: Parties, usage: bv64, req: BaseFormat, best: Candidate, first: nat, own: Candidate)
    requires HasInfo(req) && RowIndex(req) < ROW_COUNT
    requires BestSoFar(ips, usage, req, ROW_COUNT, best, first) && OwnSoFar(ips, usage, req, ROW_COUNT, own)
    ensures IsBestFormat(ips, usage, req,
                         if best.grade > 0 && own.grade != best.grade && !CpuInvolved(ips) then best.fmt
                         else if best.grade > 0 && own.grade != 0 then own.fmt
                         else INVALID)
  {
    hide CandidateAt, RowIndex, HasInfo;
    TopRows(ips, usage, req, best, first);
    hide IsTop;
  }

  method GetBestFormat(req: BaseFormat, usage: bv64, ips: Parties) returns (fmt: InternalFormat)
    requires HasInfo(req)
    ensures RowIndex(req) < ROW_COUNT && IsBestFormat(ips, usage, req, fmt)
  {
    RowsAreComplete(req);
    hide CandidateAt, RowIndex, RowAt, HasInfo, BestSoFar, IsBestFormat;
    var supported: nat := 0;
    var own, best := Candidate(INVALID, 0), Candidate(INVALID, 0);
    ghost var first: nat := 0;
    assert BestSoFar(ips, usage, req, 0, best, first) by { NothingYet(ips, usage, req, best); }
    for i := 0 to ROW_COUNT
      invariant supported == 0 <==> best.grade == 0
      invariant BestSoFar(ips, usage, req, i, best, first)
      invariant OwnSoFar(ips, usage, req, i, own)
    {
      var candidate := EvaluateRow(ips, usage, req, i);
      if candidate.Some? {
        CandidateBase(ips, usage, req, i);
      }
      BestStep(ips, usage, req, i, best, first);
      if candidate.Some? {
        supported := supported + 1;
        if candidate.value.grade > best.grade {
          best := candidate.value;
          first := i;
        }
        if candidate.value.fmt.base == req {
          own := candidate.value;
        }
      }
    }
    ChoiceIsBest(ips, usage, req, best, first, own);
    fmt := INVALID;
    if supported > 0 {
      if own.grade != best.grade && !CpuInvolved(ips) {
        fmt := best.fmt;
      } else if own.grade != 0 {
        fmt := own.fmt;
      }
    }
  }

  lemma NothingYet(ips: Parties, usage: bv64, req: BaseFormat, best: Candidate)
    requires HasInfo(req) && best.grade == 0
    ensures BestSoFar(ips, usage, req, 0, best, 0)
  {
  }

  /** The maximum is the top grade, and its first holder is the first top row. */
  lemma TopRows(ips: Parties, usage: bv64, req: BaseFormat, best: Candidate, first: nat)
    requires HasInfo(req) && BestSoFar(ips, usage, req, ROW_COUNT, best, first)
    ensures forall i: nat :: IsTop(ips, usage, req, i) <==>
      i < ROW_COUNT && CandidateAt(ips, usage, req, i).Some? && CandidateAt(ips, usage, req,
          i).value.grade == best.grade
    ensures best.grade > 0 ==> IsFirstTop(ips, usage, req, first) && CandidateAt(ips, usage, req, first) == Some(best)
    ensures best.grade == 0 ==> forall i: nat :: i < ROW_COUNT ==> CandidateAt(ips, usage, req, i).None?
  {
    hide CandidateAt;
    forall i: nat
      ensures IsTop(ips, usage, req, i) <==>
        i < ROW_COUNT && CandidateAt(ips, usage, req, i).Some? && CandidateAt(ips, usage, req,
            i).value.grade == best.grade
    {
      if IsTop(ips, usage, req, i) && best.grade > 0 {
        assert CandidateAt(ips, usage, req, first).value.grade <= CandidateAt(ips, usage, req, i).value.grade;
      }
    }
  }
}
