/** The Arm selector's support tables, and the AFRC format of a base format. */
module Selection {
  import opened Usages
  import opened Formats
  import opened InternalFormats
  import opened Ips
  import opened Capabilities
  import opened AfbcSelection

  // ----- support of a base format -----

  const ALL_KINDS: set<Kind> := {Linear, Afbc, Afrc, BlockLinearYuv}

  predicate Takes(k: Kind, involved: bool, column: set<Kind>) {
    involved ==> k in column
  }

  /** Every producer and consumer handles this kind. */
  predicate TableAllows(s: IpSupport, producers: IpSet, consumers: IpSet, k: Kind) {
    && Takes(k, CPU in producers, s.cpuWr) && Takes(k, GPU in producers, s.gpuWr)
    && Takes(k, DPU in producers, s.dpuWr) && Takes(k, DPU_AEU in producers, s.dpuAeuWr)
    && Takes(k, CAM in producers, s.camWr) && Takes(k, VPU in producers, s.vpuWr)
    && Takes(k, CPU in consumers, s.cpuRd) && Takes(k, GPU in consumers, s.gpuRd)
    && Takes(k, DPU in consumers, s.dpuRd) && Takes(k, VPU in consumers, s.vpuRd)
  }

  /** ip_supports_base_format: the intersection of the columns of the IPs involved. */
  method IpSupportsBaseFormat(s: IpSupport, producers: IpSet, consumers: IpSet) returns (kinds: set<Kind>)
    ensures forall k: Kind :: k in kinds <==> TableAllows(s, producers, consumers, k)
  {
    kinds := ALL_KINDS;
    assert forall k: Kind :: k in kinds by { EveryKind(); }
    if CPU in producers { kinds := kinds * s.cpuWr; }
    if GPU in producers { kinds := kinds * s.gpuWr; }
    if DPU in producers { kinds := kinds * s.dpuWr; }
    if DPU_AEU in producers { kinds := kinds * s.dpuAeuWr; }
    if CAM in producers { kinds := kinds * s.camWr; }
    if VPU in producers { kinds := kinds * s.vpuWr; }
    if CPU in consumers { kinds := kinds * s.cpuRd; }
    if GPU in consumers { kinds := kinds * s.gpuRd; }
    if DPU in consumers { kinds := kinds * s.dpuRd; }
    if VPU in consumers { kinds := kinds * s.vpuRd; }
  }

  lemma EveryKind()
    ensures forall k: Kind :: k in ALL_KINDS
  {
    forall k: Kind
      ensures k in ALL_KINDS
    {
      match k { case Linear => case Afbc => case Afrc => case BlockLinearYuv => }
    }
  }

  /** The table is a homomorphism too. */
  lemma TableOfUnion(s: IpSupport, p1: IpSet, c1: IpSet, p2: IpSet, c2: IpSet, k: Kind)
    ensures TableAllows(s, p1 + p2, c1 + c2, k) <==> TableAllows(s, p1, c1, k) && TableAllows(s, p2, c2, k)
  {
  }

  // ----- is_format_supported -----

  /** Multi-plane AFBC additionally needs an empty producer set, which the selector never passes. */
  predicate MultiPlaneAfbc(ips: Parties) {
    && ips.Both(AFBC_16X16) && ips.Both(AFBC_TILED_HEADERS) && ips.Both(AFBC_64X4) && ips.producers == {}
  }

  /** What the capabilities of the IPs say about one kind of layout. */
  predicate CapsAllow(ips: Parties, f: FormatInfo, frontBuffer: bool, k: Kind) {
    match k
    case Linear => true
    case Afbc =>
      && f.afbc && ips.Both(AFBC_16X16)
      && (f.npln > 1 ==> MultiPlaneAfbc(ips))
      && (f.isYuv ==> ips.Both(AFBC_YUV))
      && (frontBuffer ==> ips.Both(AFBC_DOUBLE_BODY))
    case Afrc => f.afrc && (ips.Both(AFRC_ROT) || ips.Both(AFRC_SCAN))
    case BlockLinearYuv =>
      f.blockLinear && f.isYuv && (f.bps == 8 ==> ips.Both(YUV_BL_8)) && (f.bps == 10 ==> ips.Both(YUV_BL_10))
  }

  /** A kind passes the tables, the usage and the capabilities. */
  predicate Passes(ips: Parties, f: FormatInfo, s: IpSupport, usage: bv64, k: Kind) {
    && TableAllows(s, ips.producers, ips.consumers, k)
    && (Has(usage, GPU_DATA_BUFFER) ==> k == Linear)
    && CapsAllow(ips, f, IsFrontBuffer(usage), k)
  }

  /** Two RGB formats need a feature of their own; without AFBC for it, half-float falls back to linear. */
  function Restricted(ips: Parties, id: BaseFormat, kinds: set<Kind>): set<Kind> {
    if kinds == {} then {}
    else if id == RGBA_1010102 && !ips.Both(R10G10B10A2) then {}
    else if id == RGBA_16161616 && !ips.Both(R16G16B16A16_FLOAT) then {}
    else if id == RGBA_16161616 && !ips.Both(AFBC_R16G16B16A16_FLOAT) then {Linear}
    else kinds
  }

  function Passing(ips: Parties, f: FormatInfo, s: IpSupport, usage: bv64): set<Kind> {
    set k: Kind | Passes(ips, f, s, usage, k)
  }

  function SupportedKinds(ips: Parties, f: FormatInfo, s: IpSupport, usage: bv64): set<Kind> {
    Restricted(ips, f.id, Passing(ips, f, s, usage))
  }

  /** The AFBC part of is_format_supported. */
  method CheckAfbc(ips: Parties, f: FormatInfo, usage: bv64, given: set<Kind>) returns (kinds: set<Kind>)
    ensures kinds == if CapsAllow(ips, f, IsFrontBuffer(usage), Afbc) then given else given - F_AFBC
  {
    hide Parties.Both, IsFrontBuffer, MultiPlaneAfbc;
    kinds := given;
    if Afbc in kinds {
      if !f.afbc || !ips.Both(AFBC_16X16) {
        kinds := kinds - F_AFBC;
      }
      if f.npln > 1 && !MultiPlaneAfbc(ips) {
        kinds := kinds - F_AFBC;
      }
      if f.isYuv && !ips.Both(AFBC_YUV) {
        kinds := kinds - F_AFBC;
      }
      if IsFrontBuffer(usage) {
        if !ips.Both(AFBC_DOUBLE_BODY) {
          kinds := kinds - F_AFBC;
        }
      }
    }
  }

  method IsFormatSupported(ips: Parties, f: FormatInfo, s: IpSupport, usage: bv64) returns (kinds: set<Kind>)
    ensures kinds == SupportedKinds(ips, f, s, usage)
  {
    hide Parties.Both, TableAllows, IsFrontBuffer, MultiPlaneAfbc, Has, Restricted;
    kinds := IpSupportsBaseFormat(s, ips.producers, ips.consumers);
    if Has(usage, GPU_DATA_BUFFER) {
      kinds := kinds * F_LIN;
    }
    kinds := CheckAfbc(ips, f, usage, kinds);
    if Afrc in kinds {
      if !f.afrc || (!ips.Both(AFRC_ROT) && !ips.Both(AFRC_SCAN)) {
        kinds := kinds - F_AFRC;
      }
    }
    if BlockLinearYuv in kinds {
      if !(f.blockLinear && f.isYuv) {
        kinds := kinds - F_BL_YUV;
      } else if f.bps == 8 && !ips.Both(YUV_BL_8) {
        kinds := kinds - F_BL_YUV;
      } else if f.bps == 10 && !ips.Both(YUV_BL_10) {
        kinds := kinds - F_BL_YUV;
      }
    }
    assert kinds == Passing(ips, f, s, usage) by {
      forall k: Kind
        ensures k in kinds <==> Passes(ips, f, s, usage, k)
      {
        match k { case Linear => case Afbc => case Afrc => case BlockLinearYuv => }
      }
    }
    kinds := RestrictFormats(ips, f.id, kinds);
  }

  method RestrictFormats(ips: Parties, id: BaseFormat, given: set<Kind>) returns (kinds: set<Kind>)
    ensures kinds == Restricted(ips, id, given)
  {
    hide Parties.Both;
    kinds := given;
    if kinds != F_NONE {
      if id == RGBA_1010102 && !ips.Both(R10G10B10A2) {
        kinds := F_NONE;
      } else if id == RGBA_16161616 {
        if !ips.Both(R16G16B16A16_FLOAT) {
          kinds := F_NONE;
        } else if !ips.Both(AFBC_R16G16B16A16_FLOAT) {
          kinds := F_LIN;
        }
      }
    }
  }

  /** The formats the CPU can use: those with an uncompressed layout, but for the ten-bit ones packed across bytes. */
  predicate CpuServes(id: BaseFormat)
    requires HasInfo(id)
  {
    Info(id).linear && id != NV15 && id != NV30
  }

  /** The CPU alone gets exactly those, uncompressed, the two deep-colour formats included. */
  lemma CpuIsServed(caps: Caps, id: BaseFormat, usage: bv64)
    requires HasInfo(id)
    ensures SupportedKinds(Parties(caps, {CPU}, {CPU}), Info(id), Support(id), usage)
         == if CpuServes(id) then {Linear} else {}
  {
    hide Info, Support, Passes, Supports, CpuServes;
    var ips := Parties(caps, {CPU}, {CPU});
    CpuFeatures(caps);
    RowId(id);
    forall k: Kind
      ensures Passes(ips, Info(id), Support(id), usage, k) <==> k == Linear && CpuServes(id)
    {
      CpuPasses(caps, id, usage, k);
    }
    assert Passing(ips, Info(id), Support(id), usage) == if CpuServes(id) then {Linear} else {};
  }

  lemma CpuPasses(caps: Caps, id: BaseFormat, usage: bv64, k: Kind)
    requires HasInfo(id)
    ensures Passes(Parties(caps, {CPU}, {CPU}), Info(id), Support(id), usage, k) <==> k == Linear && CpuServes(id)
  {
    hide Info, Support, Supports, IsFrontBuffer, Has, MultiPlaneAfbc, CpuServes;
    CpuColumnsAre(id);
    CpuTable(Support(id), k);
    hide TableAllows;
  }

  lemma CpuTable(s: IpSupport, k: Kind)
    ensures TableAllows(s, {CPU}, {CPU}, k) <==> k in s.cpuWr && k in s.cpuRd
  {
  }

  const CPU_REFUSES: set<BaseFormat> := {YUV420_8BIT_I, YUV420_10BIT_I, YUV444, Q410, Q401, NV15, NV30}

  lemma CpuColumnsAre(id: BaseFormat)
    requires HasInfo(id)
    ensures Support(id).cpuWr == Support(id).cpuRd == if CpuServes(id) then F_LIN else F_NONE
  {
    hide Info, Support, CpuServes;
    CpuListIs(id);
    CpuColumns(id);
  }

  lemma CpuColumns(id: BaseFormat)
    requires HasInfo(id)
    ensures Support(id).cpuWr == Support(id).cpuRd == if id in CPU_REFUSES then F_NONE else F_LIN
  {
    match id {
      case RGB_565 => case RGB_888 => case BGR_888 => case RGBA_8888 => case BGRA_8888 => case RGBX_8888 =>
      case RGBA_1010102 => case RGBA_16161616 => case RGBA_10101010 => case Y8 => case Y16 =>
      case YUV420_8BIT_I => case NV12 => case NV21 => case YV12 => case YU12 => case YUV422_8BIT =>
      case NV16 => case NV24 => case YUV444 => case NV30 => case Q410 => case Q401 => case YUV420_10BIT_I =>
      case Y0L2 => case P010 => case NV15 => case Y210 => case P210 => case Y410 => case RAW16 => case RAW12 =>
      case RAW10 => case BLOB => case DEPTH_16 => case DEPTH_24 => case DEPTH_24_STENCIL_8 => case DEPTH_32F =>
      case DEPTH_32F_STENCIL_8 => case STENCIL_8 => case R8 =>
    }
  }

  lemma CpuListIs(id: BaseFormat)
    requires HasInfo(id)
    ensures CpuServes(id) <==> id !in CPU_REFUSES
  {
    if id in CPU_REFUSES {
      match id {
        case YUV420_8BIT_I => case YUV420_10BIT_I => case YUV444 => case Q410 => case Q401 => case NV15 => case NV30 =>
      }
    } else {
      LinearList(id);
    }
  }

  lemma LinearList(id: BaseFormat)
    requires HasInfo(id) && id !in CPU_REFUSES
    ensures Info(id).linear
  {
    match id {
      case RGB_565 => case RGB_888 => case BGR_888 => case RGBA_8888 => case BGRA_8888 => case RGBX_8888 =>
      case RGBA_1010102 => case RGBA_16161616 => case RGBA_10101010 => case Y8 => case Y16 =>
      case NV12 => case NV21 => case YV12 => case YU12 => case YUV422_8BIT => case NV16 => case NV24 =>
      case Y0L2 => case P010 => case Y210 => case P210 => case Y410 => case RAW16 => case RAW12 => case RAW10 =>
      case BLOB => case DEPTH_16 => case DEPTH_24 => case DEPTH_24_STENCIL_8 => case DEPTH_32F =>
      case DEPTH_32F_STENCIL_8 => case STENCIL_8 => case R8 =>
    }
  }

  lemma CpuFeatures(caps: Caps)
    ensures Supports(caps, {CPU}, {CPU}, R10G10B10A2) && Supports(caps, {CPU}, {CPU}, R16G16B16A16_FLOAT)
    ensures !Supports(caps, {CPU}, {CPU}, AFBC_R16G16B16A16_FLOAT)
  {
  }

  // ----- adding an IP -----

  /** The support row of the half-float format: whatever an IP handles, it also handles linear. */
  lemma HalfFloatRow(p: IpSet, c: IpSet, k: Kind)
    ensures TableAllows(Support(RGBA_16161616), p, c, k) ==> TableAllows(Support(RGBA_16161616), p, c, Linear)
  {
  }

  lemma PassingShrinks(caps: Caps, p: IpSet, c: IpSet, p': IpSet, c': IpSet, f: FormatInfo, s: IpSupport,
      usage: bv64, k: Kind)
    requires p <= p' && c <= c'
    ensures Passes(Parties(caps, p', c'), f, s, usage, k) ==> Passes(Parties(caps, p, c), f, s, usage, k)
  {
    hide Supports, IsFrontBuffer, Has;
    assert p + p' == p' && c + c' == c';
    TableOfUnion(s, p, c, p', c', k);
    forall feature: Feature
      ensures Supports(caps, p', c', feature) ==> Supports(caps, p, c, feature)
    {
      SupportShrinks(caps, p, c, p', c', feature);
    }
    hide TableAllows;
  }

  /** Adding producers or consumers never adds a kind of layout, for any table row. */
  lemma MoreIpsSupportLess(caps: Caps, p: IpSet, c: IpSet, p': IpSet, c': IpSet, id: BaseFormat, usage: bv64)
    requires HasInfo(id) && p <= p' && c <= c'
    ensures SupportedKinds(Parties(caps, p', c'), Info(id), Support(id), usage)
         <= SupportedKinds(Parties(caps, p, c), Info(id), Support(id), usage)
  {
    var few, many := Parties(caps, p, c), Parties(caps, p', c');
    RowId(id);
    forall k: Kind
      ensures Passes(many, Info(id), Support(id), usage, k) ==> Passes(few, Info(id), Support(id), usage, k)
    {
      PassingShrinks(caps, p, c, p', c', Info(id), Support(id), usage, k);
    }
    SupportShrinks(caps, p, c, p', c', R10G10B10A2);
    SupportShrinks(caps, p, c, p', c', R16G16B16A16_FLOAT);
    SupportShrinks(caps, p, c, p', c', AFBC_R16G16B16A16_FLOAT);
    if id == RGBA_16161616 {
      HalfFloatPasses(many, usage);
      HalfFloatPasses(few, usage);
    }
    hide Info, Support, Passes, Supports;
    RestrictedShrinks(few, many, id, Passing(few, Info(id), Support(id), usage), Passing(many, Info(id),
        Support(id), usage));
  }

  lemma RowId(id: BaseFormat)
    requires HasInfo(id)
    ensures Info(id).id == id
  {
    RowShape(id);
  }

  lemma HalfFloatPasses(ips: Parties, usage: bv64)
    ensures var kinds := Passing(ips, Info(RGBA_16161616), Support(RGBA_16161616),
        usage); kinds != {} ==> Linear in kinds
  {
    var kinds := Passing(ips, Info(RGBA_16161616), Support(RGBA_16161616), usage);
    if k :| k in kinds {
      HalfFloatRow(ips.producers, ips.consumers, k);
      hide Info, Support, Supports, Has, IsFrontBuffer;
      assert Passes(ips, Info(RGBA_16161616), Support(RGBA_16161616), usage, Linear);
    }
  }

  lemma RestrictedShrinks(few: Parties, many: Parties, id: BaseFormat, more: set<Kind>, less: set<Kind>)
    requires less <= more
    requires many.Both(R10G10B10A2) ==> few.Both(R10G10B10A2)
    requires many.Both(R16G16B16A16_FLOAT) ==> few.Both(R16G16B16A16_FLOAT)
    requires many.Both(AFBC_R16G16B16A16_FLOAT) ==> few.Both(AFBC_R16G16B16A16_FLOAT)
    requires id == RGBA_16161616 ==> (more != {} ==> Linear in more) && (less != {} ==> Linear in less)
    ensures Restricted(many, id, less) <= Restricted(few, id, more)
  {
    hide Supports;
  }

  // ----- get_afrc_format and get_bl_format -----

  function LumaRequest(usage: bv64): Option<CodingSize> {
    var flags := usage & AFRC_LUMA_MASK;
    if flags == AFRC_LUMA_16 then Some(Bytes16)
    else if flags == AFRC_LUMA_24 then Some(Bytes24)
    else if flags == AFRC_LUMA_32 then Some(Bytes32)
    else None
  }

  function ChromaRequest(usage: bv64): Option<CodingSize> {
    var flags := usage & AFRC_CHROMA_MASK;
    if flags == 0 then None
    else if flags == AFRC_CHROMA_16 then Some(Bytes16)
    else if flags == AFRC_CHROMA_24 then Some(Bytes24)
    else Some(Bytes32)
  }

  function AfrcWith(id: BaseFormat, rotated: bool, luma: CodingSize, chroma: CodingSize): InternalFormat {
    InternalFormat(id, if rotated then AFRC_BASIC |
        AFRC_ROT_LAYOUT else AFRC_BASIC).SetLumaSize(luma).SetChromaSize(chroma)
  }

  /** AFRC needs a layout the IPs support, a luma size, and a chroma size exactly for YUV. */
  function AfrcFormat(ips: Parties, f: FormatInfo, usage: bv64): InternalFormat {
    var luma, chroma := LumaRequest(usage), ChromaRequest(usage);
    if (!ips.Both(AFRC_ROT) && !ips.Both(AFRC_SCAN)) || luma.None? || f.isYuv != chroma.Some?
    then InternalFormat(f.id, 0)
    else AfrcWith(f.id, ips.Both(AFRC_ROT), luma.value, if f.isYuv then chroma.value else Bytes16)
  }

  method GetAfrcFormat(ips: Parties, f: FormatInfo, usage: bv64) returns (fmt: InternalFormat)
    ensures fmt == AfrcFormat(ips, f, usage)
  {
    hide Parties.Both, LumaRequest, ChromaRequest, InternalFormat.SetLumaSize, InternalFormat.SetChromaSize;
    var base := InternalFormat(f.id, 0);
    fmt := base;
    if ips.Both(AFRC_ROT) {
      fmt := InternalFormat(f.id, AFRC_BASIC | AFRC_ROT_LAYOUT);
    } else if ips.Both(AFRC_SCAN) {
      fmt := InternalFormat(f.id, AFRC_BASIC);
    } else {
      return base;
    }
    match LumaRequest(usage) {
      case Some(size) =>
        NoChromaField(fmt, size);
        fmt := fmt.SetLumaSize(size);
      case None => return base;
    }
    if f.isYuv {
      match ChromaRequest(usage) {
        case Some(size) => fmt := fmt.SetChromaSize(size);
        case None => return base;
      }
    } else if ChromaRequest(usage).Some? {
      return base;
    }
  }

  lemma NoChromaField(layout: InternalFormat, luma: CodingSize)
    requires layout.mods == AFRC_BASIC || layout.mods == AFRC_BASIC | AFRC_ROT_LAYOUT
    ensures layout.SetLumaSize(luma).SetChromaSize(Bytes16) == layout.SetLumaSize(luma)
  {
    match luma {
      case Bytes16 =>
      case Bytes24 =>
      case Bytes32 =>
      case InvalidSize =>
    }
  }

  /** An AFRC format reads back as what it was built from. */
  lemma AfrcReadsBack(id: BaseFormat, rotated: bool, luma: CodingSize, chroma: CodingSize)
    ensures var fmt := AfrcWith(id, rotated, luma, chroma);
      && fmt.base == id && fmt.IsAfrc() && !fmt.IsAfbc() && !fmt.IsBlockLinear()
      && fmt.Get(AFRC_ROT_LAYOUT) == rotated && fmt.LumaSize() == luma && fmt.ChromaSize() == chroma
  {
    AfrcFields(id, rotated, luma, chroma);
    AfrcClass(id, rotated, luma, chroma);
  }

  lemma AfrcFields(id: BaseFormat, rotated: bool, luma: CodingSize, chroma: CodingSize)
    ensures var fmt := AfrcWith(id, rotated, luma, chroma); fmt.LumaSize() == luma && fmt.ChromaSize() == chroma
  {
    var layout := InternalFormat(id, if rotated then AFRC_BASIC | AFRC_ROT_LAYOUT else AFRC_BASIC);
    hide InternalFormat.SetLumaSize, InternalFormat.SetChromaSize, InternalFormat.LumaSize, InternalFormat.ChromaSize;
    LumaSizeField(layout, luma);
    ChromaSizeField(layout.SetLumaSize(luma), chroma);
  }

  lemma AfrcClass(id: BaseFormat, rotated: bool, luma: CodingSize, chroma: CodingSize)
    ensures var fmt := AfrcWith(id, rotated, luma, chroma);
      && fmt.base == id && fmt.IsAfrc() && !fmt.IsAfbc() && !fmt.IsBlockLinear() && fmt.Get(AFRC_ROT_LAYOUT) == rotated
  {
    var layout := InternalFormat(id, if rotated then AFRC_BASIC | AFRC_ROT_LAYOUT else AFRC_BASIC);
    var fmt := layout.SetLumaSize(luma).SetChromaSize(chroma);
    LumaSizeIsLocal(layout, luma);
    ChromaSizeIsLocal(layout.SetLumaSize(luma), chroma);
    OutsideTheFields(layout.mods, layout.SetLumaSize(luma).mods, fmt.mods);
    hide InternalFormat.SetLumaSize, InternalFormat.SetChromaSize;
    assert fmt == AfrcWith(id, rotated, luma, chroma);
  }

  lemma OutsideTheFields(a: bv32, b: bv32, c: bv32)
    requires b & !AFRC_LUMA_FIELD == a & !AFRC_LUMA_FIELD && c & !AFRC_CHROMA_FIELD == b & !AFRC_CHROMA_FIELD
    ensures c & AFRC_BASIC == a & AFRC_BASIC && c & AFBC_BASIC == a & AFBC_BASIC
    ensures c & BLOCK_LINEAR_BASIC == a & BLOCK_LINEAR_BASIC && c & AFRC_ROT_LAYOUT == a & AFRC_ROT_LAYOUT
  {
  }
}
