/** get_alloc_type and validate_format: from a selected format to the layout family it is allocated with. */
module AllocTypes {
  import opened Alignment
  import opened Usages
  import opened Formats
  import opened InternalFormats

  datatype Scheme = Uncompressed | AfbcBasic | AfbcWide | AfbcExtraWide | AfrcScheme | BlockLinear

  datatype AfrcParams = AfrcParams(
    lumaUnit: nat, lumaAlign: nat, chromaUnit: nat, chromaAlign: nat,
    clumpW: Triple, clumpH: Triple, tileW: nat, tileH: nat)

  const NO_AFRC := AfrcParams(0, 0, 0, 0, Triple(0, 0, 0), Triple(0, 0, 0), 0, 0)

  datatype AllocType = AllocType(
    scheme: Scheme, multiPlane: bool, tiled: bool, padded: bool, frontBufferSafe: bool, afrc: AfrcParams)
  {
    predicate IsAfbc() { scheme == AfbcBasic || scheme == AfbcWide || scheme == AfbcExtraWide }
    predicate IsAfrc() { scheme == AfrcScheme }
    predicate IsBlockLinear() { scheme == BlockLinear }
    predicate IsLinear() { scheme == Uncompressed }
  }

  function PlaneAlignment(codingUnit: nat): nat {
    if codingUnit == 16 then 1024
    else if codingUnit == 24 then 512
    else if codingUnit == 32 then 2048
    else 0
  }

  // ----- specification -----

  function AfbcTypeOf(fmt: InternalFormat, f: FormatInfo, usage: bv64): Option<AllocType> {
    var tiled, wide, extra := fmt.Get(AFBC_TILED), fmt.Get(AFBC_WIDE), fmt.Get(AFBC_EXTRA_WIDE);
    if (extra && !tiled) || (f.npln == 1 && wide && extra) then None
    else Some(AllocType(
                if wide then AfbcWide else if extra then AfbcExtraWide else AfbcBasic,
                f.npln > 1 && tiled && extra,
                tiled,
                Has(usage, AFBC_PADDING),
                tiled && fmt.Get(AFBC_DOUBLE_BODY),
                NO_AFRC))
  }

  /** Clump extents by the number of components stored in the plane; zero for unused planes. */
  function Clump(f: FormatInfo, p: nat, single: nat, double: nat): nat
    requires p < 3
  {
    if p >= f.npln then 0
    else if f.ncmp.At(p) == 1 then single
    else if f.ncmp.At(p) == 2 then double
    else 4
  }

  predicate ClumpsDefined(f: FormatInfo) {
    forall p: nat :: p < 3 && p < f.npln ==> 1 <= f.ncmp.At(p) <= 4
  }

  function AfrcTypeOf(fmt: InternalFormat, f: FormatInfo): Option<AllocType> {
    var rotated := fmt.Get(AFRC_ROT_LAYOUT);
    var tileW, tileH := if rotated then 8 else 16, if rotated then 8 else 4;
    var luma, chroma := fmt.LumaSize(), fmt.ChromaSize();
    if luma == InvalidSize || chroma == InvalidSize || !ClumpsDefined(f) then None
    else Some(AllocType(
                AfrcScheme, f.npln > 1, false, false, false,
                AfrcParams(luma.Bytes(), PlaneAlignment(luma.Bytes()), chroma.Bytes(), PlaneAlignment(chroma.Bytes()),
                           Triple(Clump(f, 0, tileW, 8), Clump(f, 1, tileW, 8), Clump(f, 2, tileW, 8)),
                           Triple(Clump(f, 0, tileH, 4), Clump(f, 1, tileH, 4), Clump(f, 2, tileH, 4)),
                           tileW, tileH)))
  }

  function AllocTypeOf(fmt: InternalFormat, usage: bv64): Option<AllocType> {
    if !HasInfo(fmt.base) then None
    else
      var f := Info(fmt.base);
      if fmt.IsAfbc() then AfbcTypeOf(fmt, f, usage)
      else if fmt.IsAfrc() then AfrcTypeOf(fmt, f)
      else Some(AllocType(if fmt.IsBlockLinear() then BlockLinear else Uncompressed,
                          f.npln > 1, false, false, false, NO_AFRC))
  }

  predicate ValidFormat(f: FormatInfo, at: AllocType, height: nat) {
    && (at.IsAfbc() ==> f.afbc && (at.multiPlane <==> f.npln > 1))
    && (at.IsAfrc() ==> f.afrc)
    && (at.IsBlockLinear() ==> f.blockLinear)
    && (at.IsLinear() ==> f.linear)
    && (f.id == BLOB ==> height == 1)
  }

  // ----- the source's procedures -----

  /** Fills the clump extents plane by plane; a plane without a defined clump rejects the format. */
  method AfrcClumps(f: FormatInfo, start: AfrcParams) returns (r: Option<AfrcParams>)
    requires f.npln <= 3
    requires start.clumpW == start.clumpH == Triple(0, 0, 0)
    ensures r.Some? <==> ClumpsDefined(f)
    ensures r.Some? ==> r.value == start.(
        clumpW := Triple(Clump(f, 0, start.tileW, 8), Clump(f, 1, start.tileW, 8), Clump(f, 2, start.tileW, 8)),
        clumpH := Triple(Clump(f, 0, start.tileH, 4), Clump(f, 1, start.tileH, 4), Clump(f, 2, start.tileH, 4)))
  {
    var params := start;
    for p := 0 to f.npln
      invariant params == start.(clumpW := params.clumpW, clumpH := params.clumpH)
      invariant forall k: nat :: k < p ==> 1 <= f.ncmp.At(k) <= 4
      invariant forall k: nat :: k < 3 ==>
        params.clumpW.At(k) == (if k < p then Clump(f, k, start.tileW, 8) else 0)
      invariant forall k: nat :: k < 3 ==>
        params.clumpH.At(k) == (if k < p then Clump(f, k, start.tileH, 4) else 0)
    {
      match f.ncmp.At(p)
      case 1 => params := params.(clumpW := params.clumpW.With(p, params.tileW),
                                  clumpH := params.clumpH.With(p, params.tileH));
      case 2 => params := params.(clumpW := params.clumpW.With(p, 8), clumpH := params.clumpH.With(p, 4));
      case 3 => params := params.(clumpW := params.clumpW.With(p, 4), clumpH := params.clumpH.With(p, 4));
      case 4 => params := params.(clumpW := params.clumpW.With(p, 4), clumpH := params.clumpH.With(p, 4));
      case _ => return None;
    }
    assert params.clumpW == Triple(params.clumpW.At(0), params.clumpW.At(1), params.clumpW.At(2));
    assert params.clumpH == Triple(params.clumpH.At(0), params.clumpH.At(1), params.clumpH.At(2));
    return Some(params);
  }

  /** The AFBC branch of get_alloc_type. */
  method AfbcAllocType(fmt: InternalFormat, f: FormatInfo, usage: bv64) returns (r: Option<AllocType>)
    ensures r == AfbcTypeOf(fmt, f, usage)
  {
    hide InternalFormat.Get, Has;
    var at := AllocType(AfbcBasic, f.npln > 1, false, false, false, NO_AFRC);
    if fmt.Get(AFBC_WIDE) {
      at := at.(scheme := AfbcWide);
    } else if fmt.Get(AFBC_EXTRA_WIDE) {
      at := at.(scheme := AfbcExtraWide);
    }
    if fmt.Get(AFBC_TILED) {
      at := at.(tiled := true);
      if f.npln > 1 && !fmt.Get(AFBC_EXTRA_WIDE) {
        at := at.(multiPlane := false);
      }
      if fmt.Get(AFBC_DOUBLE_BODY) {
        at := at.(frontBufferSafe := true);
      }
    } else {
      at := at.(multiPlane := false);
    }
    if fmt.Get(AFBC_EXTRA_WIDE) && !at.tiled {
      return None;
    }
    if f.npln == 1 && fmt.Get(AFBC_WIDE) && fmt.Get(AFBC_EXTRA_WIDE) {
      return None;
    }
    if Has(usage, AFBC_PADDING) {
      at := at.(padded := true);
    }
    return Some(at);
  }

  /** The AFRC branch of get_alloc_type. */
  method AfrcAllocType(fmt: InternalFormat, f: FormatInfo) returns (r: Option<AllocType>)
    requires f.npln <= 3
    ensures r == AfrcTypeOf(fmt, f)
  {
    hide InternalFormat.Get, InternalFormat.LumaSize, InternalFormat.ChromaSize, ClumpsDefined, Clump;
    var params := NO_AFRC;
    if fmt.Get(AFRC_ROT_LAYOUT) {
      params := params.(tileW := 8, tileH := 8);
    } else {
      params := params.(tileW := 16, tileH := 4);
    }
    params := params.(lumaUnit := fmt.LumaSize().Bytes());
    params := params.(lumaAlign := PlaneAlignment(params.lumaUnit));
    if params.lumaAlign == 0 {
      return None;
    }
    params := params.(chromaUnit := fmt.ChromaSize().Bytes());
    params := params.(chromaAlign := PlaneAlignment(params.chromaUnit));
    if params.chromaAlign == 0 {
      return None;
    }
    var clumped := AfrcClumps(f, params);
    if clumped.None? {
      return None;
    }
    return Some(AllocType(AfrcScheme, f.npln > 1, false, false, false, clumped.value));
  }

  method GetAllocType(fmt: InternalFormat, usage: bv64) returns (r: Option<AllocType>)
    ensures r == AllocTypeOf(fmt, usage)
  {
    hide Info, LinearRow, AfbcRow, AfrcRow, BlockLinearRow, NamedRows, Divides, AfbcTypeOf, AfrcTypeOf,
      InternalFormat.IsAfbc, InternalFormat.IsAfrc, InternalFormat.IsBlockLinear;
    var info := GetFormatInfo(fmt.base);
    if info.None? {
      return None;
    }
    var f := info.value;
    if fmt.IsAfbc() {
      r := AfbcAllocType(fmt, f, usage);
    } else if fmt.IsAfrc() {
      r := AfrcAllocType(fmt, f);
    } else {
      var at := AllocType(Uncompressed, f.npln > 1, false, false, false, NO_AFRC);
      if fmt.IsBlockLinear() {
        at := at.(scheme := BlockLinear);
      }
      r := Some(at);
    }
  }

  // ----- what an accepted allocation type guarantees -----

  /** The shape of every allocation type that get_alloc_type produces and validate_format accepts. */
  ghost predicate Fits(at: AllocType, f: FormatInfo) {
    && (at.IsAfbc() ==>
          && f.afbc && (at.multiPlane <==> f.npln > 1)
          && (at.multiPlane ==> at.tiled)
          && (at.scheme == AfbcExtraWide ==> at.tiled)
          && (at.frontBufferSafe ==> at.tiled))
    && (at.IsAfrc() ==> f.afrc && AfrcFits(at.afrc, f))
    && (at.IsBlockLinear() ==> f.blockLinear)
    && (at.IsLinear() ==> f.linear)
    && (!at.IsAfbc() ==> !at.tiled && !at.frontBufferSafe && !at.padded)
  }

  ghost predicate AfrcFits(a: AfrcParams, f: FormatInfo) {
    && UnitFits(a.lumaUnit, a.lumaAlign) && UnitFits(a.chromaUnit, a.chromaAlign)
    && ((a.tileW == 8 && a.tileH == 8) || (a.tileW == 16 && a.tileH == 4))
    && forall p: nat :: p < 3 && p < f.npln ==> ClumpFits(a, a.clumpW.At(p), a.clumpH.At(p))
  }

  ghost predicate UnitFits(unit: nat, alignment: nat) {
    (unit == 16 && alignment == 1024) || (unit == 24 && alignment == 512) || (unit == 32 && alignment == 2048)
  }

  ghost predicate ClumpFits(a: AfrcParams, w: nat, h: nat) {
    (w == a.tileW && h == a.tileH) || (w == 8 && h == 4) || (w == 4 && h == 4)
  }

  lemma AcceptedTypesFit(fmt: InternalFormat, usage: bv64, height: nat)
    requires AllocTypeOf(fmt, usage).Some?
    requires ValidFormat(Info(fmt.base), AllocTypeOf(fmt, usage).value, height)
    ensures Fits(AllocTypeOf(fmt, usage).value, Info(fmt.base))
    ensures WellFormed(Info(fmt.base)) && Info(fmt.base).id == fmt.base
  {
    hide Info, WellFormed;
    TableWellFormed(fmt.base);
  }
}
