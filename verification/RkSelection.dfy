/** rk_gralloc_select_format: the Rockchip selector, which replaces the Arm one in the Rockchip build. */
module RkSelection {
  import opened Usages
  import opened Formats
  import opened InternalFormats
  import opened AllocTypes
  import opened Layout
  import opened Derive
  import opened AfbcLayout
  import opened FbSize
  import opened LinearLayout

  datatype Platform = RK3326 | RK356X | RK3588

  /** The Android properties the selector reads; `small` stands for not_to_use_non_afbc_for_small_buffers. */
  datatype Properties = Properties(platform: Platform, noAfbcForFbTarget: bool, noAfbcForClient: bool, small: bool)

  /** RK3588 with no property set. */
  const STOCK := Properties(RK3588, false, false, false)

  /**
   * The requested format: the HAL formats the selector maps itself, any other one with the internal format that
   * get_internal_format maps it to, or a word it knows no format for, which is kept as it is: its low nine bits are
   * the base, the others are modifiers. That is how private formats, which carry the sentinel bit, force a layout; any
   * other word with high bits does the same. As it has no row it equals none of the formats the selector compares with.
   */
  datatype HalFormat =
    | YCrCb_NV12 | YCbCr_422_SP | YCrCb_NV12_10 | YCBCR_444_888 | HAL_NV30 | IMPLEMENTATION_DEFINED | YCbCr_420_888
    | HAL_YUV420_8BIT_I | HAL_YUV420_10BIT_I | YCbCr_422_I | HAL_Y210 | YCRCB_420_SP | Other(mapped: BaseFormat)
    | Unmapped(base: BaseFormat, mods: bv32)

  function RkBase(req: HalFormat, usage: bv64): BaseFormat {
    match req
    case YCrCb_NV12 => NV12
    case YCbCr_422_SP => NV16
    case YCrCb_NV12_10 => NV15
    case YCBCR_444_888 => NV24
    case HAL_NV30 => NV30
    case IMPLEMENTATION_DEFINED =>
      if Has(usage, HW_VIDEO_ENCODER) || Has(usage, HW_CAMERA_WRITE) then NV12 else RGBX_8888
    case YCbCr_420_888 => NV12
    case HAL_YUV420_8BIT_I => YUV420_8BIT_I
    case HAL_YUV420_10BIT_I => YUV420_10BIT_I
    case YCbCr_422_I => YUV422_8BIT
    case HAL_Y210 => Y210
    case YCRCB_420_SP => NV21
    case Other(mapped) => mapped
    case Unmapped(base, _) => base
  }

  /** The format before any AFBC decision: the base, with the modifiers of an unmapped request. */
  function RkOwn(req: HalFormat, usage: bv64): InternalFormat {
    InternalFormat(RkBase(req, usage), if req.Unmapped? then req.mods else 0)
  }

  predicate IsOneOf(req: HalFormat, usage: bv64, formats: set<BaseFormat>) {
    !req.Unmapped? && RkBase(req, usage) in formats
  }

  /** Usage that rules AFBC out in either branch. */
  predicate PlainUsage(usage: bv64) {
    || Has(usage, HW_VIDEO_ENCODER) || Has(usage, NO_AFBC) || HasCpu(usage)
    || Has(usage, HW_CAMERA_WRITE) || Has(usage, HW_CAMERA_READ)
  }

  const FB_TARGET_LINEAR: set<BaseFormat> := {NV12, P010, RGBA_16161616, NV16}
  const CLIENT_LINEAR: set<BaseFormat> := {NV12, NV30, NV24, NV15, P010, RGBA_16161616, NV16, BGR_888, DEPTH_32F}

  predicate FbTargetUsesAfbc(req: HalFormat, usage: bv64, props: Properties) {
    !props.noAfbcForFbTarget && !PlainUsage(usage) && !IsOneOf(req, usage, FB_TARGET_LINEAR)
  }

  /** Small RGBA_8888 client buffers stay linear; `fbSize / 4` is an integer division. */
  predicate BigEnough(req: HalFormat, usage: bv64, bufferSize: nat, fbSize: nat, props: Properties) {
    !IsOneOf(req, usage, {RGBA_8888}) || props.small || bufferSize >= fbSize / 4
  }

  predicate ClientUsesAfbc(req: HalFormat, usage: bv64, bufferSize: nat, fbSize: nat, props: Properties) {
    && !PlainUsage(usage) && !props.noAfbcForClient && props.platform != RK3326
    && !IsOneOf(req, usage, CLIENT_LINEAR)
    && BigEnough(req, usage, bufferSize, fbSize, props)
  }

  function WithAfbc(fmt: InternalFormat): InternalFormat {
    InternalFormat(fmt.base, fmt.mods | AFBC_BASIC)
  }

  /** A compressed framebuffer target is always RGBA_8888. */
  function FbTargetFormat(props: Properties): InternalFormat {
    InternalFormat(RGBA_8888, if props.platform == RK3326 then AFBC_BASIC | AFBC_YUV_TRANSFORM else AFBC_BASIC)
  }

  function RkFormat(req: HalFormat, usage: bv64, bufferSize: nat, fbSize: nat, props: Properties): InternalFormat {
    if Has(usage, HW_FB) then
      if FbTargetUsesAfbc(req, usage, props) then FbTargetFormat(props) else RkOwn(req, usage)
    else if ClientUsesAfbc(req, usage, bufferSize, fbSize, props) then WithAfbc(RkOwn(req, usage))
    else RkOwn(req, usage)
  }

  /** The framebuffer branch, before the size is saved. */
  method SelectFbTarget(req: HalFormat, usage: bv64, props: Properties) returns (fmt: InternalFormat)
    ensures fmt == if FbTargetUsesAfbc(req, usage, props) then FbTargetFormat(props) else RkOwn(req, usage)
  {
    hide Has, HasCpu, RkBase;
    fmt := RkOwn(req, usage);
    if !props.noAfbcForFbTarget {
      if Has(usage, HW_VIDEO_ENCODER) || Has(usage, NO_AFBC) || HasCpu(usage) || Has(usage, HW_CAMERA_WRITE)
         || Has(usage, HW_CAMERA_READ) || IsOneOf(req, usage, {NV12}) || IsOneOf(req, usage, {P010})
         || IsOneOf(req, usage, {RGBA_16161616}) || IsOneOf(req, usage, {NV16}) {
      } else {
        match props.platform {
          case RK3326 => fmt := InternalFormat(RGBA_8888, AFBC_BASIC | AFBC_YUV_TRANSFORM);
          case RK356X =>
            fmt := InternalFormat(RGBA_8888, 0);
            if !Has(usage, NO_AFBC) {
              fmt := InternalFormat(RGBA_8888, AFBC_BASIC);
            }
          case RK3588 =>
            fmt := InternalFormat(RGBA_8888, 0);
            if !Has(usage, NO_AFBC) {
              fmt := InternalFormat(RGBA_8888, AFBC_BASIC);
            }
        }
      }
    }
  }

  method RkSelectFormat(req: HalFormat, usage: bv64, bufferSize: nat, props: Properties, process: Process)
    returns (fmt: InternalFormat)
    modifies process, process.property
    ensures fmt == RkFormat(req, usage, bufferSize, Seen(old(process.AsWorld()), 0), props)
    ensures Has(usage, HW_FB) ==> process.AsWorld() == Next(old(process.AsWorld()), Save(0, bufferSize))
    ensures !Has(usage, HW_FB) ==>
      process.AsWorld() == old(process.AsWorld()) || process.AsWorld() == Next(old(process.AsWorld()), Get(0))
  {
    hide Has, HasCpu, RkBase, Next, Seen, FbTargetUsesAfbc, BigEnough;
    if Has(usage, HW_FB) {
      fmt := SelectFbTarget(req, usage, props);
      process.SaveFbSize(bufferSize);
    } else {
      fmt := RkOwn(req, usage);
      if !Has(usage, NO_AFBC) && !props.noAfbcForClient {
        if props.platform == RK356X || props.platform == RK3588 {
          if !HasCpu(usage) && !Has(usage, HW_VIDEO_ENCODER) && !Has(usage, HW_CAMERA_WRITE)
             && !Has(usage, HW_CAMERA_READ) {
            if !IsOneOf(req, usage, CLIENT_LINEAR) {
              var useAfbc := UseAfbcBySize(req, usage, bufferSize, props, process);
              if useAfbc {
                fmt := WithAfbc(fmt);
              }
            }
          }
        }
      }
    }
  }

  method UseAfbcBySize(req: HalFormat, usage: bv64, bufferSize: nat, props: Properties, process: Process)
    returns (use: bool)
    modifies process
    ensures use == BigEnough(req, usage, bufferSize, Seen(old(process.AsWorld()), 0), props)
    ensures process.AsWorld() == Next(old(process.AsWorld()), Get(0))
  {
    hide RkBase, Next, Seen;
    var fbSize := process.GetFbSize();
    if !IsOneOf(req, usage, {RGBA_8888}) {
      return true;
    }
    if props.small {
      return true;
    }
    if bufferSize < fbSize / 4 {
      return false;
    }
    return true;
  }

  // ----- what the choice guarantees -----

  lemma AfbcBits(base: BaseFormat)
    ensures InternalFormat(base, AFBC_BASIC | AFBC_YUV_TRANSFORM).IsAfbc() && InternalFormat(base, AFBC_BASIC).IsAfbc()
    ensures !InternalFormat(base, 0).IsAfbc()
    ensures var f := InternalFormat(base, AFBC_BASIC);
      !f.Get(AFBC_TILED) && !f.Get(AFBC_WIDE) && !f.Get(AFBC_EXTRA_WIDE)
    ensures var f := InternalFormat(base, AFBC_BASIC | AFBC_YUV_TRANSFORM);
      !f.Get(AFBC_TILED) && !f.Get(AFBC_WIDE) && !f.Get(AFBC_EXTRA_WIDE)
  {
  }

  predicate ChoosesAfbc(req: HalFormat, usage: bv64, bufferSize: nat, fbSize: nat, props: Properties) {
    if Has(usage, HW_FB) then FbTargetUsesAfbc(req, usage, props)
    else ClientUsesAfbc(req, usage, bufferSize, fbSize, props)
  }

  lemma AfbcBitAdded(fmt: InternalFormat)
    ensures WithAfbc(fmt).base == fmt.base && WithAfbc(fmt).IsAfbc()
    ensures fmt.IsAfrc() ==> WithAfbc(fmt).IsAfrc()
  {
  }

  lemma OnlyAfbcBit(fmt: InternalFormat)
    requires fmt.mods == 0
    ensures WithAfbc(fmt) == InternalFormat(fmt.base, AFBC_BASIC)
  {
  }

  /**
   * AFBC is selected in the stated cases, and never with CPU usage. The only other way to an AFBC format is to ask for
   * it with an unmapped one.
   */
  lemma AfbcMeansNoCpu(req: HalFormat, usage: bv64, bufferSize: nat, fbSize: nat, props: Properties)
    ensures var fmt := RkFormat(req, usage, bufferSize, fbSize, props);
      && (fmt.IsAfbc() <==> ChoosesAfbc(req, usage, bufferSize, fbSize, props) || RkOwn(req, usage).IsAfbc())
      && (ChoosesAfbc(req, usage, bufferSize, fbSize, props) ==> !HasCpu(usage))
      && (fmt.IsAfbc() && !req.Unmapped? ==> !HasCpu(usage))
  {
    hide Has, HasCpu, InternalFormat.IsAfbc, BigEnough, RkBase, WithAfbc, IsOneOf;
    AfbcBits(RkBase(req, usage));
    AfbcBits(RGBA_8888);
    AfbcBitAdded(RkOwn(req, usage));
  }

  /**
   * An unmapped format is kept as it is unless AFBC is chosen. Outside the framebuffer the AFBC bit is then added to
   * whatever it forces, so that a forced AFRC layout comes out as AFBC.
   */
  lemma ForcedAfrcBecomesAfbc(req: HalFormat, usage: bv64, bufferSize: nat, fbSize: nat, props: Properties,
                              width: nat, height: nat)
    requires req.Unmapped? && !Has(usage, HW_FB)
    ensures var fmt := RkFormat(req, usage, bufferSize, fbSize, props);
      var outcome := DeriveOutcome(fmt, usage, width, height);
      && (!ChoosesAfbc(req, usage, bufferSize, fbSize, props) ==> fmt == RkOwn(req, usage))
      && (ChoosesAfbc(req, usage, bufferSize, fbSize, props) && RkOwn(req, usage).IsAfrc() ==>
            fmt.IsAfrc() && (outcome.Derived? ==> outcome.request.at.IsAfbc()))
  {
    var fmt := RkFormat(req, usage, bufferSize, fbSize, props);
    AfbcBitAdded(RkOwn(req, usage));
    AfbcMeansNoCpu(req, usage, bufferSize, fbSize, props);
    hide WithAfbc, InternalFormat.IsAfbc, InternalFormat.IsAfrc, Info, Has, HasCpu, ValidFormat, RkBase, ClientUsesAfbc,
      AdjustmentOf;
    if fmt.IsAfbc() && DeriveOutcome(fmt, usage, width, height).Derived? {
      AfbcFamily(fmt, usage, width, height);
    }
  }

  lemma PlainAfbcType(base: BaseFormat, mods: bv32, usage: bv64)
    requires HasInfo(base) && (mods == AFBC_BASIC || mods == AFBC_BASIC | AFBC_YUV_TRANSFORM || mods == 0)
    ensures var at := AllocTypeOf(InternalFormat(base, mods), usage);
      at.Some? && (if mods == 0 then at.value.IsLinear() else at.value.IsAfbc() && !at.value.multiPlane)
  {
    AfbcBits(base);
    hide Info, InternalFormat.Get;
    if mods == 0 {
      assert !InternalFormat(base, mods).IsAfrc() && !InternalFormat(base, mods).IsBlockLinear() by { NoClass(base); }
    }
  }

  lemma PlainAfbcIsUntiled(base: BaseFormat, usage: bv64)
    requires HasInfo(base)
    ensures AllocTypeOf(InternalFormat(base, AFBC_BASIC), usage).Some?
    ensures !AllocTypeOf(InternalFormat(base, AFBC_BASIC), usage).value.tiled
  {
    AfbcBits(base);
    hide Info, InternalFormat.Get;
  }

  lemma NoClass(base: BaseFormat)
    ensures !InternalFormat(base, 0).IsAfrc() && !InternalFormat(base, 0).IsBlockLinear()
  {
  }

  /** A format that get_alloc_type and validate_format both accept. */
  predicate Accepted(fmt: InternalFormat, usage: bv64, height: nat)
    requires HasInfo(fmt.base)
  {
    AllocTypeOf(fmt, usage).Some? && ValidFormat(Info(fmt.base), AllocTypeOf(fmt, usage).value, height)
  }

  /**
   * The Rockchip selector does not consult the format table, so what it selects can be refused. A mapped request, and
   * any compressed framebuffer target, is accepted exactly when the table has the chosen kind of layout for the base
   * format: single-plane AFBC where AFBC is chosen, linear otherwise; and BLOB has height one.
   */
  lemma RkFormatAllocatableExactlyWhen(req: HalFormat, usage: bv64, bufferSize: nat, fbSize: nat,
      props: Properties, height: nat)
    requires HasInfo(RkBase(req, usage))
    requires req.Unmapped? ==> Has(usage, HW_FB) && FbTargetUsesAfbc(req, usage, props)
    ensures var fmt := RkFormat(req, usage, bufferSize, fbSize, props);
      && HasInfo(fmt.base) && AllocTypeOf(fmt, usage).Some?
      && var f := Info(fmt.base);
      Accepted(fmt, usage, height) <==>
      && (if ChoosesAfbc(req, usage, bufferSize, fbSize, props) then f.afbc && f.npln == 1 else f.linear)
      && (fmt.base == BLOB ==> height == 1)
  {
    hide Info, Has, HasCpu, AllocTypeOf, PlainUsage, RkBase, ClientUsesAfbc, FbTargetUsesAfbc, WithAfbc;
    var fmt := RkFormat(req, usage, bufferSize, fbSize, props);
    if !req.Unmapped? {
      OnlyAfbcBit(RkOwn(req, usage));
    }
    PlainAfbcType(fmt.base, fmt.mods, usage);
    RowShape(fmt.base);
  }

  /** The modifiers a row has a layout for. Whether AFBC is added or forced, AFBC is what counts. */
  predicate ModifiersFit(f: FormatInfo, own: InternalFormat, chosen: bool) {
    if chosen || own.IsAfbc() then
      && f.afbc
      && (own.Get(AFBC_EXTRA_WIDE) ==> own.Get(AFBC_TILED))
      && (if f.npln > 1 then own.Get(AFBC_TILED) && own.Get(AFBC_EXTRA_WIDE)
          else !(own.Get(AFBC_WIDE) && own.Get(AFBC_EXTRA_WIDE)))
    else if own.IsAfrc() then f.afrc && own.LumaSize() != InvalidSize && own.ChromaSize() != InvalidSize
    else if own.IsBlockLinear() then f.blockLinear
    else f.linear
  }

  /**
   * An unmapped request outside a compressed framebuffer target is accepted exactly when the table has the layout its
   * modifiers ask for, with AFBC taking precedence where the selector chooses it; and BLOB has height one.
   */
  lemma UnmappedAllocatableExactlyWhen(req: HalFormat, usage: bv64, bufferSize: nat, fbSize: nat, props: Properties,
      height: nat)
    requires req.Unmapped? && HasInfo(req.base) && !(Has(usage, HW_FB) && FbTargetUsesAfbc(req, usage, props))
    ensures var fmt := RkFormat(req, usage, bufferSize, fbSize, props);
      && fmt.base == req.base
      && (Accepted(fmt, usage, height) <==>
          && ModifiersFit(Info(req.base), InternalFormat(req.base, req.mods),
                          ChoosesAfbc(req, usage, bufferSize, fbSize, props))
          && (req.base == BLOB ==> height == 1))
  {
    hide Info, Has, HasCpu, FbTargetUsesAfbc, ClientUsesAfbc, Accepted, ModifiersFit, WithAfbc;
    var own := RkOwn(req, usage);
    var chosen := ChoosesAfbc(req, usage, bufferSize, fbSize, props);
    AddedBit(own);
    FormatAccepted(if chosen then WithAfbc(own) else own, usage, height);
    ModifiersOf(own, chosen);
  }

  /** Adding the AFBC bit leaves the flags of the AFBC layout alone. */
  lemma AddedBit(fmt: InternalFormat)
    ensures WithAfbc(fmt).base == fmt.base && WithAfbc(fmt).IsAfbc()
    ensures WithAfbc(fmt).Get(AFBC_EXTRA_WIDE) == fmt.Get(AFBC_EXTRA_WIDE)
    ensures WithAfbc(fmt).Get(AFBC_WIDE) == fmt.Get(AFBC_WIDE)
    ensures WithAfbc(fmt).Get(AFBC_TILED) == fmt.Get(AFBC_TILED)
  {
  }

  lemma ModifiersOf(own: InternalFormat, chosen: bool)
    requires HasInfo(own.base)
    ensures ModifiersFit(Info(own.base), if chosen then WithAfbc(own) else own, false)
        <==> ModifiersFit(Info(own.base), own, chosen)
  {
    AddedBit(own);
    hide Info, WithAfbc, InternalFormat.Get, InternalFormat.IsAfbc, InternalFormat.IsAfrc, InternalFormat.IsBlockLinear;
  }

  lemma FormatAccepted(fmt: InternalFormat, usage: bv64, height: nat)
    requires HasInfo(fmt.base)
    ensures Accepted(fmt, usage, height) <==>
            ModifiersFit(Info(fmt.base), fmt, false) && (fmt.base == BLOB ==> height == 1)
  {
    RowShape(fmt.base);
    if Info(fmt.base).afrc {
      ClumpsOfRow(fmt.base);
    }
    hide Info, InternalFormat.Get, InternalFormat.IsAfbc, InternalFormat.IsAfrc, InternalFormat.IsBlockLinear,
      InternalFormat.LumaSize, InternalFormat.ChromaSize, ClumpsDefined, Clump, Has, PlaneAlignment, Shape;
  }

  lemma ClumpsOfRow(id: BaseFormat)
    requires HasInfo(id) && Info(id).afrc
    ensures ClumpsDefined(Info(id))
  {
    TableWellFormed(id);
    hide Info, LinearRow, AfbcRow, BlockLinearRow, NamedRows;
  }

  /** A compressed framebuffer target is always accepted. */
  lemma FbTargetIsAllocatable(req: HalFormat, usage: bv64, bufferSize: nat, fbSize: nat, props: Properties, height: nat)
    requires HasInfo(RkBase(req, usage)) && Has(usage, HW_FB) && FbTargetUsesAfbc(req, usage, props)
    ensures var fmt := RkFormat(req, usage, bufferSize, fbSize, props);
      fmt.base == RGBA_8888 && DeriveOutcome(fmt, usage, 0, height).Derived?
  {
    hide Info, Has, HasCpu, AllocTypeOf, AdjustmentOf, RkBase, FbTargetUsesAfbc;
    RkFormatAllocatableExactlyWhen(req, usage, bufferSize, fbSize, props, height);
    RgbaRow();
  }

  lemma RgbaRow()
    ensures Info(RGBA_8888).afbc && Info(RGBA_8888).npln == 1 && Info(RGBA_8888).id == RGBA_8888 && !RkVideo(RGBA_8888)
  {
  }

  /** NV21 for GPU sampling on RK3588: AFBC is chosen for a two-plane format, and the allocation is refused. */
  lemma Nv21TextureIsRefused(bufferSize: nat, fbSize: nat, width: nat, height: nat)
    ensures var fmt := RkFormat(YCRCB_420_SP, HW_TEXTURE, bufferSize, fbSize, STOCK);
      fmt.IsAfbc() && DeriveOutcome(fmt, HW_TEXTURE, width, height) == Rejected(InvalidFormat)
  {
    TextureIsPlain();
    hide Has, HasCpu, Info, AllocTypeOf, AdjustmentOf, ValidFormat;
    AfbcMeansNoCpu(YCRCB_420_SP, HW_TEXTURE, bufferSize, fbSize, STOCK);
    RkFormatAllocatableExactlyWhen(YCRCB_420_SP, HW_TEXTURE, bufferSize, fbSize, STOCK, height);
    Nv21Row();
  }

  lemma TextureIsPlain()
    ensures !Has(HW_TEXTURE, HW_FB) && !PlainUsage(HW_TEXTURE)
  {
  }

  lemma Nv21Row()
    ensures Info(NV21).npln == 2
  {
  }

  /** An interleaved video texture with a specified stride on RK3588 reaches the division by zero. */
  lemma InterleavedStrideDividesByZero(bufferSize: nat, fbSize: nat, width: nat, height: nat)
    ensures var usage := HW_TEXTURE | SPECIFY_STRIDE;
      var fmt := RkFormat(HAL_YUV420_8BIT_I, usage, bufferSize, fbSize, STOCK);
      DeriveOutcome(fmt, usage, width, height) == Rejected(DivisionByZero)
  {
    var usage := HW_TEXTURE | SPECIFY_STRIDE;
    StridedTextureIsPlain();
    InterleavedRow();
    hide Info, Has, HasCpu, AllocTypeOf, AdjustmentOf, StrideRequestOf, DeriveOutcome, ValidFormat, WithAfbc;
    AfbcBitAdded(RkOwn(HAL_YUV420_8BIT_I, usage));
    RkFormatAllocatableExactlyWhen(HAL_YUV420_8BIT_I, usage, bufferSize, fbSize, STOCK, height);
    var fmt := RkFormat(HAL_YUV420_8BIT_I, usage, bufferSize, fbSize, STOCK);
    DivisionByZeroExactlyWhen(fmt, usage, width, height);
  }

  lemma StridedTextureIsPlain()
    ensures var usage := HW_TEXTURE | SPECIFY_STRIDE;
      !Has(usage, HW_FB) && !PlainUsage(usage) && Has(usage, SPECIFY_STRIDE)
  {
  }

  lemma InterleavedRow()
    ensures Info(YUV420_8BIT_I).afbc && Info(YUV420_8BIT_I).npln == 1
  {
  }

  /** A 410 pixel wide NV15 row for hardware needs 4100 bits and gets 512 bytes, with nothing left to round up. */
  lemma WideNv15RowIsCut(q: Request)
    requires LinearRequest(q) && q.f.id == NV15 && q.width == 410
    requires q.u.hw && !q.u.cpu && !q.u.strideSpecified && q.u.stride == NoRequest
    ensures Computable(q) && !RowsFit(q, 0)
  {
    hide RowsFit, Computable, Sane, Shape;
    TenBitFacts(q);
    RowsFitExactlyWhen(q, 0);
  }

  lemma Nv15Texture(bufferSize: nat, fbSize: nat, height: nat)
    ensures RkFormat(YCrCb_NV12_10, HW_TEXTURE, bufferSize, fbSize, STOCK) == InternalFormat(NV15, 0)
    ensures var outcome := DeriveOutcome(InternalFormat(NV15, 0), HW_TEXTURE, 410, height);
      && outcome.Derived? && outcome.request.at.IsLinear() && outcome.request.f.id == NV15
      && outcome.request.width == 410 && outcome.request.u == LayoutUsage(false, true, false, NoRequest)
  {
    hide Info, Has, HasCpu, HasHardware, StrideRequestOf, AllocTypeOf, ValidFormat, HeightGrain, AdjustedHeight,
      InternalFormat.IsAfbc;
    TextureIsPlain();
    TextureUsage();
    Nv15Row();
    RkFormatAllocatableExactlyWhen(YCrCb_NV12_10, HW_TEXTURE, bufferSize, fbSize, STOCK, height);
    PlainAfbcType(NV15, 0, HW_TEXTURE);
    NoAfbcBit(NV15);
  }

  /** The selector leaves a ten-bit video texture linear, and at 410 pixels its luma rows do not fit their stride. */
  lemma Nv15TextureRowIsCut(bufferSize: nat, fbSize: nat, height: nat)
    ensures var fmt := RkFormat(YCrCb_NV12_10, HW_TEXTURE, bufferSize, fbSize, STOCK);
      var outcome := DeriveOutcome(fmt, HW_TEXTURE, 410, height);
      && fmt == InternalFormat(NV15, 0) && outcome.Derived?
      && LinearRequest(outcome.request) && Computable(outcome.request) && !RowsFit(outcome.request, 0)
  {
    hide RkFormat, DeriveOutcome, RowsFit, Sane, Computable;
    Nv15Texture(bufferSize, fbSize, height);
    DerivedIsSane(InternalFormat(NV15, 0), HW_TEXTURE, 410, height);
    WideNv15RowIsCut(DeriveOutcome(InternalFormat(NV15, 0), HW_TEXTURE, 410, height).request);
  }

  lemma NoAfbcBit(base: BaseFormat)
    ensures !InternalFormat(base, 0).IsAfbc()
  {
  }

  lemma TextureUsage()
    ensures HasHardware(HW_TEXTURE) && !HasCpu(HW_TEXTURE) && !Has(HW_TEXTURE, SPECIFY_STRIDE)
    ensures StrideRequestOf(HW_TEXTURE) == NoRequest
  {
  }

  lemma Nv15Row()
    ensures Info(NV15).linear && Info(NV15).id == NV15 && Info(NV15).npln == 2 && Info(NV15).bpp.p0 == 10
  {
  }

  /**
   * Which derived buffers are AFBC, and when they reach the layout engine without CPU usage: always where the selector
   * chose AFBC, and otherwise, for an unmapped format that asks for AFBC itself, exactly when the usage has none.
   */
  lemma RkAfbcIsAligned(req: HalFormat, usage: bv64, bufferSize: nat, fbSize: nat, props: Properties, width: nat,
      height: nat)
    requires DeriveOutcome(RkFormat(req, usage, bufferSize, fbSize, props), usage, width, height).Derived?
    ensures var chosen := ChoosesAfbc(req, usage, bufferSize, fbSize, props);
      var q := DeriveOutcome(RkFormat(req, usage, bufferSize, fbSize, props), usage, width, height).request;
      && Sane(q) && (q.at.IsAfbc() <==> chosen || RkOwn(req, usage).IsAfbc())
      && (q.at.IsAfbc() ==> (AfbcRequest(q) <==> !HasCpu(usage)))
      && (chosen ==> AfbcRequest(q))
      && (q.at.IsAfbc() && HasCpu(usage) ==> req.Unmapped? && !chosen)
  {
    var fmt := RkFormat(req, usage, bufferSize, fbSize, props);
    AfbcMeansNoCpu(req, usage, bufferSize, fbSize, props);
    DerivedIsSane(fmt, usage, width, height);
    hide RkFormat, ChoosesAfbc, Info, HasCpu, Has, HasHardware, StrideRequestOf, AdjustmentOf, ValidFormat, Sane,
      Computable, RkOwn, InternalFormat.IsAfbc;
    AfbcFamily(fmt, usage, width, height);
  }

  lemma AfbcFamily(fmt: InternalFormat, usage: bv64, width: nat, height: nat)
    requires DeriveOutcome(fmt, usage, width, height).Derived?
    ensures var q := DeriveOutcome(fmt, usage, width, height).request;
      (q.at.IsAfbc() <==> fmt.IsAfbc()) && q.u.cpu == HasCpu(usage)
  {
    hide Info, HasCpu, HasHardware, StrideRequestOf, AdjustmentOf, ValidFormat, InternalFormat.Get, Has,
      InternalFormat.IsAfbc, ClumpsDefined, Clump, PlaneAlignment, InternalFormat.LumaSize, InternalFormat.ChromaSize;
  }

  /**
   * After the first framebuffer target has been sized, every process, at any later time, makes the same choice for the
   * same request, as long as the other properties stay the same.
   */
  lemma SameChoiceEverywhere(before: seq<Step>, after: seq<Step>, later: seq<Step>, p: nat, r: nat,
                             req: HalFormat, usage: bv64, bufferSize: nat, props: Properties)
    requires FirstSaved(before) != 0
    ensures RkFormat(req, usage, bufferSize, Seen(Run(Run(START, before), after), p), props)
         == RkFormat(req, usage, bufferSize, Seen(Run(Run(START, before), later), r), props)
  {
    hide RkFormat;
    EveryoneSeesTheSame(before, after, p);
    EveryoneSeesTheSame(before, later, r);
  }
}
