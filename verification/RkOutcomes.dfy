/**
 * What buffer each request to the Rockchip selector comes out as, format by format: uncompressed, AFBC or refused.
 */
module RkOutcomes {
  import opened Usages
  import opened Formats
  import opened InternalFormats
  import opened AllocTypes
  import opened Layout
  import opened Derive
  import opened RkSelection

  datatype Outcome = Plain(base: BaseFormat) | Compressed(base: BaseFormat) | Refused

  /** The derivation ends as stated; compressed buffers have 16x16 superblocks and untiled headers. */
  predicate Comes(d: Derived, o: Outcome) {
    match o
    case Plain(base) => d.Derived? && d.request.at.IsLinear() && d.request.f.id == base
    case Compressed(base) =>
      d.Derived? && d.request.at.scheme == AfbcBasic && !d.request.at.tiled && d.request.f.id == base
    case Refused => d.Rejected?
  }

  // ----- the lists -----

  /** Client formats that stay uncompressed, and those that are compressed; the others are refused. */
  const CLIENT_PLAIN: set<BaseFormat> := {NV12, NV15, NV16, NV24, NV30, P010, RGBA_16161616, BGR_888, DEPTH_32F}
  const CLIENT_COMPRESSED: set<BaseFormat> :=
    {RGB_565, RGB_888, RGBA_8888, BGRA_8888, RGBX_8888, RGBA_1010102, RGBA_10101010, Y8, Y16, YUV420_8BIT_I,
     YUV420_10BIT_I, YUV422_8BIT, Y210}

  /** Formats without an uncompressed layout. */
  const COMPRESSED_ONLY: set<BaseFormat> := {YUV420_8BIT_I, YUV420_10BIT_I, YUV444, Q410, Q401}

  /**
   * A client buffer on RK356X or RK3588 for hardware alone. `big` says that an RGBA_8888 buffer is worth compressing,
   * `strided` that the client asks for a stride of its own.
   */
  function ClientOutcome(req: HalFormat, big: bool, strided: bool): Outcome {
    match req
    case YCrCb_NV12 => Plain(NV12)
    case YCbCr_420_888 => Plain(NV12)
    case YCbCr_422_SP => Plain(NV16)
    case YCrCb_NV12_10 => Plain(NV15)
    case YCBCR_444_888 => Plain(NV24)
    case HAL_NV30 => Plain(NV30)
    case IMPLEMENTATION_DEFINED => Compressed(RGBX_8888)
    case YCbCr_422_I => Compressed(YUV422_8BIT)
    case HAL_Y210 => Compressed(Y210)
    case HAL_YUV420_8BIT_I => if strided then Refused else Compressed(YUV420_8BIT_I)
    case HAL_YUV420_10BIT_I => if strided then Refused else Compressed(YUV420_10BIT_I)
    case YCRCB_420_SP => Refused
    case Other(m) =>
      if m in CLIENT_PLAIN || (m == RGBA_8888 && !big) then Plain(m)
      else if m in CLIENT_COMPRESSED && !(strided && m in {YUV420_8BIT_I, YUV420_10BIT_I}) then Compressed(m)
      else Refused
    case Unmapped(_, _) => Refused
  }

  /** A buffer the CPU, the encoder or a camera uses, or for which AFBC is switched off. */
  function PlainOutcome(req: HalFormat, video: bool, height: nat): Outcome {
    match req
    case YCrCb_NV12 => Plain(NV12)
    case YCbCr_420_888 => Plain(NV12)
    case YCbCr_422_SP => Plain(NV16)
    case YCrCb_NV12_10 => Plain(NV15)
    case YCBCR_444_888 => Plain(NV24)
    case HAL_NV30 => Plain(NV30)
    case IMPLEMENTATION_DEFINED => Plain(if video then NV12 else RGBX_8888)
    case YCbCr_422_I => Plain(YUV422_8BIT)
    case HAL_Y210 => Plain(Y210)
    case HAL_YUV420_8BIT_I => Refused
    case HAL_YUV420_10BIT_I => Refused
    case YCRCB_420_SP => Plain(NV21)
    case Other(m) =>
      if !HasInfo(m) || m in COMPRESSED_ONLY || (m == BLOB && height != 1) then Refused else Plain(m)
    case Unmapped(_, _) => Refused
  }

  /** A framebuffer target for hardware alone: RGBA_8888 whatever is asked for, apart from four formats. */
  function FbOutcome(req: HalFormat): Outcome {
    match req
    case YCrCb_NV12 => Plain(NV12)
    case YCbCr_420_888 => Plain(NV12)
    case YCbCr_422_SP => Plain(NV16)
    case Other(NV12) => Plain(NV12)
    case Other(NV16) => Plain(NV16)
    case Other(P010) => Plain(P010)
    case Other(RGBA_16161616) => Plain(RGBA_16161616)
    case _ => Compressed(RGBA_8888)
  }

  /** Usages that keep a buffer uncompressed. */
  const UNCOMPRESSED_USAGE: bv64 :=
    SW_READ_MASK | SW_WRITE_MASK | HW_VIDEO_ENCODER | HW_CAMERA_WRITE | HW_CAMERA_READ | NO_AFBC

  lemma UsageIs(usage: bv64)
    ensures Has(usage, UNCOMPRESSED_USAGE) <==> PlainUsage(usage)
  {
  }

  // ----- from a format to its outcome -----

  predicate Strided(usage: bv64) {
    Has(usage, SPECIFY_STRIDE) || StrideRequestOf(usage) != NoRequest
  }

  lemma LinearComes(base: BaseFormat, usage: bv64, width: nat, height: nat)
    ensures Comes(DeriveOutcome(InternalFormat(base, 0), usage, width, height),
                  if HasInfo(base) && Info(base).linear && (base == BLOB ==> height == 1) then Plain(base)
                  else Refused)
  {
    if HasInfo(base) {
      RowShape(base);
      RowDepths(base);
      PlainAfbcType(base, 0, usage);
    }
    hide Info, AllocTypeOf, AdjustmentOf, LayoutUsageOf, Shape, RkVideo, PlanesWithin;
  }

  /** Plain AFBC, with or without the colour transform. */
  lemma AfbcComes(base: BaseFormat, mods: bv32, usage: bv64, width: nat, height: nat)
    requires mods == AFBC_BASIC || mods == AFBC_BASIC | AFBC_YUV_TRANSFORM
    ensures Comes(DeriveOutcome(InternalFormat(base, mods), usage, width, height),
                  if HasInfo(base) && Info(base).afbc && Info(base).npln == 1 && (base == BLOB ==> height == 1)
                     && !(Strided(usage) && base in {YUV420_8BIT_I, YUV420_10BIT_I}) then Compressed(base)
                  else Refused)
  {
    if HasInfo(base) {
      RowShape(base);
      BasicAfbcType(base, mods, usage);
      RkDepths(base);
    }
    hide Info, AllocTypeOf, AdjustmentOf, Has, HasCpu, HasHardware, StrideRequestOf, Shape, RkVideo;
  }

  lemma BasicAfbcType(base: BaseFormat, mods: bv32, usage: bv64)
    requires HasInfo(base) && (mods == AFBC_BASIC || mods == AFBC_BASIC | AFBC_YUV_TRANSFORM)
    ensures var at := AllocTypeOf(InternalFormat(base, mods), usage);
      at.Some? && at.value.scheme == AfbcBasic && !at.value.tiled && !at.value.multiPlane
  {
    AfbcBits(base);
    hide Info, InternalFormat.Get;
  }

  /** What the lists say of the table. */
  lemma CompressedRows(m: BaseFormat)
    requires HasInfo(m)
    ensures Info(m).afbc && Info(m).npln == 1 <==> m in CLIENT_COMPRESSED || m == RGBA_16161616
  {
    if m in CLIENT_COMPRESSED {
      match m {
        case RGB_565 => case RGB_888 => case RGBA_8888 => case BGRA_8888 => case RGBX_8888 => case RGBA_1010102 =>
        case RGBA_10101010 => case Y8 => case Y16 => case YUV420_8BIT_I => case YUV420_10BIT_I =>
        case YUV422_8BIT => case Y210 =>
      }
    } else if m != RGBA_16161616 {
      UnlistedRows(m);
    }
  }

  lemma UnlistedRows(m: BaseFormat)
    requires HasInfo(m) && m !in CLIENT_COMPRESSED && m != RGBA_16161616
    ensures !(Info(m).afbc && Info(m).npln == 1)
  {
    match m {
      case BGR_888 => case NV12 => case NV21 => case YV12 => case YU12 => case NV16 => case NV24 => case YUV444 =>
      case NV30 => case Q410 => case Q401 => case Y0L2 => case P010 => case NV15 => case P210 => case Y410 =>
      case RAW16 => case RAW12 => case RAW10 => case BLOB => case DEPTH_16 => case DEPTH_24 =>
      case DEPTH_24_STENCIL_8 => case DEPTH_32F => case DEPTH_32F_STENCIL_8 => case STENCIL_8 => case R8 =>
    }
  }

  lemma UncompressedRows(m: BaseFormat)
    requires HasInfo(m)
    ensures Info(m).linear <==> m !in COMPRESSED_ONLY
  {
    match m {
      case RGB_565 => case RGB_888 => case BGR_888 => case RGBA_8888 => case BGRA_8888 => case RGBX_8888 =>
      case RGBA_1010102 => case RGBA_16161616 => case RGBA_10101010 => case Y8 => case Y16 =>
      case YUV420_8BIT_I => case NV12 => case NV21 => case YV12 => case YU12 => case YUV422_8BIT =>
      case NV16 => case NV24 => case YUV444 => case NV30 => case Q410 => case Q401 => case YUV420_10BIT_I =>
      case Y0L2 => case P010 => case NV15 => case Y210 => case P210 => case Y410 => case RAW16 => case RAW12 =>
      case RAW10 => case BLOB => case DEPTH_16 => case DEPTH_24 => case DEPTH_24_STENCIL_8 => case DEPTH_32F =>
      case DEPTH_32F_STENCIL_8 => case STENCIL_8 => case R8 =>
    }
  }

  // ----- the theorems -----

  predicate BigBuffer(bufferSize: nat, fbSize: nat, props: Properties) {
    props.small || fbSize < 4 * bufferSize + 4
  }

  /** Every client buffer for hardware alone on RK356X and RK3588. */
  lemma ClientBuffers(req: HalFormat, usage: bv64, bufferSize: nat, fbSize: nat, props: Properties, width: nat,
                      height: nat)
    requires !req.Unmapped? && !Has(usage, HW_FB) && !Has(usage, UNCOMPRESSED_USAGE)
    requires props.platform != RK3326 && !props.noAfbcForClient
    ensures Comes(DeriveOutcome(RkFormat(req, usage, bufferSize, fbSize, props), usage, width, height),
                  ClientOutcome(req, BigBuffer(bufferSize, fbSize, props), Strided(usage)))
  {
    UsageIs(usage);
    ClientFormat(req, usage, bufferSize, fbSize, props);
    ClientBase(RkBase(req, usage), BigBuffer(bufferSize, fbSize, props), usage, width, height);
    ClientRequest(req, usage, BigBuffer(bufferSize, fbSize, props));
    hide RkFormat, DeriveOutcome, Comes, RkBase, BigBuffer, ClientOutcome, Strided, Has;
  }

  /** What the selector makes of a base format. */
  function ClientChoice(base: BaseFormat, big: bool): InternalFormat {
    InternalFormat(base, if base in CLIENT_PLAIN || (base == RGBA_8888 && !big) then 0 else AFBC_BASIC)
  }

  lemma ClientFormat(req: HalFormat, usage: bv64, bufferSize: nat, fbSize: nat, props: Properties)
    requires !req.Unmapped? && !Has(usage, HW_FB) && !PlainUsage(usage)
    requires props.platform != RK3326 && !props.noAfbcForClient
    ensures RkFormat(req, usage, bufferSize, fbSize, props)
         == ClientChoice(RkBase(req, usage), BigBuffer(bufferSize, fbSize, props))
  {
    hide Has, PlainUsage, RkBase, WithAfbc;
    OnlyAfbcBit(InternalFormat(RkBase(req, usage), 0));
    assert CLIENT_LINEAR == CLIENT_PLAIN;
  }

  lemma ClientBase(base: BaseFormat, big: bool, usage: bv64, width: nat, height: nat)
    ensures Comes(DeriveOutcome(ClientChoice(base, big), usage, width, height),
                  ClientOutcome(Other(base), big, Strided(usage)))
  {
    hide Info, Comes, Strided, DeriveOutcome, HasInfo;
    if base in CLIENT_PLAIN || (base == RGBA_8888 && !big) {
      LinearComes(base, usage, width, height);
      PlainRows(base);
    } else {
      AfbcComes(base, AFBC_BASIC, usage, width, height);
      if HasInfo(base) {
        CompressedRows(base);
      } else {
        NoRow(base);
      }
    }
  }

  lemma PlainRows(m: BaseFormat)
    requires m in CLIENT_PLAIN || m == RGBA_8888
    ensures HasInfo(m) && Info(m).linear && m != BLOB
  {
    hide Info;
    UncompressedRows(m);
  }

  lemma NoRow(m: BaseFormat)
    requires !HasInfo(m)
    ensures m !in CLIENT_COMPRESSED && m !in CLIENT_PLAIN && m != RGBA_8888
  {
  }

  /** Every request comes out as its base format does. */
  lemma ClientRequest(req: HalFormat, usage: bv64, big: bool)
    requires !req.Unmapped? && !PlainUsage(usage)
    ensures forall strided: bool ::
      ClientOutcome(req, big, strided) == ClientOutcome(Other(RkBase(req, usage)), big, strided)
  {
    HardwareBase(req, usage);
    hide RkBase;
  }

  /** Without the encoder and the camera the requests stand for these formats. */
  lemma HardwareBase(req: HalFormat, usage: bv64)
    requires !req.Unmapped? && !PlainUsage(usage)
    ensures RkBase(req, usage) == match req
      case YCrCb_NV12 => NV12
      case YCbCr_420_888 => NV12
      case YCbCr_422_SP => NV16
      case YCrCb_NV12_10 => NV15
      case YCBCR_444_888 => NV24
      case HAL_NV30 => NV30
      case IMPLEMENTATION_DEFINED => RGBX_8888
      case YCbCr_422_I => YUV422_8BIT
      case HAL_Y210 => Y210
      case HAL_YUV420_8BIT_I => YUV420_8BIT_I
      case HAL_YUV420_10BIT_I => YUV420_10BIT_I
      case YCRCB_420_SP => NV21
      case Other(m) => m
  {
    hide Has, HasCpu;
  }

  /** Whether the video encoder or a camera writing takes part. */
  predicate VideoUsage(usage: bv64) {
    Has(usage, HW_VIDEO_ENCODER | HW_CAMERA_WRITE)
  }

  /**
   * Every other mapped request that is not compressed: the CPU, the encoder or a camera takes part, AFBC is switched
   * off by the usage or by property, or the platform is RK3326.
   */
  lemma UncompressedBuffers(req: HalFormat, usage: bv64, bufferSize: nat, fbSize: nat, props: Properties, width: nat,
                            height: nat)
    requires !req.Unmapped?
    requires Has(usage, UNCOMPRESSED_USAGE) || (if Has(usage, HW_FB) then props.noAfbcForFbTarget
                                                else props.noAfbcForClient || props.platform == RK3326)
    ensures Comes(DeriveOutcome(RkFormat(req, usage, bufferSize, fbSize, props), usage, width, height),
                  PlainOutcome(req, VideoUsage(usage), height))
  {
    UsageIs(usage);
    PlainFormat(req, usage, bufferSize, fbSize, props);
    PlainBase(RkBase(req, usage), usage, width, height);
    PlainRequest(req, usage, height);
    hide RkFormat, DeriveOutcome, Comes, RkBase, PlainOutcome, VideoUsage, Has;
  }

  lemma PlainFormat(req: HalFormat, usage: bv64, bufferSize: nat, fbSize: nat, props: Properties)
    requires !req.Unmapped?
    requires PlainUsage(usage) || (if Has(usage, HW_FB) then props.noAfbcForFbTarget
                                   else props.noAfbcForClient || props.platform == RK3326)
    ensures RkFormat(req, usage, bufferSize, fbSize, props) == InternalFormat(RkBase(req, usage), 0)
  {
    hide Has, PlainUsage, RkBase;
  }

  lemma PlainBase(base: BaseFormat, usage: bv64, width: nat, height: nat)
    ensures Comes(DeriveOutcome(InternalFormat(base, 0), usage, width, height),
                  PlainOutcome(Other(base), VideoUsage(usage), height))
  {
    hide Info, Comes, DeriveOutcome, HasInfo, VideoUsage;
    LinearComes(base, usage, width, height);
    if HasInfo(base) {
      UncompressedRows(base);
    }
  }

  lemma PlainRequest(req: HalFormat, usage: bv64, height: nat)
    requires !req.Unmapped?
    ensures PlainOutcome(req, VideoUsage(usage), height)
         == PlainOutcome(Other(RkBase(req, usage)), VideoUsage(usage), height)
  {
    EitherVideo(usage);
    hide Has, VideoUsage;
  }

  lemma EitherVideo(usage: bv64)
    ensures VideoUsage(usage) <==> Has(usage, HW_VIDEO_ENCODER) || Has(usage, HW_CAMERA_WRITE)
  {
  }

  /** Every framebuffer target for hardware alone; RK3326 adds the colour transform. */
  lemma FramebufferTargets(req: HalFormat, usage: bv64, bufferSize: nat, fbSize: nat, props: Properties, width: nat,
                           height: nat)
    requires !req.Unmapped? && Has(usage, HW_FB) && !Has(usage, UNCOMPRESSED_USAGE) && !props.noAfbcForFbTarget
    ensures var fmt := RkFormat(req, usage, bufferSize, fbSize, props);
      && Comes(DeriveOutcome(fmt, usage, width, height), FbOutcome(req))
      && (fmt.Get(AFBC_YUV_TRANSFORM) <==> props.platform == RK3326 && FbOutcome(req).Compressed?)
  {
    UsageIs(usage);
    FbFormat(req, usage, bufferSize, fbSize, props);
    TransformBit();
    hide RkFormat, DeriveOutcome, Comes, RkBase, Has, InternalFormat.Get;
    match FbOutcome(req) {
      case Plain(base) =>
        PlainRows(base);
        LinearComes(base, usage, width, height);
      case Compressed(base) =>
        RgbaRow();
        AfbcComes(RGBA_8888, FbTargetFormat(props).mods, usage, width, height);
    }
  }

  lemma TransformBit()
    ensures forall base: BaseFormat :: !InternalFormat(base, 0).Get(AFBC_YUV_TRANSFORM)
    ensures !InternalFormat(RGBA_8888, AFBC_BASIC).Get(AFBC_YUV_TRANSFORM)
    ensures InternalFormat(RGBA_8888, AFBC_BASIC | AFBC_YUV_TRANSFORM).Get(AFBC_YUV_TRANSFORM)
  {
  }

  lemma FbFormat(req: HalFormat, usage: bv64, bufferSize: nat, fbSize: nat, props: Properties)
    requires !req.Unmapped? && Has(usage, HW_FB) && !PlainUsage(usage) && !props.noAfbcForFbTarget
    ensures RkFormat(req, usage, bufferSize, fbSize, props)
         == match FbOutcome(req) case Plain(base) => InternalFormat(base, 0) case _ => FbTargetFormat(props)
    ensures FbOutcome(req).Compressed? ==> FbOutcome(req).base == RGBA_8888
    ensures FbOutcome(req).Plain? ==> FbOutcome(req).base in CLIENT_PLAIN
    ensures !FbOutcome(req).Refused?
  {
    HardwareBase(req, usage);
    hide Has, PlainUsage, FbTargetFormat, RkBase;
  }
}
