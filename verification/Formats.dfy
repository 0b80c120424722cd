/** The pixel-format table of format_info.cpp and its consistency. */
module Formats {
  import opened Alignment
  import opened Usages

  /**
   * Format identifiers. Their numeric values come from platform headers and play no role in the allocation
   * logic beyond telling formats apart; `Unknown` stands for any identifier without a table row.
   */
  datatype BaseFormat =
    | UNDEFINED | RAW_OPAQUE | Unknown(code: int)
    | RGB_565 | RGB_888 | BGR_888 | RGBA_8888 | BGRA_8888 | RGBX_8888 | RGBA_1010102 | RGBA_16161616
    | RGBA_10101010 | Y8 | Y16 | YUV420_8BIT_I | NV12 | NV21 | YV12 | YU12 | YUV422_8BIT | NV16 | NV24
    | YUV444 | NV30 | Q410 | Q401 | YUV420_10BIT_I | Y0L2 | P010 | NV15 | Y210 | P210 | Y410 | RAW16 | RAW12
    | RAW10 | BLOB | DEPTH_16 | DEPTH_24 | DEPTH_24_STENCIL_8 | DEPTH_32F | DEPTH_32F_STENCIL_8 | STENCIL_8
    | R8

  /** One value per plane. */
  datatype Triple = Triple(p0: nat, p1: nat, p2: nat) {
    function At(p: nat): nat
      requires p < 3
    {
      if p == 0 then p0 else if p == 1 then p1 else p2
    }

    function With(p: nat, v: nat): (t: Triple)
      requires p < 3
      ensures forall k: nat :: k < 3 ==> t.At(k) == if k == p then v else At(k)
    {
      if p == 0 then Triple(v, p1, p2) else if p == 1 then Triple(p0, v, p2) else Triple(p0, p1, v)
    }
  }

  datatype FormatInfo = FormatInfo(
    id: BaseFormat,
    npln: nat, ncmp: Triple, bps: nat, bppAfbc: Triple, bpp: Triple,
    hsub: nat, vsub: nat, alignW: nat, alignH: nat, alignWCpu: nat, tileSize: nat,
    hasAlpha: bool, isRgb: bool, isYuv: bool, afbc: bool, linear: bool, yuvTransform: bool,
    flex: bool, blockLinear: bool, afrc: bool)
  {
    function TotalComponents(): nat {
      ncmp.p0 + ncmp.p1 + ncmp.p2
    }

    predicate SubsampledYuv() {
      isYuv && (hsub > 1 || vsub > 1)
    }
  }

  predicate HasInfo(id: BaseFormat) {
    id != UNDEFINED && id != RAW_OPAQUE && !id.Unknown?
  }

  const ROW_COUNT: nat := 41

  /** The format of each row of the `formats` table, in table order. */
  function RowAt(i: nat): BaseFormat
    requires i < ROW_COUNT
  {
    match i
    case 0 => RGB_565
    case 1 => RGB_888
    case 2 => BGR_888
    case 3 => RGBA_8888
    case 4 => BGRA_8888
    case 5 => RGBX_8888
    case 6 => RGBA_1010102
    case 7 => RGBA_16161616
    case 8 => RGBA_10101010
    case 9 => Y8
    case 10 => Y16
    case 11 => YUV420_8BIT_I
    case 12 => NV12
    case 13 => NV21
    case 14 => YV12
    case 15 => YU12
    case 16 => YUV422_8BIT
    case 17 => NV16
    case 18 => NV24
    case 19 => YUV444
    case 20 => NV30
    case 21 => Q410
    case 22 => Q401
    case 23 => YUV420_10BIT_I
    case 24 => Y0L2
    case 25 => P010
    case 26 => NV15
    case 27 => Y210
    case 28 => P210
    case 29 => Y410
    case 30 => RAW16
    case 31 => RAW12
    case 32 => RAW10
    case 33 => BLOB
    case 34 => DEPTH_16
    case 35 => DEPTH_24
    case 36 => DEPTH_24_STENCIL_8
    case 37 => DEPTH_32F
    case 38 => DEPTH_32F_STENCIL_8
    case 39 => STENCIL_8
    case _ => R8
  }

  /** The inverse of RowAt. */
  function RowIndex(id: BaseFormat): nat
    requires HasInfo(id)
  {
    match id
    case RGB_565 => 0
    case RGB_888 => 1
    case BGR_888 => 2
    case RGBA_8888 => 3
    case BGRA_8888 => 4
    case RGBX_8888 => 5
    case RGBA_1010102 => 6
    case RGBA_16161616 => 7
    case RGBA_10101010 => 8
    case Y8 => 9
    case Y16 => 10
    case YUV420_8BIT_I => 11
    case NV12 => 12
    case NV21 => 13
    case YV12 => 14
    case YU12 => 15
    case YUV422_8BIT => 16
    case NV16 => 17
    case NV24 => 18
    case YUV444 => 19
    case NV30 => 20
    case Q410 => 21
    case Q401 => 22
    case YUV420_10BIT_I => 23
    case Y0L2 => 24
    case P010 => 25
    case NV15 => 26
    case Y210 => 27
    case P210 => 28
    case Y410 => 29
    case RAW16 => 30
    case RAW12 => 31
    case RAW10 => 32
    case BLOB => 33
    case DEPTH_16 => 34
    case DEPTH_24 => 35
    case DEPTH_24_STENCIL_8 => 36
    case DEPTH_32F => 37
    case DEPTH_32F_STENCIL_8 => 38
    case STENCIL_8 => 39
    case R8 => 40
  }

  /** One row: the columns follow the fields of FormatInfo in their declared order. */
  function Info(id: BaseFormat): FormatInfo
    requires HasInfo(id)
  {
    match id
      case RGB_565 => FormatInfo(RGB_565, 1, Triple(3, 0, 0), 6, Triple(16, 0, 0), Triple(16, 0, 0),
        0, 0, 1, 1, 1, 1,
        false, true, false, true, true, true, false, false, false)
      case RGB_888 => FormatInfo(RGB_888, 1, Triple(3, 0, 0), 8, Triple(24, 0, 0), Triple(24, 0, 0),
        0, 0, 1, 1, 1, 1,
        false, true, false, true, true, true, true, false, true)
      case BGR_888 => FormatInfo(BGR_888, 1, Triple(3, 0, 0), 8, Triple(0, 0, 0), Triple(24, 0, 0),
        0, 0, 1, 1, 1, 1,
        false, true, false, false, true, false, true, false, true)
      case RGBA_8888 => FormatInfo(RGBA_8888, 1, Triple(4, 0, 0), 8, Triple(32, 0, 0), Triple(32, 0, 0),
        0, 0, 1, 1, 1, 1,
        true, true, false, true, true, true, true, false, true)
      case BGRA_8888 => FormatInfo(BGRA_8888, 1, Triple(4, 0, 0), 8, Triple(32, 0, 0), Triple(32, 0, 0),
        0, 0, 1, 1, 1, 1,
        true, true, false, true, true, false, true, false, false)
      case RGBX_8888 => FormatInfo(RGBX_8888, 1, Triple(3, 0, 0), 8, Triple(32, 0, 0), Triple(32, 0, 0),
        0, 0, 1, 1, 1, 1,
        false, true, false, true, true, true, true, false, false)
      case RGBA_1010102 => FormatInfo(RGBA_1010102, 1, Triple(4, 0, 0), 10, Triple(32, 0, 0), Triple(32, 0, 0),
        0, 0, 1, 1, 1, 1,
        true, true, false, true, true, true, false, false, false)
      case RGBA_16161616 => FormatInfo(RGBA_16161616, 1, Triple(4, 0, 0), 16, Triple(64, 0, 0), Triple(64, 0, 0),
        0, 0, 1, 1, 1, 1,
        true, true, false, true, true, true, true, false, false)
      case RGBA_10101010 => FormatInfo(RGBA_10101010, 1, Triple(4, 0, 0), 10, Triple(40, 0, 0), Triple(64, 0, 0),
        0, 0, 1, 1, 1, 1,
        true, true, false, true, true, true, false, false, true)
      case Y8 => FormatInfo(Y8, 1, Triple(1, 0, 0), 8, Triple(8, 0, 0), Triple(8, 0, 0),
        1, 1, 2, 2, 16, 1,
        false, false, true, true, true, false, true, false, true)
      case Y16 => FormatInfo(Y16, 1, Triple(1, 0, 0), 16, Triple(16, 0, 0), Triple(16, 0, 0),
        1, 1, 2, 2, 16, 1,
        false, false, true, true, true, false, true, false, false)
      case YUV420_8BIT_I => FormatInfo(YUV420_8BIT_I, 1, Triple(3, 0, 0), 8, Triple(12, 0, 0), Triple(0, 0, 0),
        2, 2, 2, 2, 1, 1,
        false, false, true, true, false, false, false, false, false)
      case NV12 => FormatInfo(NV12, 2, Triple(1, 2, 0), 8, Triple(8, 16, 0), Triple(8, 16, 0),
        2, 2, 2, 2, 1, 1,
        false, false, true, true, true, false, true, true, true)
      case NV21 => FormatInfo(NV21, 2, Triple(1, 2, 0), 8, Triple(8, 16, 0), Triple(8, 16, 0),
        2, 2, 2, 2, 1, 1,
        false, false, true, true, true, false, true, false, true)
      case YV12 => FormatInfo(YV12, 3, Triple(1, 1, 1), 8, Triple(8, 8, 8), Triple(8, 8, 8),
        2, 2, 2, 2, 16, 1,
        false, false, true, true, true, false, true, false, false)
      case YU12 => FormatInfo(YU12, 3, Triple(1, 1, 1), 8, Triple(0, 0, 0), Triple(8, 8, 8),
        2, 2, 2, 2, 16, 1,
        false, false, true, false, true, false, true, false, true)
      case YUV422_8BIT => FormatInfo(YUV422_8BIT, 1, Triple(3, 0, 0), 8, Triple(16, 0, 0), Triple(16, 0, 0),
        2, 1, 2, 1, 1, 1,
        false, false, true, true, true, false, true, false, false)
      case NV16 => FormatInfo(NV16, 2, Triple(1, 2, 0), 8, Triple(8, 16, 0), Triple(8, 16, 0),
        2, 1, 2, 1, 1, 1,
        false, false, true, true, true, false, true, true, true)
      case NV24 => FormatInfo(NV24, 2, Triple(1, 2, 0), 8, Triple(0, 0, 0), Triple(8, 16, 0),
        1, 1, 1, 1, 1, 1,
        false, false, true, false, true, false, true, false, false)
      case YUV444 => FormatInfo(YUV444, 3, Triple(1, 1, 1), 8, Triple(0, 0, 0), Triple(0, 0, 0),
        1, 1, 1, 1, 1, 1,
        false, false, true, false, false, false, false, false, true)
      case NV30 => FormatInfo(NV30, 3, Triple(1, 2, 0), 10, Triple(0, 0, 0), Triple(10, 20, 0),
        1, 1, 2, 2, 1, 1,
        false, false, true, false, true, false, false, false, false)
      case Q410 => FormatInfo(Q410, 3, Triple(1, 1, 1), 10, Triple(0, 0, 0), Triple(0, 0, 0),
        1, 1, 1, 1, 1, 1,
        false, false, true, false, false, false, false, false, true)
      case Q401 => FormatInfo(Q401, 3, Triple(1, 1, 1), 10, Triple(0, 0, 0), Triple(0, 0, 0),
        1, 1, 1, 1, 1, 1,
        false, false, true, false, false, false, false, false, true)
      case YUV420_10BIT_I => FormatInfo(YUV420_10BIT_I, 1, Triple(3, 0, 0), 10, Triple(15, 0, 0), Triple(0, 0, 0),
        2, 2, 2, 2, 1, 1,
        false, false, true, true, false, false, false, false, false)
      case Y0L2 => FormatInfo(Y0L2, 1, Triple(4, 0, 0), 10, Triple(0, 0, 0), Triple(16, 0, 0),
        2, 2, 2, 2, 1, 2,
        true, false, true, false, true, false, false, false, false)
      case P010 => FormatInfo(P010, 2, Triple(1, 2, 0), 10, Triple(10, 20, 0), Triple(16, 32, 0),
        2, 2, 2, 2, 1, 1,
        false, false, true, true, true, false, true, true, true)
      case NV15 => FormatInfo(NV15, 2, Triple(1, 2, 0), 10, Triple(0, 0, 0), Triple(10, 20, 0),
        2, 2, 2, 2, 1, 1,
        false, false, true, false, true, false, false, true, false)
      case Y210 => FormatInfo(Y210, 1, Triple(3, 0, 0), 10, Triple(20, 0, 0), Triple(32, 0, 0),
        2, 1, 2, 1, 1, 1,
        false, false, true, true, true, false, true, false, false)
      case P210 => FormatInfo(P210, 2, Triple(1, 2, 0), 10, Triple(10, 20, 0), Triple(16, 32, 0),
        2, 1, 2, 1, 1, 1,
        false, false, true, true, true, false, true, false, true)
      case Y410 => FormatInfo(Y410, 1, Triple(4, 0, 0), 10, Triple(0, 0, 0), Triple(32, 0, 0),
        1, 1, 1, 1, 1, 1,
        true, false, true, false, true, false, false, false, false)
      case RAW16 => FormatInfo(RAW16, 1, Triple(1, 0, 0), 16, Triple(0, 0, 0), Triple(16, 0, 0),
        0, 0, 2, 2, 16, 1,
        false, false, false, false, true, false, false, false, false)
      case RAW12 => FormatInfo(RAW12, 1, Triple(1, 0, 0), 12, Triple(0, 0, 0), Triple(12, 0, 0),
        0, 0, 4, 2, 4, 1,
        false, false, false, false, true, false, false, false, false)
      case RAW10 => FormatInfo(RAW10, 1, Triple(1, 0, 0), 10, Triple(0, 0, 0), Triple(10, 0, 0),
        0, 0, 4, 2, 4, 1,
        false, false, false, false, true, false, false, false, false)
      case BLOB => FormatInfo(BLOB, 1, Triple(1, 0, 0), 8, Triple(0, 0, 0), Triple(8, 0, 0),
        0, 0, 1, 1, 1, 1,
        false, false, false, false, true, false, false, false, false)
      case DEPTH_16 => FormatInfo(DEPTH_16, 1, Triple(1, 0, 0), 16, Triple(0, 0, 0), Triple(16, 0, 0),
        0, 0, 1, 1, 1, 1,
        false, false, false, false, true, false, false, false, false)
      case DEPTH_24 => FormatInfo(DEPTH_24, 1, Triple(1, 0, 0), 24, Triple(0, 0, 0), Triple(24, 0, 0),
        0, 0, 1, 1, 1, 1,
        false, false, false, false, true, false, false, false, false)
      case DEPTH_24_STENCIL_8 => FormatInfo(DEPTH_24_STENCIL_8, 1, Triple(2, 0, 0), 24, Triple(0, 0, 0), Triple(32,
          0, 0),
        0, 0, 1, 1, 1, 1,
        false, false, false, false, true, false, false, false, false)
      case DEPTH_32F => FormatInfo(DEPTH_32F, 1, Triple(1, 0, 0), 32, Triple(0, 0, 0), Triple(32, 0, 0),
        0, 0, 1, 1, 1, 1,
        false, false, false, false, true, false, false, false, false)
      case DEPTH_32F_STENCIL_8 => FormatInfo(DEPTH_32F_STENCIL_8, 1, Triple(2, 0, 0), 32, Triple(0, 0, 0),
          Triple(40, 0, 0),
        0, 0, 1, 1, 1, 1,
        false, false, false, false, true, false, false, false, false)
      case STENCIL_8 => FormatInfo(STENCIL_8, 1, Triple(1, 0, 0), 8, Triple(0, 0, 0), Triple(8, 0, 0),
        0, 0, 1, 1, 1, 1,
        false, false, false, false, true, false, false, false, false)
      case R8 => FormatInfo(R8, 1, Triple(1, 0, 0), 8, Triple(0, 0, 0), Triple(8, 0, 0),
        0, 0, 1, 1, 1, 1,
        false, true, false, false, true, false, false, false, false)
  }

  /** The permitted_usage column of the table. */
  function PermittedUsage(id: BaseFormat): bv64
    requires HasInfo(id)
  {
    match id
    case BGR_888 => 0
    case NV24 => 0
    case NV30 => 0
    case Y8 =>
      UNIVERSAL_USAGES | HW_CAMERA_WRITE | HW_CAMERA_READ | HW_TEXTURE | HW_RENDER
    case Y16 =>
      UNIVERSAL_USAGES | HW_CAMERA_WRITE | HW_CAMERA_READ | HW_TEXTURE | HW_RENDER
    case NV12 =>
      UNIVERSAL_USAGES | HW_TEXTURE | HW_RENDER | HW_COMPOSER | DECODER | HW_VIDEO_ENCODER | HW_FB | FRONTBUFFER
    case YV12 =>
      UNIVERSAL_USAGES | HW_CAMERA_WRITE | HW_CAMERA_READ | HW_TEXTURE | HW_RENDER | HW_COMPOSER | HW_FB |
          HW_VIDEO_ENCODER | DECODER | EXTERNAL_DISP | FRONTBUFFER
    case RAW12 =>
      UNIVERSAL_USAGES | HW_CAMERA_WRITE | HW_CAMERA_READ | RENDERSCRIPT | HW_TEXTURE | HW_RENDER
    case RAW10 =>
      UNIVERSAL_USAGES | HW_CAMERA_WRITE | HW_CAMERA_READ | RENDERSCRIPT | HW_TEXTURE | HW_RENDER
    case R8 =>
      UNIVERSAL_USAGES | HW_TEXTURE | HW_RENDER
    case _ => ALL_STANDARD
  }

  predicate RkVideo(id: BaseFormat) {
    id in {NV12, NV16, YUV420_8BIT_I, YUV420_10BIT_I, YUV422_8BIT, Y210, NV15, NV24, NV30}
  }

  // ----- well-formedness -----

  /** What every allocation path relies on: non-zero divisors and subsampling that divides the alignment. */
  ghost predicate WellFormed(f: FormatInfo) {
    && Shape(f)
    && (f.linear ==> LinearRow(f))
    && (f.afbc ==> AfbcRow(f))
    && (f.afrc ==> AfrcRow(f))
    && (f.blockLinear ==> BlockLinearRow(f))
    && NamedRows(f)
  }

  ghost predicate Shape(f: FormatInfo) {
    && 1 <= f.npln <= 3
    && 0 < f.alignW <= 4 && 0 < f.alignH <= 4 && 0 < f.alignWCpu <= 16 && 0 < f.tileSize <= 2
    && (f.npln > 1 ==>
          && f.hsub > 0 && f.vsub > 0
          && Divides(f.hsub, f.alignW) && Divides(f.vsub, f.alignH)
          && f.tileSize == 1)
  }

  /** The formats calc_allocation_size singles out by name. */
  ghost predicate NamedRows(f: FormatInfo) {
    && (f.id == NV12 ==> f.npln == 2 && f.bpp == Triple(8, 16, 0) && f.hsub == 2 && f.alignW == 2 && f.alignWCpu == 1)
    && (f.id == YV12 ==> f.npln == 3 && f.bpp == Triple(8, 8, 8) && f.hsub == 2 && f.alignW == 2 && f.alignWCpu == 16
                         && f.tileSize == 1 && f.isYuv)
    && (f.id == NV15 || f.id == NV30 ==> TenBitPacked(f))
  }

  /** NV15 and NV30: 10 and 20 bits per pixel with no padding; NV30's row declares three planes. */
  ghost predicate TenBitPacked(f: FormatInfo) {
    && f.bpp == Triple(10, 20, 0) && f.alignW == 2 && f.alignWCpu == 1 && f.tileSize == 1 && f.isYuv
    && f.npln == (if f.id == NV30 then 3 else 2)
    && f.hsub == (if f.id == NV30 then 1 else 2)
  }

  ghost predicate LinearRow(f: FormatInfo) {
    && PlanesWithin(f.npln, f.bpp, if f.id == NV30 then 0 else 8, if f.npln > 1 then 32 else 64)
    && f.bpp.p0 >= 8
    && (BytePacked(f) || WordPacked(f) || f.id == NV15 || f.id == NV30)
    && (f.tileSize > 1 ==> BytePacked(f) && f.npln == 1 && f.bpp.p0 == 16 && f.isYuv)
  }

  /** The value of every plane in use lies between the two bounds. */
  ghost predicate PlanesWithin(npln: nat, t: Triple, lo: nat, hi: nat) {
    && lo <= t.p0 <= hi
    && (npln > 1 ==> lo <= t.p1 <= hi)
    && (npln > 2 ==> lo <= t.p2 <= hi)
  }

  /** Every plane has whole bytes per pixel. */
  ghost predicate BytePacked(f: FormatInfo)
  {
    f.bpp.p0 % 8 == 0 && f.bpp.p1 % 8 == 0 && f.bpp.p2 % 8 == 0
  }

  /** RAW10 and RAW12: four pixels make whole bytes, and widths are aligned to four pixels. */
  ghost predicate WordPacked(f: FormatInfo)
  {
    f.npln == 1 && f.alignW == 4 && f.alignWCpu == 4 && f.tileSize == 1 && f.bpp.p0 % 2 == 0
  }

  ghost predicate AfbcRow(f: FormatInfo)
  {
    && PlanesWithin(f.npln, f.bppAfbc, 8, if f.npln > 1 then 20 else 64)
    && f.tileSize == 1
  }

  ghost predicate AfrcRow(f: FormatInfo)
  {
    && f.tileSize == 1
    && PlanesWithin(f.npln, f.ncmp, 1, 4)
    && (f.npln > 1 ==> f.isYuv)
  }

  ghost predicate BlockLinearRow(f: FormatInfo)
  {
    && f.isYuv && f.npln == 2 && f.hsub == 2 && (f.vsub == 1 || f.vsub == 2) && f.tileSize == 1
    && (f.bpp.p0 == 8 || f.bpp.p0 == 10 || f.bpp.p0 == 16) && f.bpp.p1 == 2 * f.bpp.p0
  }

  lemma RowShape(id: BaseFormat)
    requires HasInfo(id)
    ensures Info(id).id == id && Shape(Info(id))
  {
    match id {
      case RGB_565 => case RGB_888 => case BGR_888 => case RGBA_8888 => case BGRA_8888 => case RGBX_8888 =>
      case RGBA_1010102 => case RGBA_16161616 => case RGBA_10101010 => case Y8 => case Y16 =>
      case YUV420_8BIT_I => case NV12 => case NV21 => case YV12 => case YU12 => case YUV422_8BIT =>
      case NV16 => case NV24 => case YUV444 => case NV30 => case Q410 => case Q401 => case YUV420_10BIT_I =>
      case Y0L2 => case P010 => case NV15 => case Y210 => case P210 => case Y410 => case RAW16 => case RAW12 =>
      case RAW10 => case BLOB => case DEPTH_16 => case DEPTH_24 => case DEPTH_24_STENCIL_8 => case DEPTH_32F =>
      case DEPTH_32F_STENCIL_8 => case STENCIL_8 => case R8 =>
    }
  }

  lemma RowNamed(id: BaseFormat)
    requires HasInfo(id) && Info(id).id == id
    ensures NamedRows(Info(id))
  {
    if id == NV12 {
    } else if id == YV12 {
    } else if id == NV15 {
    } else if id == NV30 {
    }
  }

  lemma RowCompressed(id: BaseFormat)
    requires HasInfo(id)
    ensures var f := Info(id);
      (f.afbc ==> AfbcRow(f)) && (f.afrc ==> AfrcRow(f)) && (f.blockLinear ==> BlockLinearRow(f))
  {
    match id {
      case RGB_565 => case RGB_888 => case BGR_888 => case RGBA_8888 => case BGRA_8888 => case RGBX_8888 =>
      case RGBA_1010102 => case RGBA_16161616 => case RGBA_10101010 => case Y8 => case Y16 =>
      case YUV420_8BIT_I => case NV12 => case NV21 => case YV12 => case YU12 => case YUV422_8BIT =>
      case NV16 => case NV24 => case YUV444 => case NV30 => case Q410 => case Q401 => case YUV420_10BIT_I =>
      case Y0L2 => case P010 => case NV15 => case Y210 => case P210 => case Y410 => case RAW16 => case RAW12 =>
      case RAW10 => case BLOB => case DEPTH_16 => case DEPTH_24 => case DEPTH_24_STENCIL_8 => case DEPTH_32F =>
      case DEPTH_32F_STENCIL_8 => case STENCIL_8 => case R8 =>
    }
  }

  lemma RowDepths(id: BaseFormat)
    requires HasInfo(id)
    ensures var f := Info(id); f.linear ==>
      8 <= f.bpp.p0 && PlanesWithin(f.npln, f.bpp, if id == NV30 then 0 else 8, if f.npln > 1 then 32 else 64)
  {
    match id {
      case RGB_565 => case RGB_888 => case BGR_888 => case RGBA_8888 => case BGRA_8888 => case RGBX_8888 =>
      case RGBA_1010102 => case RGBA_16161616 => case RGBA_10101010 => case Y8 => case Y16 =>
      case YUV420_8BIT_I => case NV12 => case NV21 => case YV12 => case YU12 => case YUV422_8BIT =>
      case NV16 => case NV24 => case YUV444 => case NV30 => case Q410 => case Q401 => case YUV420_10BIT_I =>
      case Y0L2 => case P010 => case NV15 => case Y210 => case P210 => case Y410 => case RAW16 => case RAW12 =>
      case RAW10 => case BLOB => case DEPTH_16 => case DEPTH_24 => case DEPTH_24_STENCIL_8 => case DEPTH_32F =>
      case DEPTH_32F_STENCIL_8 => case STENCIL_8 => case R8 =>
    }
  }

  lemma RowPacking(id: BaseFormat)
    requires HasInfo(id)
    ensures var f := Info(id); f.linear ==>
      BytePacked(f) || WordPacked(f) || id == NV15 || id == NV30
  {
    match id {
      case RGB_565 => case RGB_888 => case BGR_888 => case RGBA_8888 => case BGRA_8888 => case RGBX_8888 =>
      case RGBA_1010102 => case RGBA_16161616 => case RGBA_10101010 => case Y8 => case Y16 =>
      case YUV420_8BIT_I => case NV12 => case NV21 => case YV12 => case YU12 => case YUV422_8BIT =>
      case NV16 => case NV24 => case YUV444 => case NV30 => case Q410 => case Q401 => case YUV420_10BIT_I =>
      case Y0L2 => case P010 => case NV15 => case Y210 => case P210 => case Y410 => case RAW16 => case RAW12 =>
      case RAW10 => case BLOB => case DEPTH_16 => case DEPTH_24 => case DEPTH_24_STENCIL_8 => case DEPTH_32F =>
      case DEPTH_32F_STENCIL_8 => case STENCIL_8 => case R8 =>
    }
  }

  lemma RowTile(id: BaseFormat)
    requires HasInfo(id)
    ensures var f := Info(id); f.tileSize > 1 ==> BytePacked(f) && f.npln == 1 && f.bpp.p0 == 16 && f.isYuv
  {
    match id {
      case RGB_565 => case RGB_888 => case BGR_888 => case RGBA_8888 => case BGRA_8888 => case RGBX_8888 =>
      case RGBA_1010102 => case RGBA_16161616 => case RGBA_10101010 => case Y8 => case Y16 =>
      case YUV420_8BIT_I => case NV12 => case NV21 => case YV12 => case YU12 => case YUV422_8BIT =>
      case NV16 => case NV24 => case YUV444 => case NV30 => case Q410 => case Q401 => case YUV420_10BIT_I =>
      case Y0L2 => case P010 => case NV15 => case Y210 => case P210 => case Y410 => case RAW16 => case RAW12 =>
      case RAW10 => case BLOB => case DEPTH_16 => case DEPTH_24 => case DEPTH_24_STENCIL_8 => case DEPTH_32F =>
      case DEPTH_32F_STENCIL_8 => case STENCIL_8 => case R8 =>
    }
  }

  /** Every row of the table satisfies what the layout code assumes of it. */
  lemma TableWellFormed(id: BaseFormat)
    requires HasInfo(id)
    ensures WellFormed(Info(id)) && Info(id).id == id
  {
    RowShape(id);
    RowNamed(id);
    RowCompressed(id);
    RowDepths(id);
    RowPacking(id);
    RowTile(id);
    hide Info, Shape, NamedRows, AfbcRow, AfrcRow, BlockLinearRow, PlanesWithin, BytePacked, WordPacked;
  }

  // ----- lookup -----

  datatype Option<+T> = None | Some(value: T)

  function Lookup(id: BaseFormat): Option<FormatInfo> {
    if HasInfo(id) then Some(Info(id)) else None
  }

  /** Every identifier with a row has exactly one. */
  lemma RowsAreUnique(i: nat)
    requires i < ROW_COUNT
    ensures HasInfo(RowAt(i)) && RowIndex(RowAt(i)) == i
  {
  }

  lemma RowsAreComplete(id: BaseFormat)
    requires HasInfo(id)
    ensures RowIndex(id) < ROW_COUNT
    ensures RowAt(RowIndex(id)) == id
  {
    match id {
      case RGB_565 => case RGB_888 => case BGR_888 => case RGBA_8888 => case BGRA_8888 => case RGBX_8888 =>
      case RGBA_1010102 => case RGBA_16161616 => case RGBA_10101010 => case Y8 => case Y16 =>
      case YUV420_8BIT_I => case NV12 => case NV21 => case YV12 => case YU12 => case YUV422_8BIT =>
      case NV16 => case NV24 => case YUV444 => case NV30 => case Q410 => case Q401 => case YUV420_10BIT_I =>
      case Y0L2 => case P010 => case NV15 => case Y210 => case P210 => case Y410 => case RAW16 => case RAW12 =>
      case RAW10 => case BLOB => case DEPTH_16 => case DEPTH_24 => case DEPTH_24_STENCIL_8 => case DEPTH_32F =>
      case DEPTH_32F_STENCIL_8 => case STENCIL_8 => case R8 =>
    }
  }

  /** First-match search over the table, as get_format_info does. */
  method GetFormatInfo(id: BaseFormat) returns (r: Option<FormatInfo>)
    ensures r == Lookup(id)
    ensures r.Some? ==> r.value.id == id && WellFormed(r.value)
  {
    hide Info, WellFormed;
    for i := 0 to ROW_COUNT
      invariant forall k: nat :: k < i ==> RowAt(k) != id
    {
      RowsAreUnique(i);
      var row := Info(RowAt(i));
      TableWellFormed(RowAt(i));
      if row.id == id {
        return Some(row);
      }
    }
    if HasInfo(id) {
      RowsAreComplete(id);
    }
    return None;
  }

  // ----- IP support table -----

  /** The kinds of layout an IP can handle for a base format; a support flag word is a set of them. */
  datatype Kind = Linear | Afbc | Afrc | BlockLinearYuv

  const F_NONE: set<Kind> := {}
  const F_LIN: set<Kind> := {Linear}
  const F_AFBC: set<Kind> := {Afbc}
  const F_AFRC: set<Kind> := {Afrc}
  const F_BL_YUV: set<Kind> := {BlockLinearYuv}

  /** Support flags of one format per producer (wr) and consumer (rd). */
  datatype IpSupport = IpSupport(
    cpuWr: set<Kind>, cpuRd: set<Kind>, gpuWr: set<Kind>, gpuRd: set<Kind>, dpuWr: set<Kind>, dpuRd: set<Kind>,
    dpuAeuWr: set<Kind>, vpuWr: set<Kind>, vpuRd: set<Kind>, camWr: set<Kind>)

  /** The rows of `formats_ip_support`; the columns follow the fields of IpSupport. */
  function Support(id: BaseFormat): IpSupport
    requires HasInfo(id)
  {
    match id
      case RGB_565 => IpSupport(F_LIN, F_LIN, F_LIN + F_AFBC, F_LIN + F_AFBC, F_NONE, F_LIN + F_AFBC, F_AFBC, F_NONE,
        F_NONE, F_NONE)
      case RGB_888 => IpSupport(F_LIN, F_LIN, F_LIN + F_AFBC + F_AFRC, F_LIN + F_AFBC + F_AFRC, F_LIN,
        F_LIN + F_AFBC + F_AFRC, F_AFBC, F_NONE, F_NONE, F_NONE)
      case BGR_888 => IpSupport(F_LIN, F_LIN, F_LIN + F_AFBC + F_AFRC, F_LIN + F_AFBC + F_AFRC, F_LIN,
        F_LIN + F_AFBC + F_AFRC, F_AFBC, F_NONE, F_NONE, F_NONE)
      case RGBA_8888 => IpSupport(F_LIN, F_LIN, F_LIN + F_AFBC + F_AFRC, F_LIN + F_AFBC + F_AFRC, F_LIN,
        F_LIN + F_AFBC + F_AFRC, F_AFBC, F_NONE, F_LIN, F_NONE)
      case BGRA_8888 => IpSupport(F_LIN, F_LIN, F_LIN, F_LIN, F_LIN, F_LIN, F_NONE, F_NONE, F_LIN, F_NONE)
      case RGBX_8888 => IpSupport(F_LIN, F_LIN, F_LIN + F_AFBC, F_LIN + F_AFBC, F_LIN, F_LIN + F_AFBC, F_NONE, F_NONE,
        F_NONE, F_NONE)
      case RGBA_1010102 => IpSupport(F_LIN, F_LIN, F_LIN + F_AFBC, F_LIN + F_AFBC, F_LIN, F_LIN + F_AFBC, F_AFBC,
        F_NONE, F_NONE, F_NONE)
      case RGBA_16161616 => IpSupport(F_LIN, F_LIN, F_LIN + F_AFBC, F_LIN + F_AFBC, F_NONE, F_NONE, F_NONE, F_NONE,
        F_NONE, F_NONE)
      case RGBA_10101010 => IpSupport(F_LIN, F_LIN, F_LIN + F_AFBC + F_AFRC, F_LIN + F_AFBC + F_AFRC, F_NONE, F_AFRC,
        F_NONE, F_NONE, F_NONE, F_NONE)
      case Y8 => IpSupport(F_LIN, F_LIN, F_NONE, F_NONE, F_NONE, F_NONE, F_NONE, F_NONE, F_NONE, F_NONE)
      case Y16 => IpSupport(F_LIN, F_LIN, F_NONE, F_NONE, F_NONE, F_NONE, F_NONE, F_NONE, F_NONE, F_NONE)
      case YUV420_8BIT_I => IpSupport(F_NONE, F_NONE, F_AFBC, F_AFBC, F_NONE, F_AFBC, F_AFBC, F_AFBC, F_AFBC, F_NONE)
      case NV12 => IpSupport(F_LIN, F_LIN, F_LIN + F_AFRC + F_BL_YUV, F_LIN + F_AFBC + F_BL_YUV + F_AFRC, F_LIN,
        F_LIN + F_AFRC, F_NONE, F_LIN + F_BL_YUV, F_LIN, F_NONE)
      case NV21 => IpSupport(F_LIN, F_LIN, F_LIN + F_AFRC, F_LIN + F_AFRC, F_NONE, F_AFRC, F_NONE, F_LIN, F_LIN, F_NONE)
      case YV12 => IpSupport(F_LIN, F_LIN, F_LIN + F_AFRC, F_LIN + F_AFRC, F_NONE, F_LIN + F_AFRC, F_NONE, F_LIN,
        F_LIN, F_NONE)
      case YU12 => IpSupport(F_LIN, F_LIN, F_LIN + F_AFRC, F_LIN + F_AFRC, F_NONE, F_LIN + F_AFRC, F_NONE, F_LIN,
        F_LIN, F_NONE)
      case YUV422_8BIT => IpSupport(F_LIN, F_LIN, F_LIN + F_AFBC, F_LIN + F_AFBC, F_NONE, F_LIN + F_AFBC, F_AFBC,
        F_NONE, F_NONE, F_NONE)
      case NV16 => IpSupport(F_LIN, F_LIN, F_LIN + F_AFRC + F_BL_YUV, F_LIN + F_AFBC + F_BL_YUV + F_AFRC, F_NONE,
        F_AFRC, F_NONE, F_BL_YUV, F_NONE, F_NONE)
      case NV24 => IpSupport(F_LIN, F_LIN, F_LIN + F_AFRC + F_BL_YUV, F_LIN + F_AFBC + F_BL_YUV + F_AFRC, F_NONE,
        F_AFRC, F_NONE, F_BL_YUV, F_NONE, F_NONE)
      case YUV444 => IpSupport(F_NONE, F_NONE, F_AFRC, F_AFRC, F_NONE, F_AFRC, F_NONE, F_NONE, F_NONE, F_NONE)
      case NV30 => IpSupport(F_NONE, F_NONE, F_NONE, F_BL_YUV, F_NONE, F_NONE, F_NONE, F_BL_YUV, F_NONE, F_NONE)
      case Q410 => IpSupport(F_NONE, F_NONE, F_AFRC, F_AFRC, F_NONE, F_AFRC, F_NONE, F_NONE, F_NONE, F_NONE)
      case Q401 => IpSupport(F_NONE, F_NONE, F_AFRC, F_AFRC, F_NONE, F_AFRC, F_NONE, F_NONE, F_NONE, F_NONE)
      case YUV420_10BIT_I => IpSupport(F_NONE, F_NONE, F_AFBC, F_AFBC, F_NONE, F_AFBC, F_AFBC, F_AFBC, F_AFBC, F_NONE)
      case Y0L2 => IpSupport(F_LIN, F_LIN, F_LIN, F_LIN, F_NONE, F_LIN, F_NONE, F_LIN, F_LIN, F_NONE)
      case P010 => IpSupport(F_LIN, F_LIN, F_LIN + F_BL_YUV + F_AFRC, F_LIN + F_BL_YUV + F_AFRC, F_NONE,
        F_LIN + F_AFRC, F_NONE, F_LIN + F_BL_YUV, F_LIN, F_NONE)
      case NV15 => IpSupport(F_NONE, F_NONE, F_NONE, F_BL_YUV, F_NONE, F_NONE, F_NONE, F_BL_YUV, F_NONE, F_NONE)
      case Y210 => IpSupport(F_LIN, F_LIN, F_LIN + F_AFBC, F_LIN + F_AFBC, F_NONE, F_NONE, F_NONE, F_NONE, F_NONE,
        F_NONE)
      case P210 => IpSupport(F_LIN, F_LIN, F_LIN + F_AFRC, F_LIN + F_AFRC, F_NONE, F_AFRC, F_NONE, F_NONE, F_NONE,
        F_NONE)
      case Y410 => IpSupport(F_LIN, F_LIN, F_LIN + F_AFBC, F_LIN, F_NONE, F_NONE, F_NONE, F_NONE, F_NONE, F_NONE)
      case RAW16 => IpSupport(F_LIN, F_LIN, F_NONE, F_LIN, F_NONE, F_NONE, F_NONE, F_NONE, F_NONE, F_LIN)
      case RAW12 => IpSupport(F_LIN, F_LIN, F_NONE, F_NONE, F_NONE, F_NONE, F_NONE, F_NONE, F_NONE, F_NONE)
      case RAW10 => IpSupport(F_LIN, F_LIN, F_NONE, F_NONE, F_NONE, F_NONE, F_NONE, F_NONE, F_NONE, F_NONE)
      case BLOB => IpSupport(F_LIN, F_LIN, F_LIN, F_LIN, F_NONE, F_NONE, F_NONE, F_NONE, F_NONE, F_NONE)
      case DEPTH_16 => IpSupport(F_LIN, F_LIN, F_NONE, F_NONE, F_NONE, F_NONE, F_NONE, F_NONE, F_NONE, F_NONE)
      case DEPTH_24 => IpSupport(F_LIN, F_LIN, F_NONE, F_NONE, F_NONE, F_NONE, F_NONE, F_NONE, F_NONE, F_NONE)
      case DEPTH_24_STENCIL_8 => IpSupport(F_LIN, F_LIN, F_NONE, F_NONE, F_NONE, F_NONE, F_NONE, F_NONE, F_NONE, F_NONE)
      case DEPTH_32F => IpSupport(F_LIN, F_LIN, F_NONE, F_NONE, F_NONE, F_NONE, F_NONE, F_NONE, F_NONE, F_NONE)
      case DEPTH_32F_STENCIL_8 => IpSupport(F_LIN, F_LIN, F_NONE, F_NONE, F_NONE, F_NONE, F_NONE, F_NONE, F_NONE,
        F_NONE)
      case STENCIL_8 => IpSupport(F_LIN, F_LIN, F_NONE, F_NONE, F_NONE, F_NONE, F_NONE, F_NONE, F_NONE, F_NONE)
      case R8 => IpSupport(F_LIN, F_LIN, F_LIN, F_LIN, F_NONE, F_NONE, F_NONE, F_NONE, F_NONE, F_NONE)
  }
}
