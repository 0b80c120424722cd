/** CPU access: which lock regions are accepted, and the pointers, strides and increments a lock hands out. */
module Access {
  import opened Formats
  import opened Layout
  import opened MachineInts

  // ----- the lock region -----

  /** 32-bit two's complement addition. */
  function AddInt(a: int, b: int): int {
    (a + b - INT_MIN) % U32 + INT_MIN
  }

  predicate IsInt(x: int) {
    INT_MIN <= x <= INT_MAX
  }

  datatype LockStatus =
    | Locked | BadRegion | NotImported | UnknownFormat | NotYuv | NotFlex | NoOutput | MapFailed | NotHandled

  /** validate_lock_input_parameters: the checks in the source's order, on 32-bit integers. */
  function ValidateLock(l: int, t: int, w: int, h: int, width: int, height: int, imported: bool): LockStatus {
    if l < 0 || t < 0 || w < 0 || h < 0 then BadRegion
    else if AddInt(l, w) < 0 || AddInt(t, h) < 0 then BadRegion
    else if AddInt(t, h) > height || AddInt(l, w) > width then BadRegion
    else if !imported then NotImported
    else Locked
  }

  /**
   * The overflow checks make wrapped sums harmless: only regions inside the buffer pass, and all of them do. (The sums
   * are taken to wrap as two's complement; C++ leaves a signed overflow undefined.)
   */
  lemma RegionAcceptedExactlyWhenInside(l: int, t: int, w: int, h: int, width: int, height: int, imported: bool)
    requires IsInt(l) && IsInt(t) && IsInt(w) && IsInt(h) && IsInt(width) && IsInt(height)
    ensures ValidateLock(l, t, w, h, width, height, imported) == Locked <==>
            imported && 0 <= l && 0 <= t && 0 <= w && 0 <= h && l + w <= width && t + h <= height
  {
    if 0 <= l && 0 <= w {
      AddIntWraps(l, w);
    }
    if 0 <= t && 0 <= h {
      AddIntWraps(t, h);
    }
  }

  lemma AddIntWraps(a: int, b: int)
    requires 0 <= a <= INT_MAX && 0 <= b <= INT_MAX
    ensures AddInt(a, b) == if a + b <= INT_MAX then a + b else a + b - U32
  {
  }

  // ----- channels -----

  datatype Component = CompY | CompCb | CompCr | CompR | CompG | CompB | CompA

  /**
   * Where one component of a format lives: the memory plane holding it, the plane whose stride is handed out for
   * it, the offset of the first sample, its width in bytes, the distance to the next sample, and its subsampling.
   */
  datatype Channel = Channel(
    component: Component, plane: nat, stridePlane: nat, offset: nat, bytes: nat, bitsUsed: nat, step: nat,
    hSub: nat, vSub: nat)

  function Whole(c: Component, offset: nat, bytes: nat, step: nat): Channel {
    Channel(c, 0, 0, offset, bytes, 8 * bytes, step, 1, 1)
  }

  function Luma(bytes: nat, bitsUsed: nat): Channel {
    Channel(CompY, 0, 0, 0, bytes, bitsUsed, bytes, 1, 1)
  }

  function Interleaved(c: Component, offset: nat, bytes: nat, bitsUsed: nat, vSub: nat): Channel {
    Channel(c, 1, 1, offset, bytes, bitsUsed, 2 * bytes, 2, vSub)
  }

  function OwnPlane(c: Component, plane: nat, stridePlane: nat): Channel {
    Channel(c, plane, stridePlane, 0, 1, 8, 1, 2, 2)
  }

  function PackedLuma(bytes: nat, bitsUsed: nat): Channel {
    Channel(CompY, 0, 0, 0, bytes, bitsUsed, 2 * bytes, 1, 1)
  }

  function PackedChroma(c: Component, offset: nat, bytes: nat, bitsUsed: nat): Channel {
    Channel(c, 0, 0, offset, bytes, bitsUsed, 4 * bytes, 2, 1)
  }

  /** The channels a flex layout describes; YU12's chroma strides are taken from each other's plane. */
  function FlexChannels(id: BaseFormat): Option<seq<Channel>> {
    match id
    case Y8 => Some([Luma(1, 8)])
    case Y16 => Some([Luma(2, 16)])
    case NV12 => Some([Luma(1, 8), Interleaved(CompCb, 0, 1, 8, 2), Interleaved(CompCr, 1, 1, 8, 2)])
    case NV21 => Some([Luma(1, 8), Interleaved(CompCb, 1, 1, 8, 2), Interleaved(CompCr, 0, 1, 8, 2)])
    case YV12 => Some([Luma(1, 8), OwnPlane(CompCb, 2, 2), OwnPlane(CompCr, 1, 1)])
    case YU12 => Some([Luma(1, 8), OwnPlane(CompCb, 1, 2), OwnPlane(CompCr, 2, 1)])
    case P010 => Some([Luma(2, 10), Interleaved(CompCb, 0, 2, 10, 2), Interleaved(CompCr, 2, 2, 10, 2)])
    case P210 => Some([Luma(2, 10), Interleaved(CompCb, 0, 2, 10, 1), Interleaved(CompCr, 2, 2, 10, 1)])
    case YUV422_8BIT => Some([PackedLuma(1, 8), PackedChroma(CompCb, 1, 1, 8), PackedChroma(CompCr, 3, 1, 8)])
    case NV16 => Some([Luma(1, 8), Interleaved(CompCb, 0, 1, 8, 1), Interleaved(CompCr, 1, 1, 8, 1)])
    case Y210 => Some([PackedLuma(2, 10), PackedChroma(CompCb, 2, 2, 10), PackedChroma(CompCr, 6, 2, 10)])
    case RGBA_16161616 =>
      Some([Whole(CompR, 0, 2, 8), Whole(CompG, 2, 2, 8), Whole(CompB, 4, 2, 8), Whole(CompA, 6, 2, 8)])
    case RGBA_8888 => Some([Whole(CompR, 0, 1, 4), Whole(CompG, 1, 1, 4), Whole(CompB, 2, 1, 4), Whole(CompA, 3, 1, 4)])
    case RGBX_8888 => Some([Whole(CompR, 0, 1, 4), Whole(CompG, 1, 1, 4), Whole(CompB, 2, 1, 4)])
    case RGB_888 => Some([Whole(CompR, 0, 1, 3), Whole(CompG, 1, 1, 3), Whole(CompB, 2, 1, 3)])
    case BGRA_8888 => Some([Whole(CompR, 2, 1, 4), Whole(CompG, 1, 1, 4), Whole(CompB, 0, 1, 4), Whole(CompA, 3, 1, 4)])
    case _ => None
  }

  /** The channels of an android_ycbcr, which has no luma step: luma is read byte by byte. */
  function YcbcrChannels(id: BaseFormat): Option<seq<Channel>> {
    match id
    case Y8 => Some([Luma(1, 8)])
    case Y16 => Some([Luma(1, 8)])
    case NV12 => Some([Luma(1, 8), Interleaved(CompCb, 0, 1, 8, 2), Interleaved(CompCr, 1, 1, 8, 2)])
    case NV21 => Some([Luma(1, 8), Interleaved(CompCb, 1, 1, 8, 2), Interleaved(CompCr, 0, 1, 8, 2)])
    case YV12 => Some([Luma(1, 8), OwnPlane(CompCb, 2, 1), OwnPlane(CompCr, 1, 1)])
    case YU12 => Some([Luma(1, 8), OwnPlane(CompCb, 1, 1), OwnPlane(CompCr, 2, 1)])
    case _ => None
  }

  // ----- android_flex_layout -----

  datatype FlexPlane = FlexPlane(
    topLeft: nat, component: Component, bitsPerComponent: nat, bitsUsed: nat,
    hIncrement: nat, vIncrement: nat, hSubsampling: nat, vSubsampling: nat)

  /** The flex plane a channel stands for; pointers are offsets from the start of the mapping. */
  function FlexPlaneOf(c: Channel, planes: seq<PlaneInfo>): FlexPlane
    requires |planes| == 3 && c.plane < 3 && c.stridePlane < 3
  {
    FlexPlane((if c.plane == 0 then 0 else planes[c.plane].offset) + c.offset, c.component, 8 * c.bytes, c.bitsUsed,
              c.step, planes[c.stridePlane].byteStride, c.hSub, c.vSub)
  }

  ghost predicate Describes(flex: seq<FlexPlane>, channels: seq<Channel>, planes: seq<PlaneInfo>)
    requires |planes| == 3
  {
    && |channels| <= |flex|
    && forall k :: 0 <= k < |channels| ==>
      channels[k].plane < 3 && channels[k].stridePlane < 3 && flex[k] == FlexPlaneOf(channels[k], planes)
  }

  /** The FLEX_FORMAT values of the switch. */
  datatype FlexFormat = FlexY | FlexYCbCr | FlexRGB | FlexRGBA {
    function Components(): seq<Component> {
      match this
      case FlexY => [CompY]
      case FlexYCbCr => [CompY, CompCb, CompCr]
      case FlexRGB => [CompR, CompG, CompB]
      case FlexRGBA => [CompR, CompG, CompB, CompA]
    }
  }

  /** The format of the layout lists the components of its planes, in their order. */
  ghost predicate Announces(format: FlexFormat, channels: seq<Channel>) {
    && |channels| == |format.Components()|
    && forall k :: 0 <= k < |channels| ==> channels[k].component == format.Components()[k]
  }

  class FlexLayout {
    var format: FlexFormat
    var numPlanes: nat
    const planes: array<FlexPlane>

    constructor (planes: array<FlexPlane>)
      ensures this.planes == planes
    {
      this.planes := planes;
    }

    method SetPlane(k: nat, topLeft: nat, component: Component, bitsPerComponent: nat, bitsUsed: nat,
                    hIncrement: nat, vIncrement: nat, hSubsampling: nat, vSubsampling: nat)
      requires k < planes.Length
      modifies planes
      ensures planes[..] == old(planes[..])[k :=
        FlexPlane(topLeft, component, bitsPerComponent, bitsUsed, hIncrement, vIncrement, hSubsampling, vSubsampling)]
    {
      planes[k] :=
        FlexPlane(topLeft, component, bitsPerComponent, bitsUsed, hIncrement, vIncrement, hSubsampling, vSubsampling);
    }

    /** One luma plane followed by an interleaved Cb/Cr plane. */
    method SemiPlanar(info: seq<PlaneInfo>, bytes: nat, bitsUsed: nat, cb: nat, cr: nat, vSub: nat)
      requires |info| == 3 && planes.Length == 4
      modifies this`format, planes
      ensures var channels := [Luma(bytes, bitsUsed), Interleaved(CompCb, cb, bytes, bitsUsed, vSub),
                               Interleaved(CompCr, cr, bytes, bitsUsed, vSub)];
        Announces(format, channels) && Describes(planes[..], channels, info)
    {
      format := FlexYCbCr;
      SetPlane(0, 0, CompY, 8 * bytes, bitsUsed, bytes, info[0].byteStride, 1, 1);
      SetPlane(1, info[1].offset + cb, CompCb, 8 * bytes, bitsUsed, 2 * bytes, info[1].byteStride, 2, vSub);
      SetPlane(2, info[1].offset + cr, CompCr, 8 * bytes, bitsUsed, 2 * bytes, info[1].byteStride, 2, vSub);
    }

    /** Y, Cb, Y, Cr in one plane. */
    method Packed(info: seq<PlaneInfo>, bytes: nat, bitsUsed: nat)
      requires |info| == 3 && planes.Length == 4
      modifies this`format, planes
      ensures var channels := [PackedLuma(bytes, bitsUsed), PackedChroma(CompCb, bytes, bytes, bitsUsed),
                               PackedChroma(CompCr, 3 * bytes, bytes, bitsUsed)];
        Announces(format, channels) && Describes(planes[..], channels, info)
    {
      format := FlexYCbCr;
      SetPlane(0, 0, CompY, 8 * bytes, bitsUsed, 2 * bytes, info[0].byteStride, 1, 1);
      SetPlane(1, bytes, CompCb, 8 * bytes, bitsUsed, 4 * bytes, info[0].byteStride, 2, 1);
      SetPlane(2, 3 * bytes, CompCr, 8 * bytes, bitsUsed, 4 * bytes, info[0].byteStride, 2, 1);
    }

    method Rgba(info: seq<PlaneInfo>, bytes: nat, alpha: bool, step: nat, red: nat, blue: nat)
      requires |info| == 3 && planes.Length == 4
      modifies this`format, planes
      ensures
        var channels := if alpha then [Whole(CompR, red, bytes, step), Whole(CompG, bytes, bytes, step),
                                       Whole(CompB, blue, bytes, step), Whole(CompA, 3 * bytes, bytes, step)]
                        else [Whole(CompR, red, bytes, step), Whole(CompG, bytes, bytes, step),
                              Whole(CompB, blue, bytes, step)];
        Announces(format, channels) && Describes(planes[..], channels, info)
    {
      format := if alpha then FlexRGBA else FlexRGB;
      SetPlane(0, red, CompR, 8 * bytes, 8 * bytes, step, info[0].byteStride, 1, 1);
      SetPlane(1, bytes, CompG, 8 * bytes, 8 * bytes, step, info[0].byteStride, 1, 1);
      SetPlane(2, blue, CompB, 8 * bytes, 8 * bytes, step, info[0].byteStride, 1, 1);
      if alpha {
        SetPlane(3, 3 * bytes, CompA, 8 * bytes, 8 * bytes, step, info[0].byteStride, 1, 1);
      }
    }

    method Planar(info: seq<PlaneInfo>, cb: nat, cbStride: nat, cr: nat, crStride: nat)
      requires |info| == 3 && planes.Length == 4 && 0 < cb < 3 && 0 < cr < 3 && cbStride < 3 && crStride < 3
      modifies this`format, planes
      ensures var channels := [Luma(1, 8), OwnPlane(CompCb, cb, cbStride), OwnPlane(CompCr, cr, crStride)];
        Announces(format, channels) && Describes(planes[..], channels, info)
    {
      format := FlexYCbCr;
      SetPlane(0, 0, CompY, 8, 8, 1, info[0].byteStride, 1, 1);
      SetPlane(1, info[cb].offset, CompCb, 8, 8, 1, info[cbStride].byteStride, 2, 2);
      SetPlane(2, info[cr].offset, CompCr, 8, 8, 1, info[crStride].byteStride, 2, 2);
    }

    /** The switch of mali_gralloc_lock_flex: false for a format it does not handle. */
    method Fill(id: BaseFormat, info: seq<PlaneInfo>) returns (handled: bool)
      requires |info| == 3 && planes.Length == 4
      modifies this`format, planes
      ensures handled <==> FlexChannels(id).Some?
      ensures handled ==>
        Announces(format, FlexChannels(id).value) && Describes(planes[..], FlexChannels(id).value, info)
      ensures !handled ==> format == old(format) && planes[..] == old(planes[..])
    {
      hide Describes, Announces, FlexPlaneOf, FlexChannels;
      handled := FillYuv(id, info);
      if !handled {
        handled := FillRgb(id, info);
      }
      HandledFormats(id);
    }

    /** The YUV half of the switch. */
    method FillYuv(id: BaseFormat, info: seq<PlaneInfo>) returns (handled: bool)
      requires |info| == 3 && planes.Length == 4
      modifies this`format, planes
      ensures handled <==> id in YUV_HANDLED
      ensures handled ==>
        && FlexChannels(id).Some?
        && Announces(format, FlexChannels(id).value) && Describes(planes[..], FlexChannels(id).value, info)
      ensures !handled ==> format == old(format) && planes[..] == old(planes[..])
    {
      hide Describes, Announces, FlexPlaneOf, Luma, Interleaved, OwnPlane, PackedLuma, PackedChroma;
      handled := true;
      match id {
        case Y8 => OneLuma(info, 1);
        case Y16 => OneLuma(info, 2);
        case NV12 => SemiPlanar(info, 1, 8, 0, 1, 2);
        case NV21 => SemiPlanar(info, 1, 8, 1, 0, 2);
        case YV12 => Planar(info, 2, 2, 1, 1);
        case YU12 => Planar(info, 1, 2, 2, 1);
        case P010 => SemiPlanar(info, 2, 10, 0, 2, 2);
        case P210 => SemiPlanar(info, 2, 10, 0, 2, 1);
        case YUV422_8BIT => Packed(info, 1, 8);
        case NV16 => SemiPlanar(info, 1, 8, 0, 1, 1);
        case Y210 => Packed(info, 2, 10);
        case _ => handled := false;
      }
    }

    /** The RGB half of the switch. */
    method FillRgb(id: BaseFormat, info: seq<PlaneInfo>) returns (handled: bool)
      requires |info| == 3 && planes.Length == 4
      modifies this`format, planes
      ensures handled <==> id in RGB_HANDLED
      ensures handled ==>
        && FlexChannels(id).Some?
        && Announces(format, FlexChannels(id).value) && Describes(planes[..], FlexChannels(id).value, info)
      ensures !handled ==> format == old(format) && planes[..] == old(planes[..])
    {
      hide Describes, Announces, FlexPlaneOf, Whole;
      handled := true;
      match id {
        case RGBA_16161616 => Rgba(info, 2, true, 8, 0, 4);
        case RGBA_8888 => Rgba(info, 1, true, 4, 0, 2);
        case RGBX_8888 => Rgba(info, 1, false, 4, 0, 2);
        case RGB_888 => Rgba(info, 1, false, 3, 0, 2);
        case BGRA_8888 => Rgba(info, 1, true, 4, 2, 0);
        case _ => handled := false;
      }
    }

    method OneLuma(info: seq<PlaneInfo>, bytes: nat)
      requires |info| == 3 && planes.Length == 4
      modifies this`format, planes
      ensures Announces(format, [Luma(bytes, 8 * bytes)]) && Describes(planes[..], [Luma(bytes, 8 * bytes)], info)
    {
      format := FlexY;
      SetPlane(0, 0, CompY, 8 * bytes, 8 * bytes, bytes, info[0].byteStride, 1, 1);
    }

    /** mali_gralloc_lock_flex up to the cache synchronisation; `mapped` says whether mapping succeeds. */
    method LockFlex(region: LockStatus, id: BaseFormat, info: seq<PlaneInfo>, mapped: bool) returns (status: LockStatus)
      requires |info| == 3 && planes.Length == 4
      modifies this`format, this`numPlanes, planes
      ensures status == FlexStatus(region, id, mapped)
      ensures status == Locked ==>
        && numPlanes == |FlexChannels(id).value|
        && Announces(format, FlexChannels(id).value) && Describes(planes[..], FlexChannels(id).value, info)
      ensures status != Locked ==> format == old(format) && planes[..] == old(planes[..])
      ensures numPlanes == if region == Locked && HasInfo(id) && Info(id).flex && mapped then Info(id).TotalComponents()
                           else old(numPlanes)
    {
      hide Info, Announces, Describes, FlexChannels, WellFormed;
      if region != Locked {
        return region;
      }
      var f := GetFormatInfo(id);
      if f.None? {
        return UnknownFormat;
      }
      if !f.value.flex {
        return NotFlex;
      }
      if !mapped {
        return MapFailed;
      }
      numPlanes := f.value.TotalComponents();
      var handled := Fill(id, info);
      if !handled {
        return NotHandled;
      }
      FlexFormatsAreFlex(id);
      return Locked;
    }
  }

  function FlexStatus(region: LockStatus, id: BaseFormat, mapped: bool): LockStatus {
    if region != Locked then region
    else if !HasInfo(id) then UnknownFormat
    else if !Info(id).flex then NotFlex
    else if !mapped then MapFailed
    else if FlexChannels(id).None? then NotHandled
    else Locked
  }

  const YUV_HANDLED: set<BaseFormat> := {Y8, Y16, NV12, NV21, YV12, YU12, P010, P210, YUV422_8BIT, NV16, Y210}
  const RGB_HANDLED: set<BaseFormat> := {RGBA_16161616, RGBA_8888, RGBX_8888, RGB_888, BGRA_8888}

  /** The formats of the switch. */
  const HANDLED: set<BaseFormat> := YUV_HANDLED + RGB_HANDLED

  /** The format table agrees with the switch: the component count, and which flex formats are missing from it. */
  lemma FlexFormatsAreFlex(id: BaseFormat)
    requires HasInfo(id)
    ensures FlexChannels(id).Some? ==> Info(id).flex && |FlexChannels(id).value| == Info(id).TotalComponents()
    ensures Info(id).flex && FlexChannels(id).None? <==> id == BGR_888 || id == NV24
  {
    HandledFormats(id);
    if id in HANDLED {
      HandledAreFlex(id);
    } else {
      UnhandledFlex(id);
    }
    hide Info, FlexChannels;
  }

  lemma HandledFormats(id: BaseFormat)
    ensures FlexChannels(id).Some? <==> id in HANDLED
  {
  }

  lemma HandledAreFlex(id: BaseFormat)
    requires id in HANDLED
    ensures HasInfo(id) && Info(id).flex
    ensures FlexChannels(id).Some? && |FlexChannels(id).value| == Info(id).TotalComponents()
  {
    match id {
      case Y8 => case Y16 => case NV12 => case NV21 => case YV12 => case YU12 => case P010 => case P210 =>
      case YUV422_8BIT => case NV16 => case Y210 => case RGBA_16161616 => case RGBA_8888 => case RGBX_8888 =>
      case RGB_888 => case BGRA_8888 =>
    }
  }

  lemma UnhandledFlex(id: BaseFormat)
    requires HasInfo(id) && id !in HANDLED
    ensures Info(id).flex <==> id == BGR_888 || id == NV24
  {
    match id {
      case RGB_565 => case BGR_888 => case RGBA_1010102 => case RGBA_10101010 => case YUV420_8BIT_I => case NV24 =>
      case YUV444 => case NV30 => case Q410 => case Q401 => case YUV420_10BIT_I => case Y0L2 => case NV15 =>
      case Y410 => case RAW16 => case RAW12 => case RAW10 => case BLOB => case DEPTH_16 => case DEPTH_24 =>
      case DEPTH_24_STENCIL_8 => case DEPTH_32F => case DEPTH_32F_STENCIL_8 => case STENCIL_8 => case R8 =>
    }
  }

  // ----- android_ycbcr -----

  datatype Ycbcr = Ycbcr(
    y: Option<nat>, cb: Option<nat>, cr: Option<nat>, yStride: nat, cStride: nat, chromaStep: nat)

  const NO_YCBCR := Ycbcr(None, None, None, 0, 0, 0)

  /** The structure that stands for a list of channels: luma first, then Cb and Cr if there are any. */
  function YcbcrOf(channels: seq<Channel>, planes: seq<PlaneInfo>): Ycbcr
    requires |planes| == 3 && (|channels| == 1 || |channels| == 3)
    requires forall k :: 0 <= k < |channels| ==> channels[k].plane < 3 && channels[k].stridePlane < 3
  {
    if |channels| == 1 then Ycbcr(Some(0), None, None, planes[0].byteStride, 0, 0)
    else
      var cb, cr := channels[1], channels[2];
      Ycbcr(Some(0), Some(planes[cb.plane].offset + cb.offset), Some(planes[cr.plane].offset + cr.offset),
            planes[0].byteStride, planes[cb.stridePlane].byteStride, cb.step)
  }

  /** The channels of an android_ycbcr: luma from the first plane, chroma from other ones with one stride and step. */
  lemma YcbcrShape(id: BaseFormat)
    requires YcbcrChannels(id).Some?
    ensures var c := YcbcrChannels(id).value;
      && (|c| == 1 || |c| == 3)
      && (forall k :: 0 <= k < |c| ==> c[k].plane < 3 && c[k].stridePlane < 3)
      && c[0].plane == 0 && c[0].stridePlane == 0 && c[0].offset == 0
      && (|c| == 3 ==> 0 < c[1].plane && 0 < c[2].plane)
      && (|c| == 3 ==> c[1].stridePlane == c[2].stridePlane && c[1].step == c[2].step)
  {
    match id {
      case Y8 => case Y16 => case NV12 => case NV21 => case YV12 => case YU12 =>
    }
  }

  /** One chroma stride and step serve both components: the structure says what the separate channels say. */
  lemma YcbcrMatchesChannels(id: BaseFormat, planes: seq<PlaneInfo>)
    requires YcbcrChannels(id).Some? && |planes| == 3
    ensures var c := YcbcrChannels(id).value;
      && (|c| == 1 || |c| == 3)
      && (forall k :: 0 <= k < |c| ==> c[k].plane < 3 && c[k].stridePlane < 3)
      && YcbcrOf(c, planes).y == Some(FlexPlaneOf(c[0], planes).topLeft)
      && YcbcrOf(c, planes).yStride == FlexPlaneOf(c[0], planes).vIncrement
      && (|c| == 3 ==>
            && YcbcrOf(c, planes).cb == Some(FlexPlaneOf(c[1], planes).topLeft)
            && YcbcrOf(c, planes).cr == Some(FlexPlaneOf(c[2], planes).topLeft)
            && YcbcrOf(c, planes).cStride == FlexPlaneOf(c[1], planes).vIncrement == FlexPlaneOf(c[2],
                planes).vIncrement
            && YcbcrOf(c, planes).chromaStep == FlexPlaneOf(c[1], planes).hIncrement == FlexPlaneOf(c[2],
                planes).hIncrement)
  {
    hide YcbcrChannels;
    YcbcrShape(id);
  }

  /** `output` says whether the caller passed a structure to fill. */
  function YcbcrStatus(region: LockStatus, id: BaseFormat, cpu: bool, output: bool, mapped: bool): LockStatus {
    if region != Locked then region
    else if !HasInfo(id) then UnknownFormat
    else if !Info(id).isYuv then NotYuv
    else if cpu && !output then NoOutput
    else if cpu && !mapped then MapFailed
    else if cpu && YcbcrChannels(id).None? then NotHandled
    else Locked
  }

  class YcbcrOut {
    var value: Ycbcr

    /** The switch of mali_gralloc_lock_ycbcr: false for a format it does not handle. */
    method Fill(id: BaseFormat, info: seq<PlaneInfo>) returns (handled: bool)
      requires |info| == 3
      modifies this
      ensures handled <==> YcbcrChannels(id).Some?
      ensures handled ==> value == YcbcrOf(YcbcrChannels(id).value, info)
    {
      handled := true;
      value := value.(y := Some(0), yStride := info[0].byteStride);
      match id {
        case Y8 => value := value.(cStride := 0, cb := None, cr := None, chromaStep := 0);
        case Y16 => value := value.(cStride := 0, cb := None, cr := None, chromaStep := 0);
        case NV12 =>
          value := value.(cStride := info[1].byteStride, cb := Some(info[1].offset));
          value := value.(cr := Some(value.cb.value + 1), chromaStep := 2);
        case NV21 =>
          value := value.(cStride := info[1].byteStride, cr := Some(info[1].offset));
          value := value.(cb := Some(value.cr.value + 1), chromaStep := 2);
        case YV12 =>
          value := value.(cStride := info[1].byteStride, cr := Some(info[1].offset), cb := Some(info[2].offset),
          chromaStep := 1);
        case YU12 =>
          value := value.(cStride := info[1].byteStride, cb := Some(info[1].offset), cr := Some(info[2].offset),
          chromaStep := 1);
        case _ => handled := false;
      }
    }
  }

  /**
   * mali_gralloc_lock_ycbcr up to the cache synchronisation. The output is only checked with CPU usage: without it the
   * source writes through the pointer as it is, so the caller has to pass one.
   */
  method LockYcbcr(region: LockStatus, id: BaseFormat, info: seq<PlaneInfo>, cpu: bool, mapped: bool, out: YcbcrOut?)
    returns (status: LockStatus)
    requires |info| == 3
    requires region == Locked && HasInfo(id) && Info(id).isYuv && !cpu ==> out != null
    modifies out
    ensures status == YcbcrStatus(region, id, cpu, out != null, mapped)
    ensures status == Locked ==>
      out != null && out.value == if cpu then YcbcrOf(YcbcrChannels(id).value, info) else NO_YCBCR
    ensures status != Locked && status != NotHandled && out != null ==> out.value == old(out.value)
  {
    hide Info, WellFormed, YcbcrOf;
    if region != Locked {
      return region;
    }
    var f := GetFormatInfo(id);
    if f.None? {
      return UnknownFormat;
    }
    if !f.value.isYuv {
      return NotYuv;
    }
    if cpu {
      if out == null {
        return NoOutput;
      }
      if !mapped {
        return MapFailed;
      }
      var handled := out.Fill(id, info);
      if !handled {
        return NotHandled;
      }
    } else {
      out.value := NO_YCBCR;
    }
    return Locked;
  }
}
