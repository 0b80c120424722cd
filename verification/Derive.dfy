/**
 * mali_gralloc_derive_format_and_size: dimension adjustment, the layout, the Rockchip video enlargement and
 * the layers, written into the buffer descriptor.
 */
module Derive {
  import opened Alignment
  import opened Usages
  import opened Formats
  import opened InternalFormats
  import opened AllocTypes
  import opened Layout
  import opened Ips

  // ----- dimension adjustment -----

  predicate DepthOrStencil(id: BaseFormat) {
    id == STENCIL_8 || id == DEPTH_16 || id == DEPTH_24 || id == DEPTH_24_STENCIL_8 || id == DEPTH_32F
    || id == DEPTH_32F_STENCIL_8
  }

  function HeightGrain(usage: bv64): (g: nat)
    ensures g > 0
  {
    var flags := usage & HEIGHT_ALIGN_MASK;
    if flags == HEIGHT_ALIGN_8 then 8
    else if flags == HEIGHT_ALIGN_16 then 16
    else if flags == HEIGHT_ALIGN_8 | HEIGHT_ALIGN_16 then 64
    else 1
  }

  /** What the adjustment depends on: the format and usage, not the size. */
  datatype Adjustment = Adjustment(heightGrain: nat, doubled: bool, gpuAfbc: bool)

  function AdjustmentOf(fmt: InternalFormat, usage: bv64): (a: Adjustment)
    ensures a.heightGrain > 0
  {
    Adjustment(HeightGrain(usage), DepthOrStencil(fmt.base), GPU in GetProducers(usage) && fmt.IsAfbc())
  }

  function AdjustedWidth(a: Adjustment, width: nat): nat {
    if a.gpuAfbc then Align(width, 16) else width
  }

  function AdjustedHeight(a: Adjustment, height: nat): nat
    requires a.heightGrain > 0
  {
    var h := Align(height, a.heightGrain);
    var doubled := if a.doubled then 2 * h else h;
    if a.gpuAfbc then Align(doubled, 16) else doubled
  }

  method AdjustDimensions(fmt: InternalFormat, usage: bv64, width: nat, height: nat) returns (w: nat, h: nat)
    ensures w == AdjustedWidth(AdjustmentOf(fmt, usage), width)
    ensures h == AdjustedHeight(AdjustmentOf(fmt, usage), height)
  {
    hide Mul, Div, GetProducers;
    w, h := width, height;
    AlignOne(height);
    var flags := usage & HEIGHT_ALIGN_MASK;
    if flags == HEIGHT_ALIGN_8 {
      h := Align(h, 8);
    } else if flags == HEIGHT_ALIGN_16 {
      h := Align(h, 16);
    } else if flags == HEIGHT_ALIGN_8 | HEIGHT_ALIGN_16 {
      h := Align(h, 64);
    }
    if DepthOrStencil(fmt.base) {
      h := h * 2;
    }
    if GPU in GetProducers(usage) {
      if fmt.IsAfbc() {
        w := Align(w, 16);
        h := Align(h, 16);
      }
    }
  }

  /** Adjusted dimensions cover the requested ones and meet every alignment that was asked for. */
  lemma AdjustmentCovers(a: Adjustment, width: nat, height: nat)
    requires a.heightGrain > 0
    ensures width <= AdjustedWidth(a, width)
    ensures (if a.doubled then 2 * height else height) <= AdjustedHeight(a, height)
    ensures a.gpuAfbc ==> Divides(16, AdjustedWidth(a, width)) && Divides(16, AdjustedHeight(a, height))
    ensures !a.gpuAfbc ==> AdjustedWidth(a, width) == width && Divides(a.heightGrain, AdjustedHeight(a, height))
  {
    hide Mul, Div, Divides, Align;
    AlignDivides(height, a.heightGrain);
    AlignDivides(width, 16);
    var h := Align(height, a.heightGrain);
    AlignDivides(h, 16);
    AlignDivides(2 * h, 16);
    DividesSum(a.heightGrain, h, h);
  }

  /** The grid a usage asks for: eight rows, sixteen, or 64 with both flags. */
  function RowsAsked(usage: bv64): (g: nat)
    ensures g > 0
  {
    if Has(usage, HEIGHT_ALIGN_8) && Has(usage, HEIGHT_ALIGN_16) then 64
    else if Has(usage, HEIGHT_ALIGN_16) then 16
    else if Has(usage, HEIGHT_ALIGN_8) then 8
    else 1
  }

  /**
   * The adjusted size is the least that meets what was asked for. Twice the rows go to exactly those formats that are
   * neither RGB nor YUV, neither aligned in pixels (as RAW is) nor BLOB.
   */
  lemma AdjustmentIsLeast(fmt: InternalFormat, usage: bv64, width: nat, height: nat)
    requires HasInfo(fmt.base)
    ensures var a, f := AdjustmentOf(fmt, usage), Info(fmt.base);
      var rows := if !f.isRgb && !f.isYuv && f.alignW == 1 && fmt.base != BLOB then 2 else 1;
      var asked := rows * RowsAsked(usage);
      && rows * height <= AdjustedHeight(a, height)
      && (if a.gpuAfbc then
            && Divides(16, AdjustedWidth(a, width)) && AdjustedWidth(a, width) < width + 16
            && Divides(16, AdjustedHeight(a, height)) && AdjustedHeight(a, height) < rows * height + asked + 16
          else
            && AdjustedWidth(a, width) == width
            && Divides(asked, AdjustedHeight(a, height)) && AdjustedHeight(a, height) < rows * height + asked)
  {
    GrainIsAsked(usage);
    DoubledRows(fmt.base);
    hide Mul, Div, Divides, Align, Info, HeightGrain, RowsAsked, DepthOrStencil, GetProducers, InternalFormat.IsAfbc;
    var h := Align(height, RowsAsked(usage));
    AlignDivides(height, RowsAsked(usage));
    AlignDivides(width, 16);
    AlignDivides(if DepthOrStencil(fmt.base) then 2 * h else h, 16);
    TwiceDivides(RowsAsked(usage), h);
  }

  lemma TwiceDivides(g: nat, h: nat)
    requires Divides(g, h)
    ensures Divides(2 * g, 2 * h)
  {
    var k := h / g;
    Quotient(g, h);
    ProductDivides(k, 2 * g);
    assert k * (2 * g) == 2 * (k * g);
  }

  lemma GrainIsAsked(usage: bv64)
    ensures HeightGrain(usage) == RowsAsked(usage)
  {
  }

  lemma DoubledRows(id: BaseFormat)
    requires HasInfo(id)
    ensures DepthOrStencil(id) <==> !Info(id).isRgb && !Info(id).isYuv && Info(id).alignW == 1 && id != BLOB
  {
    if DepthOrStencil(id) {
      match id {
        case STENCIL_8 => case DEPTH_16 => case DEPTH_24 => case DEPTH_24_STENCIL_8 => case DEPTH_32F =>
        case DEPTH_32F_STENCIL_8 =>
      }
    } else if id != BLOB {
      OtherRows(id);
    }
  }

  lemma OtherRows(id: BaseFormat)
    requires HasInfo(id) && !DepthOrStencil(id) && id != BLOB
    ensures Info(id).isRgb || Info(id).isYuv || Info(id).alignW > 1
  {
    match id {
      case RGB_565 => case RGB_888 => case BGR_888 => case RGBA_8888 => case BGRA_8888 => case RGBX_8888 =>
      case RGBA_1010102 => case RGBA_16161616 => case RGBA_10101010 => case Y8 => case Y16 =>
      case YUV420_8BIT_I => case NV12 => case NV21 => case YV12 => case YU12 => case YUV422_8BIT =>
      case NV16 => case NV24 => case YUV444 => case NV30 => case Q410 => case Q401 => case YUV420_10BIT_I =>
      case Y0L2 => case P010 => case NV15 => case Y210 => case P210 => case Y410 => case RAW16 => case RAW12 =>
      case RAW10 => case R8 =>
    }
  }

  lemma AlignOne(x: nat)
    ensures Align(x, 1) == x
  {
    AlignFixed(x, 1);
  }

  // ----- the layout of a selected format -----

  function RequestFor(fmt: InternalFormat, at: AllocType, usage: bv64, width: nat, height: nat): Request
    requires HasInfo(fmt.base)
  {
    Request(AdjustedWidth(AdjustmentOf(fmt, usage), width), AdjustedHeight(AdjustmentOf(fmt, usage), height),
            at, Info(fmt.base), LayoutUsageOf(usage))
  }

  // ----- Rockchip video enlargement -----

  /** The video decoder keeps metadata behind the picture; other formats need nothing. */
  function RkVideoNeeds(f: FormatInfo, stride: nat, height: nat): nat
    requires f.bpp.p0 > 0
  {
    var pixelStride := Div(stride * 8, f.bpp.p0);
    match f.id
    case NV12 => Mul(2 * pixelStride, height)
    case NV16 => Mul(5 * pixelStride, height) / 2
    case NV15 => Mul(2 * stride, height)
    case NV24 => Mul(3 * stride, height)
    case _ => 0
  }

  predicate RkEnlarges(f: FormatInfo, u: LayoutUsage) {
    RkVideo(f.id) && (u.strideSpecified || u.stride != NoRequest)
  }

  function LayerSize(q: Request): nat
    requires Computable(q) && (RkEnlarges(q.f, q.u) ==> q.f.bpp.p0 > 0)
  {
    if RkEnlarges(q.f, q.u) then
      Max(TotalSize(q), RkVideoNeeds(q.f, ByteStride(q, 0), PlaneHeight(q, 0)))
    else TotalSize(q)
  }

  // ----- layers -----

  function LayerGrain(at: AllocType): (g: nat)
    ensures g > 0
  {
    if at.IsAfbc() then (if at.tiled then 4096 else 128) else 1
  }

  /** The distance between two layers. */
  function LayerStep(q: Request, layers: nat): nat
    requires Computable(q) && (RkEnlarges(q.f, q.u) ==> q.f.bpp.p0 > 0)
  {
    if layers > 1 then Align(LayerSize(q), LayerGrain(q.at)) else LayerSize(q)
  }

  function AllocationSize(q: Request, layers: nat): nat
    requires Computable(q) && (RkEnlarges(q.f, q.u) ==> q.f.bpp.p0 > 0)
  {
    if layers > 1 then Mul(LayerStep(q, layers), layers) else LayerSize(q)
  }

  // ----- the procedure -----

  datatype DeriveError = UnknownFormat | NoAllocType | InvalidFormat | DivisionByZero

  datatype Derived = Derived(request: Request) | Rejected(error: DeriveError)

  /** The outcome for a selected format: the layout request it leads to, or the error. */
  function DeriveOutcome(fmt: InternalFormat, usage: bv64, width: nat, height: nat): Derived {
    if !HasInfo(fmt.base) then Rejected(UnknownFormat)
    else
      match AllocTypeOf(fmt, usage)
      case None => Rejected(NoAllocType)
      case Some(at) =>
        var f := Info(fmt.base);
        if !ValidFormat(f, at, height) then Rejected(InvalidFormat)
        else if RkEnlarges(f, LayoutUsageOf(usage)) && f.bpp.p0 == 0 then Rejected(DivisionByZero)
        else Derived(RequestFor(fmt, at, usage, width, height))
  }

  lemma DerivedIsSane(fmt: InternalFormat, usage: bv64, width: nat, height: nat)
    requires DeriveOutcome(fmt, usage, width, height).Derived?
    ensures var q := DeriveOutcome(fmt, usage, width, height).request;
      && Sane(q) && Computable(q) && q.f == Info(fmt.base) && q.f.id == fmt.base
      && (RkEnlarges(q.f, q.u) ==> q.f.bpp.p0 > 0)
  {
    hide Info, AllocTypeOf, ValidFormat, WellFormed, Fits, Computable, AdjustmentOf;
    AcceptedTypesFit(fmt, usage, height);
    SaneIsComputable(DeriveOutcome(fmt, usage, width, height).request);
  }

  /**
   * The enlargement divides by the linear depth of plane 0, which the two AFBC-only interleaved formats leave at
   * zero. An accepted request reaches that division exactly for those two formats with a stride usage.
   */
  lemma DivisionByZeroExactlyWhen(fmt: InternalFormat, usage: bv64, width: nat, height: nat)
    requires HasInfo(fmt.base) && AllocTypeOf(fmt, usage).Some?
    requires ValidFormat(Info(fmt.base), AllocTypeOf(fmt, usage).value, height)
    ensures DeriveOutcome(fmt, usage, width, height) == Rejected(DivisionByZero) <==>
            (fmt.base == YUV420_8BIT_I || fmt.base == YUV420_10BIT_I)
            && (Has(usage, SPECIFY_STRIDE) || StrideRequestOf(usage) != NoRequest)
  {
    hide AllocTypeOf, ValidFormat, Has, StrideRequestOf, AdjustmentOf;
    RkDepths(fmt.base);
  }

  lemma RkDepths(id: BaseFormat)
    requires HasInfo(id)
    ensures Info(id).id == id
    ensures RkVideo(id) ==> (Info(id).bpp.p0 == 0 <==> id == YUV420_8BIT_I || id == YUV420_10BIT_I)
    ensures id == YUV420_8BIT_I || id == YUV420_10BIT_I ==> RkVideo(id)
  {
    RowShape(id);
  }

  class BufferDescriptor {
    var width: nat
    var height: nat
    var usage: bv64
    var layerCount: nat
    var allocFormat: InternalFormat
    var pixelStride: nat
    var size: nat
    const planes: array<PlaneInfo>

    constructor (width: nat, height: nat, usage: bv64, layerCount: nat)
      ensures this.width == width && this.height == height && this.usage == usage && this.layerCount == layerCount
      ensures size == 0 && pixelStride == 0 && allocFormat == INVALID
      ensures planes.Length == 3 && planes[..] == [NO_PLANE, NO_PLANE, NO_PLANE] && fresh(planes)
    {
      this.width, this.height, this.usage, this.layerCount := width, height, usage, layerCount;
      allocFormat, pixelStride, size := INVALID, 0, 0;
      planes := new PlaneInfo[3](_ => NO_PLANE);
    }

    /** adjust_rk_video_buffer_size */
    method AdjustRkVideoSize(f: FormatInfo)
      requires planes.Length == 3 && f.bpp.p0 > 0
      modifies this`size
      ensures size == Max(old(size), RkVideoNeeds(f, planes[0].byteStride, planes[0].allocHeight))
    {
      hide Mul, Div;
      var pixelStride := Div(planes[0].byteStride * 8, f.bpp.p0);
      var needed := 0;
      match f.id {
        case NV12 => needed := Mul(2 * pixelStride, planes[0].allocHeight);
        case NV16 => needed := Mul(5 * pixelStride, planes[0].allocHeight) / 2;
        case NV15 => needed := Mul(2 * planes[0].byteStride, planes[0].allocHeight);
        case NV24 => needed := Mul(3 * planes[0].byteStride, planes[0].allocHeight);
        case _ =>
      }
      if needed > size {
        size := needed;
      }
    }

    /**
     * The derivation for a format chosen by the selector: on success the descriptor holds the layout of the
     * outcome's request; on an error only the chosen format has been recorded.
     */
    method DeriveFormatAndSize(selected: InternalFormat) returns (r: Derived)
      requires planes.Length == 3
      modifies this`allocFormat, this`pixelStride, this`size, planes
      ensures allocFormat == selected
      ensures r == DeriveOutcome(selected, usage, width, height)
      ensures r.Rejected? ==> size == old(size) && pixelStride == old(pixelStride) && planes[..] == old(planes[..])
      ensures r.Derived? ==>
        && Computable(r.request) && (RkEnlarges(r.request.f, r.request.u) ==> r.request.f.bpp.p0 > 0)
        && size == AllocationSize(r.request, layerCount)
        && pixelStride == PixelStride(r.request)
        && (forall p: nat :: p < r.request.f.npln ==> planes[p] == Plane(r.request, p))
        && (forall p :: r.request.f.npln <= p < 3 ==> planes[p] == old(planes[p]))
    {
      hide Info, AllocTypeOf, ValidFormat, LayoutUsageOf, AdjustmentOf, AdjustedWidth, AdjustedHeight, WellFormed,
        Fits, Mul, Div, Divides, TotalSize, PixelStride, RkVideoNeeds, RkVideo, RequestFor;
      allocFormat := selected;
      var info := GetFormatInfo(allocFormat.base);
      if info.None? {
        return Rejected(UnknownFormat);
      }
      var f := info.value;
      var allocType := GetAllocType(allocFormat, usage);
      if allocType.None? {
        return Rejected(NoAllocType);
      }
      var at := allocType.value;
      if !ValidFormat(f, at, height) {
        return Rejected(InvalidFormat);
      }
      var w, h := AdjustDimensions(allocFormat, usage, width, height);
      var q := Request(w, h, at, f, LayoutUsageOf(usage));
      assert q == RequestFor(selected, at, usage, width, height) by {
        RequestIs(selected, at, usage, width, height);
      }
      if RkEnlarges(f, q.u) && f.bpp.p0 == 0 {
        // The source divides by zero here; nothing after that point is modelled.
        return Rejected(DivisionByZero);
      }
      r := Derived(q);
      DerivedIsSane(selected, usage, width, height);
      pixelStride, size := CalcAllocationSize(q, planes);
      if RkEnlarges(f, q.u) {
        AdjustRkVideoSize(f);
      }
      if layerCount > 1 {
        if at.IsAfbc() {
          if at.tiled {
            size := Align(size, 4096);
          } else {
            size := Align(size, 128);
          }
        } else {
          AlignOne(size);
        }
        size := Mul(size, layerCount);
      }
    }
  }

  lemma RequestIs(fmt: InternalFormat, at: AllocType, usage: bv64, width: nat, height: nat)
    requires HasInfo(fmt.base)
    ensures RequestFor(fmt, at, usage, width, height)
         == Request(AdjustedWidth(AdjustmentOf(fmt, usage), width), AdjustedHeight(AdjustmentOf(fmt, usage), height),
                    at, Info(fmt.base), LayoutUsageOf(usage))
  {
  }
}
