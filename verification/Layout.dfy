/**
 * The layout engine of buffer_allocation.cpp: plane dimensions, byte strides, offsets and the total size.
 *
 * The functions say what each plane's numbers are; CalcAllocationSize is the source's loop, which fills an
 * array of planes in place and is proved to leave exactly those numbers in it.
 */
module Layout {
  import opened Alignment
  import opened Euclid
  import opened Usages
  import opened Formats
  import opened AllocTypes

  datatype LayoutUsage = LayoutUsage(cpu: bool, hw: bool, strideSpecified: bool, stride: StrideRequest)

  function LayoutUsageOf(usage: bv64): LayoutUsage {
    LayoutUsage(HasCpu(usage), HasHardware(usage), Has(usage, SPECIFY_STRIDE), StrideRequestOf(usage))
  }

  datatype PlaneInfo = PlaneInfo(offset: nat, byteStride: nat, allocWidth: nat, allocHeight: nat)

  const NO_PLANE := PlaneInfo(0, 0, 0, 0)

  /** One call of calc_allocation_size. */
  datatype Request = Request(width: nat, height: nat, at: AllocType, f: FormatInfo, u: LayoutUsage)

  /** A well-formed table row together with an allocation type accepted for it. */
  ghost predicate Sane(q: Request) {
    WellFormed(q.f) && Fits(q.at, q.f)
  }

  /** Every divisor the layout computation uses is non-zero. */
  ghost predicate Computable(q: Request) {
    && Shape(q.f)
    && (q.at.IsAfrc() ==>
          && q.at.afrc.tileW > 0 && q.at.afrc.tileH > 0 && q.at.afrc.lumaAlign > 0 && q.at.afrc.chromaAlign > 0
          && forall p: nat :: p < 3 && p < q.f.npln ==> q.at.afrc.clumpW.At(p) > 0 && q.at.afrc.clumpH.At(p) > 0)
    && (q.at.IsBlockLinear() ==> q.f.npln > 1 ==> q.f.hsub <= 16 && q.f.vsub <= 16)
    && (q.at.IsLinear() ==> q.f.bpp.p0 > 0)
  }

  lemma SaneIsComputable(q: Request)
    requires Sane(q)
    ensures Computable(q)
  {
    if q.at.IsAfrc() {
      forall p: nat | p < 3 && p < q.f.npln
        ensures q.at.afrc.clumpW.At(p) > 0 && q.at.afrc.clumpH.At(p) > 0
      {
        assert ClumpFits(q.at.afrc, q.at.afrc.clumpW.At(p), q.at.afrc.clumpH.At(p));
      }
    }
  }

  lemma PlaneCount(q: Request)
    requires Computable(q)
    ensures Shape(q.f) && 1 <= q.f.npln <= 3
  {
  }

  // ----- plane dimensions -----

  function SchemeSbWidth(s: Scheme): nat {
    match s
    case AfbcBasic => 16
    case AfbcWide => 32
    case AfbcExtraWide => 64
    case _ => 0
  }

  function SchemeSbHeight(s: Scheme): nat {
    match s
    case AfbcBasic => 16
    case AfbcWide => 8
    case AfbcExtraWide => 4
    case _ => 0
  }

  /** The superblock scheme of a plane: chroma planes of multi-plane AFBC are always extra-wide. */
  function PlaneScheme(at: AllocType, p: nat): Scheme {
    if p > 0 && at.IsAfbc() && at.multiPlane then AfbcExtraWide else at.scheme
  }

  function SbWidth(at: AllocType, p: nat): nat { SchemeSbWidth(PlaneScheme(at, p)) }
  function SbHeight(at: AllocType, p: nat): nat { SchemeSbHeight(PlaneScheme(at, p)) }

  /** Tiled headers group superblocks into tiles of 8x8, or 4x4 above 32 bits per pixel. */
  function TileSide(q: Request, p: nat, superblock: nat): nat
    requires p < 3
  {
    if !q.at.tiled then superblock else if q.f.bppAfbc.At(p) > 32 then 4 * superblock else 8 * superblock
  }

  function WidthUnit(q: Request, p: nat): (r: nat)
    requires p < 3
    ensures r > 0
  {
    var unit: nat :=
      if q.u.cpu then q.f.alignWCpu
      else if q.at.IsAfbc() then
        Max(if q.at.padded && !q.f.isYuv then 4 * SbWidth(q.at, p) else 0, TileSide(q, p, SbWidth(q.at, p)))
      else if q.at.IsAfrc() then Mul(q.at.afrc.tileW, q.at.afrc.clumpW.At(p))
      else if q.at.IsBlockLinear() then 16
      else 1;
    Max(Max(1, unit), q.f.tileSize)
  }

  function HeightUnit(q: Request, p: nat): (r: nat)
    requires p < 3
    ensures r > 0
  {
    var unit: nat :=
      if q.u.cpu then 1
      else if q.at.IsAfbc() then
        var tile := TileSide(q, p, SbHeight(q.at, p));
        if q.at.scheme == AfbcWide && !q.at.tiled then Max(tile, 16) else tile
      else if q.at.IsAfrc() then Mul(q.at.afrc.tileH, q.at.afrc.clumpH.At(p))
      else if q.at.IsBlockLinear() then 16
      else 1;
    Max(Max(1, unit), q.f.tileSize)
  }

  /** The number of sample sites of plane p along an axis of `size` pixels, after the format's own alignment. */
  function Sites(size: nat, align: nat, sub: nat, p: nat): nat
    requires align > 0 && (p > 0 ==> sub > 0)
  {
    if p > 0 then Div(Align(size, align), sub) else Align(size, align)
  }

  function PlaneWidth(q: Request, p: nat): nat
    requires Shape(q.f) && p < q.f.npln
  {
    Align(Sites(q.width, q.f.alignW, q.f.hsub, p), WidthUnit(q, p))
  }

  function PlaneHeight(q: Request, p: nat): nat
    requires Shape(q.f) && p < q.f.npln
  {
    Align(Sites(q.height, q.f.alignH, q.f.vsub, p), HeightUnit(q, p))
  }

  // ----- byte strides -----

  function HwAlign(q: Request): nat {
    if !q.u.hw then 0
    else if RkVideo(q.f.id) && (q.u.strideSpecified || q.u.stride != NoRequest) then 1
    else if q.f.isYuv then 128
    else 64
  }

  function CpuAlign(q: Request, p: nat): nat
    requires p < 3
  {
    if q.u.cpu && q.f.id != BGR_888 then Mul(q.f.bpp.At(p), q.f.alignWCpu) / 8 else 0
  }

  function StrideAlign(q: Request, p: nat): nat
    requires p < 3
  {
    Lcm(HwAlign(q), CpuAlign(q, p))
  }

  /** The source's ((x + 255) & ~255) | 256 as arithmetic; OddStride shows that the two agree. */
  function OddMultipleOf256(x: nat): nat {
    512 * ((x + 255) / 512) + 256
  }

  function RoundToRequest(x: nat, r: StrideRequest): nat {
    match r
    case Align16 => Align(x, 16)
    case Align64 => Align(x, 64)
    case Align128 => Align(x, 128)
    case OddTimes256 => OddMultipleOf256(x)
    case NoRequest => x
    case Conflicting => x
  }

  /** The stride of the bare pixels, aligned for hardware and CPU. */
  function AlignedStride(q: Request, p: nat): nat
    requires Shape(q.f) && p < q.f.npln
  {
    var raw := Mul(PlaneWidth(q, p), q.f.bpp.At(p)) / 8;
    var unit := StrideAlign(q, p);
    if unit == 0 then raw else Div(Align(Mul(raw, q.f.tileSize), unit), q.f.tileSize)
  }

  predicate Yv12Shared(q: Request) {
    q.f.id == YV12 && q.u.hw && q.u.cpu
  }

  function LinearStride(q: Request, p: nat): nat
    requires Shape(q.f) && p < q.f.npln
    decreases p
  {
    if q.f.id == NV12 && q.u.stride != NoRequest then
      // A conflicting request leaves the source's local pixel stride at zero.
      var pixels := if q.u.stride == Conflicting then 0 else RoundToRequest(q.width, q.u.stride);
      if p == 0 then Mul(pixels, q.f.bpp.At(p)) / 8 else Div(Mul(pixels, q.f.bpp.At(p)) / 8, q.f.hsub)
    else
      var shared :=
        if !Yv12Shared(q) then AlignedStride(q, p)
        else if p == 0 then Align(AlignedStride(q, 0), Max(1, 2 * StrideAlign(q, 0)))
        else LinearStride(q, 0) / 2;
      var requested := RoundToRequest(shared, q.u.stride);
      if q.f.id == NV30 then Align(requested, 64) else requested
  }

  function AfrcUnit(q: Request, p: nat): nat {
    if p == 0 then q.at.afrc.lumaUnit else q.at.afrc.chromaUnit
  }

  function AfrcPlaneAlign(q: Request, p: nat): nat {
    if p == 0 then q.at.afrc.lumaAlign else q.at.afrc.chromaAlign
  }

  function AfrcStride(q: Request, p: nat): nat
    requires Computable(q) && q.at.IsAfrc() && p < q.f.npln
  {
    var a := q.at.afrc;
    var tiles := Div(Div(PlaneWidth(q, p), a.clumpW.At(p)), a.tileW);
    MulFacts(a.tileH, a.clumpH.At(p));
    Div(Mul(64 * tiles, AfrcUnit(q, p)), Mul(a.tileH, a.clumpH.At(p)))
  }

  /** Width and height of a 16x16 block as stored in plane p. */
  function BlockSide(p: nat, sub: nat): nat
    requires p > 0 ==> sub > 0
  {
    if p > 0 then Div(16, sub) else 16
  }

  lemma BlockSidePositive(p: nat, sub: nat)
    requires p > 0 ==> 0 < sub <= 16
    ensures BlockSide(p, sub) > 0
  {
    if p > 0 {
      DivMono(sub, 16, sub);
      MulFacts(1, sub);
      DivOfProduct(1, sub);
    }
  }

  function BlockLinearStride(q: Request, p: nat): nat
    requires Computable(q) && q.at.IsBlockLinear() && p < q.f.npln
  {
    var h, w := BlockSide(p, q.f.vsub), BlockSide(p, q.f.hsub);
    BlockSidePositive(p, q.f.vsub);
    Div(Mul(PlaneWidth(q, 0) / 16, Mul(Mul(h, w), q.f.bpp.At(p)) / 8), h)
  }

  function ByteStride(q: Request, p: nat): nat
    requires Computable(q) && p < q.f.npln
  {
    if q.at.IsAfrc() then AfrcStride(q, p)
    else if q.at.IsAfbc() then Mul(PlaneWidth(q, p), q.f.bppAfbc.At(p)) / 8
    else if q.at.IsBlockLinear() then BlockLinearStride(q, p)
    else LinearStride(q, p)
  }

  // ----- sizes and offsets -----

  function AfbcGrain(tiled: bool): nat {
    if tiled then 4096 else 1024
  }

  function SuperblockCount(q: Request, p: nat): nat
    requires Shape(q.f) && p < q.f.npln
  {
    Mul(PlaneWidth(q, p), PlaneHeight(q, p)) / 256
  }

  function HeaderSize(q: Request, p: nat): nat
    requires Shape(q.f) && p < q.f.npln
  {
    if q.at.IsAfbc() then Align(SuperblockCount(q, p) * 16, AfbcGrain(q.at.tiled)) else 0
  }

  function SuperblockBytes(q: Request, p: nat): nat
    requires p < 3
  {
    Align(Mul(q.f.bppAfbc.At(p), Mul(SbWidth(q.at, p), SbHeight(q.at, p))) / 8, 128)
  }

  /** One AFBC body: padded to the header grain when another plane may follow it. */
  function SingleBody(q: Request, p: nat): nat
    requires Shape(q.f) && p < q.f.npln
  {
    var bare := Mul(SuperblockCount(q, p), SuperblockBytes(q, p));
    if q.f.npln > 1 && p < 2 then Align(bare, AfbcGrain(q.at.tiled)) else bare
  }

  function BodySize(q: Request, p: nat): nat
    requires Computable(q) && p < q.f.npln
  {
    if q.at.IsAfbc() then
      var one := SingleBody(q, p);
      if q.at.frontBufferSafe then one + Align(one, AfbcGrain(q.at.tiled)) else one
    else if q.at.IsAfrc() then
      Mul(Mul(Div(PlaneWidth(q, p), q.at.afrc.clumpW.At(p)), Div(PlaneHeight(q, p), q.at.afrc.clumpH.At(p))),
          AfrcUnit(q, p))
    else if q.at.IsBlockLinear() then
      Mul(Mul(BlockLinearStride(q, p), BlockSide(p, q.f.vsub)), PlaneHeight(q, 0) / 16)
    else
      Mul(LinearStride(q, p), PlaneHeight(q, p))
  }

  function Start(q: Request, p: nat): nat
    requires Computable(q) && p < q.f.npln
    decreases p, 0
  {
    var before := if p == 0 then 0 else End(q, p - 1);
    if q.at.IsAfrc() then Align(before, AfrcPlaneAlign(q, p)) else before
  }

  function End(q: Request, p: nat): nat
    requires Computable(q) && p < q.f.npln
    decreases p, 1
  {
    Start(q, p) + HeaderSize(q, p) + BodySize(q, p)
  }

  lemma FirstPlaneStartsAtZero(q: Request)
    requires Computable(q)
    ensures Start(q, 0) == 0
  {
    if q.at.IsAfrc() {
      ProductDivides(0, AfrcPlaneAlign(q, 0));
      AlignFixed(0, AfrcPlaneAlign(q, 0));
    }
  }

  function TotalSize(q: Request): nat
    requires Computable(q)
  {
    End(q, q.f.npln - 1)
  }

  function Plane(q: Request, p: nat): PlaneInfo
    requires Computable(q) && p < q.f.npln
  {
    PlaneInfo(Start(q, p), ByteStride(q, p), PlaneWidth(q, p), PlaneHeight(q, p))
  }

  function PixelStride(q: Request): nat
    requires Computable(q)
  {
    if q.at.IsLinear() && q.u.cpu then Div(LinearStride(q, 0) * 8, q.f.bpp.p0) else 0
  }

  // ----- the source's procedures -----

  method GetPixelWH(width: nat, height: nat, q: Request, p: nat) returns (w: nat, h: nat)
    requires Shape(q.f) && p < q.f.npln
    requires width == q.width && height == q.height
    ensures w == PlaneWidth(q, p) && h == PlaneHeight(q, p)
  {
    hide Mul, Div, Divides, Align;
    w, h := Align(width, q.f.alignW), Align(height, q.f.alignH);
    if p > 0 {
      w, h := Div(w, q.f.hsub), Div(h, q.f.vsub);
    }
    var alignW: nat, alignH: nat := 1, 1;
    if q.u.cpu {
      alignW := q.f.alignWCpu;
    } else if q.at.IsAfbc() {
      var sbW, sbH := SbWidth(q.at, p), SbHeight(q.at, p);
      var padding := 0;
      if q.at.padded && !q.f.isYuv {
        padding := 4;
      }
      alignW := Max(0, padding) * sbW;
      var tileW, tileH := sbW, sbH;
      if q.at.tiled {
        tileW := if q.f.bppAfbc.At(p) > 32 then 4 * tileW else 8 * tileW;
        tileH := if q.f.bppAfbc.At(p) > 32 then 4 * tileH else 8 * tileH;
      }
      alignW := Max(alignW, tileW);
      alignH := Max(alignH, tileH);
      if q.at.scheme == AfbcWide && !q.at.tiled {
        alignH := Max(alignH, 16);
      }
    } else if q.at.IsAfrc() {
      alignW := Mul(q.at.afrc.tileW, q.at.afrc.clumpW.At(p));
      alignH := Mul(q.at.afrc.tileH, q.at.afrc.clumpH.At(p));
    } else if q.at.IsBlockLinear() {
      alignW, alignH := 16, 16;
    }
    w := Align(w, Max(Max(1, alignW), q.f.tileSize));
    h := Align(h, Max(Max(1, alignH), q.f.tileSize));
  }

  /**
   * update_yv12_stride: the luma stride becomes the least multiple of twice the alignment that is not below it. The
   * chroma stride is half of luma; once luma has been through here both of the source's assertions about it hold.
   */
  method UpdateYv12Stride(p: nat, lumaStride: nat, strideAlign: nat) returns (byteStride: nat)
    requires strideAlign > 0
    ensures p == 0 ==>
      Divides(2 * strideAlign, byteStride) && lumaStride <= byteStride < lumaStride + 2 * strideAlign
    ensures p > 0 ==> 2 * byteStride <= lumaStride <= 2 * byteStride + 1
    ensures p > 0 && Divides(2 * strideAlign, lumaStride) ==>
      && Divides(strideAlign, byteStride) && 2 * byteStride == lumaStride
      && (Divides(16, strideAlign) ==> Divides(16, byteStride))
  {
    hide Mul, Div, Align, Divides;
    if p == 0 {
      byteStride := Align(lumaStride, 2 * strideAlign);
      AlignDivides(lumaStride, 2 * strideAlign);
    } else {
      byteStride := lumaStride / 2;
      if Divides(2 * strideAlign, lumaStride) {
        DoubleDivides(strideAlign, lumaStride);
        if Divides(16, strideAlign) {
          DividesTransitive(16, strideAlign, byteStride);
        }
      }
    }
  }

  /** For YV12 the CPU alignment is 16 bytes and the hardware alignment 128, so their lcm is 128. */
  lemma Yv12StrideAlign(q: Request, p: nat)
    requires WellFormed(q.f) && Yv12Shared(q) && p < 3
    ensures StrideAlign(q, p) == 128 && Shape(q.f) && q.f.npln == 3
  {
    assert CpuAlign(q, p) == 16;
    assert HwAlign(q) == 128;
    assert Gcd(128, 16) == Gcd(16, 0) == 16;
  }

  /** Byte stride of the bare pixels, aligned to the common multiple of the hardware and CPU alignments. */
  method AlignStride(q: Request, p: nat, allocWidth: nat) returns (byteStride: nat, strideAlign: nat)
    requires Shape(q.f) && p < q.f.npln && allocWidth == PlaneWidth(q, p)
    ensures byteStride == AlignedStride(q, p) && strideAlign == StrideAlign(q, p)
  {
    hide Mul, Div, Divides, Align, Lcm, PlaneWidth;
    byteStride := Mul(allocWidth, q.f.bpp.At(p)) / 8;
    var hwAlign := 0;
    if q.u.hw {
      if RkVideo(q.f.id) && (q.u.strideSpecified || q.u.stride != NoRequest) {
        hwAlign := 1;
      } else {
        hwAlign := if q.f.isYuv then 128 else 64;
      }
    }
    var cpuAlign := 0;
    if q.u.cpu && q.f.id != BGR_888 {
      cpuAlign := Mul(q.f.bpp.At(p), q.f.alignWCpu) / 8;
    }
    strideAlign := ComputeLcm(hwAlign, cpuAlign);
    if strideAlign != 0 {
      byteStride := Div(Align(Mul(byteStride, q.f.tileSize), strideAlign), q.f.tileSize);
    }
  }

  /** The stride of an NV12 plane with a stride flag: the rounded width in pixels, turned into bytes. */
  method RequestedNv12Stride(q: Request, p: nat) returns (byteStride: nat)
    requires Shape(q.f) && p < q.f.npln && q.f.id == NV12 && q.u.stride != NoRequest
    ensures byteStride == LinearStride(q, p)
  {
    hide Mul, Div, Align, AlignedStride, RoundToRequest;
    var pixelStride := 0;
    if q.u.stride != Conflicting {
      pixelStride := RoundToRequest(q.width, q.u.stride);
    }
    if p == 0 {
      byteStride := Mul(pixelStride, q.f.bpp.At(p)) / 8;
    } else {
      byteStride := Div(Mul(pixelStride, q.f.bpp.At(p)) / 8, q.f.hsub);
    }
  }

  /** YV12 for CPU and hardware: luma is rounded further, chroma follows from it. */
  method SharedYv12Stride(q: Request, p: nat, byteStride: nat, lumaStride: nat, strideAlign: nat)
    returns (shared: nat)
    requires WellFormed(q.f) && Yv12Shared(q) && p < 3
    requires byteStride == AlignedStride(q, p) && strideAlign == StrideAlign(q, p)
    requires p > 0 ==> lumaStride == LinearStride(q, 0)
    ensures Shape(q.f) && q.f.npln == 3
    ensures shared == if p == 0 then Align(AlignedStride(q, 0), Max(1, 2 * StrideAlign(q, 0)))
                      else LinearStride(q, 0) / 2
  {
    hide Mul, Div, Divides, Align, StrideAlign, PlaneWidth, AlignedStride, LinearStride, WellFormed;
    Yv12StrideAlign(q, p);
    shared := UpdateYv12Stride(p, if p == 0 then byteStride else lumaStride, strideAlign);
    if p == 0 {
      AlignUnique(byteStride, 2 * strideAlign, shared);
    }
  }

  /** The uncompressed branch of the stride computation. */
  method UncompressedStride(q: Request, p: nat, allocWidth: nat, lumaStride: nat) returns (byteStride: nat)
    requires WellFormed(q.f) && q.at.IsLinear() && p < q.f.npln
    requires allocWidth == PlaneWidth(q, p)
    requires p > 0 ==> lumaStride == LinearStride(q, 0)
    ensures byteStride == LinearStride(q, p)
  {
    assert Shape(q.f);
    hide Mul, Div, Divides, Align, StrideAlign, PlaneWidth, AlignedStride, WellFormed;
    var strideAlign;
    byteStride, strideAlign := AlignStride(q, p, allocWidth);
    if q.u.stride != NoRequest && q.f.id == NV12 {
      byteStride := RequestedNv12Stride(q, p);
    }
    if q.f.id == YV12 && q.u.hw && q.u.cpu {
      byteStride := SharedYv12Stride(q, p, byteStride, lumaStride, strideAlign);
    }
    if q.u.stride != NoRequest && q.f.id != NV12 {
      byteStride := RoundToRequest(byteStride, q.u.stride);
    }
    if q.f.id == NV30 {
      byteStride := Align(byteStride, 64);
    }
  }

  method PlaneStride(q: Request, p: nat, allocWidth: nat, plane0: PlaneInfo) returns (stride: nat)
    requires Computable(q) && WellFormed(q.f) && p < q.f.npln
    requires allocWidth == PlaneWidth(q, p)
    requires plane0.allocWidth == PlaneWidth(q, 0)
    requires p > 0 ==> plane0.byteStride == ByteStride(q, 0)
    ensures stride == ByteStride(q, p)
  {
    hide Mul, Div, Divides, PlaneWidth, LinearStride, WellFormed;
    if q.at.IsAfrc() {
      var a := q.at.afrc;
      var tiles := Div(Div(allocWidth, a.clumpW.At(p)), a.tileW);
      MulFacts(a.tileH, a.clumpH.At(p));
      stride := Div(Mul(64 * tiles, AfrcUnit(q, p)), Mul(a.tileH, a.clumpH.At(p)));
    } else if q.at.IsAfbc() {
      stride := Mul(allocWidth, q.f.bppAfbc.At(p)) / 8;
    } else if q.at.IsBlockLinear() {
      var blockH, blockW := 16, 16;
      if p > 0 {
        blockH, blockW := Div(blockH, q.f.vsub), Div(blockW, q.f.hsub);
      }
      BlockSidePositive(p, q.f.vsub);
      var bytesPerBlock := Mul(Mul(blockH, blockW), q.f.bpp.At(p)) / 8;
      stride := Div(Mul(plane0.allocWidth / 16, bytesPerBlock), blockH);
    } else {
      stride := UncompressedStride(q, p, allocWidth, plane0.byteStride);
    }
  }

  method PlaneBody(q: Request, p: nat, plane: PlaneInfo, plane0: PlaneInfo) returns (body: nat, header: nat)
    requires Computable(q) && p < q.f.npln
    requires plane.allocWidth == PlaneWidth(q, p) && plane.allocHeight == PlaneHeight(q, p)
    requires plane.byteStride == ByteStride(q, p)
    requires plane0.allocHeight == PlaneHeight(q, 0)
    ensures body == BodySize(q, p) && header == HeaderSize(q, p)
  {
    hide Mul, Div, Divides, Align, PlaneWidth, PlaneHeight, LinearStride, BlockLinearStride, AfrcStride;
    var sbNum := Mul(plane.allocWidth, plane.allocHeight) / 256;
    body, header := 0, 0;
    if q.at.IsAfbc() {
      var sbBytes := Align(Mul(q.f.bppAfbc.At(p), Mul(SbWidth(q.at, p), SbHeight(q.at, p))) / 8, 128);
      body := Mul(sbNum, sbBytes);
      if q.f.npln > 1 && p < 2 {
        body := Align(body, AfbcGrain(q.at.tiled));
      }
      if q.at.frontBufferSafe {
        body := body + Align(body, AfbcGrain(q.at.tiled));
      }
      header := Align(sbNum * 16, AfbcGrain(q.at.tiled));
    } else if q.at.IsAfrc() {
      var s := Div(plane.allocWidth, q.at.afrc.clumpW.At(p));
      var t := Div(plane.allocHeight, q.at.afrc.clumpH.At(p));
      body := Mul(Mul(s, t), AfrcUnit(q, p));
    } else if q.at.IsBlockLinear() {
      var blockHeight := 16;
      if p > 0 {
        blockHeight := Div(blockHeight, q.f.vsub);
      }
      body := Mul(Mul(plane.byteStride, blockHeight), plane0.allocHeight / 16);
    } else {
      body := Mul(plane.byteStride, plane.allocHeight);
    }
  }

  /** One iteration: writes the fields of plane p and returns the size reached so far. */
  method FillPlane(q: Request, p: nat, before: nat, planes: array<PlaneInfo>) returns (size: nat)
    requires Computable(q) && WellFormed(q.f) && planes.Length == 3 && p < q.f.npln
    requires before == if p == 0 then 0 else End(q, p - 1)
    requires if p == 0 then planes[0].offset == 0 else planes[0] == Plane(q, 0)
    modifies planes
    ensures planes[p] == Plane(q, p)
    ensures forall k :: 0 <= k < 3 && k != p ==> planes[k] == old(planes[k])
    ensures size == End(q, p)
  {
    hide Mul, Div, Divides, Align, PlaneWidth, PlaneHeight, ByteStride, BodySize, HeaderSize, WellFormed;
    FirstPlaneStartsAtZero(q);
    size := before;
    var w, h := GetPixelWH(q.width, q.height, q, p);
    planes[p] := planes[p].(allocWidth := w, allocHeight := h);
    var stride := PlaneStride(q, p, w, planes[0]);
    planes[p] := planes[p].(byteStride := stride);
    var body, header := PlaneBody(q, p, planes[p], planes[0]);
    if q.at.IsAfrc() {
      size := AfrcAlignSize(q, p, size);
    }
    if p > 0 {
      planes[p] := planes[p].(offset := size);
    }
    size := size + (body + header);
  }

  /** calc_allocation_size: fills the planes in use and returns the pixel stride and the total size. */
  method CalcAllocationSize(q: Request, planes: array<PlaneInfo>) returns (pixelStride: nat, size: nat)
    requires Sane(q) && planes.Length == 3
    modifies planes
    ensures Computable(q)
    ensures forall p: nat :: p < q.f.npln ==> planes[p] == Plane(q, p)
    ensures forall p :: q.f.npln <= p < 3 ==> planes[p] == old(planes[p])
    ensures size == TotalSize(q)
    ensures pixelStride == PixelStride(q)
  {
    SaneIsComputable(q);
    hide Plane, End, Fits, LinearRow, AfbcRow, AfrcRow, BlockLinearRow, NamedRows;
    planes[0] := planes[0].(offset := 0);
    pixelStride, size := 0, 0;
    for p := 0 to q.f.npln
      invariant forall k: nat :: k < p ==> planes[k] == Plane(q, k)
      invariant forall k :: q.f.npln <= k < 3 ==> planes[k] == old(planes[k])
      invariant p == 0 ==> planes[0].offset == 0
      invariant size == if p == 0 then 0 else End(q, p - 1)
      invariant pixelStride == if p == 0 then 0 else PixelStride(q)
    {
      size := FillPlane(q, p, size, planes);
      if p == 0 {
        pixelStride := PixelStrideOf(q, planes[0]);
      }
    }
  }

  method PixelStrideOf(q: Request, plane0: PlaneInfo) returns (pixelStride: nat)
    requires Computable(q) && plane0 == Plane(q, 0)
    ensures pixelStride == PixelStride(q)
  {
    pixelStride := 0;
    if q.at.IsLinear() && q.u.cpu {
      pixelStride := Div(plane0.byteStride * 8, q.f.bpp.p0);
    }
  }

  method AfrcAlignSize(q: Request, p: nat, size: nat) returns (aligned: nat)
    requires Computable(q) && q.at.IsAfrc() && p < q.f.npln
    requires size == if p == 0 then 0 else End(q, p - 1)
    ensures aligned == Start(q, p)
  {
    aligned := Align(size, AfrcPlaneAlign(q, p));
  }
}
