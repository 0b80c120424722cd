/** Buffers the Rockchip selector can be asked for on which a law of the layout fails. */
module DerivedBuffers {
  import opened Alignment
  import opened Usages
  import opened Ips
  import opened Formats
  import opened InternalFormats
  import opened AllocTypes
  import opened Layout
  import opened LinearLayout
  import opened StrideLaws
  import opened CpuStrides
  import opened CpuTiles
  import opened AfbcLayout
  import opened Derive
  import opened RkSelection

  // ----- AFBC with CPU usage -----

  const CPU_READ: bv64 := 3

  /**
   * The superblock count of a buffer that can be had is wrong: an AFBC buffer asked for with CPU usage is derived, and
   * its count is right only for whole superblocks. At 17 x 17 it is one instead of four.
   */
  lemma CpuUsageBreaksTheCount(bufferSize: nat, fbSize: nat, width: nat, height: nat)
    ensures var fmt := RkFormat(Unmapped(RGBA_8888, AFBC_BASIC), CPU_READ, bufferSize, fbSize, STOCK);
      var outcome := DeriveOutcome(fmt, CPU_READ, width, height);
      && outcome.Derived?
      && var q := outcome.request;
      && Sane(q) && q.at.IsAfbc() && q.u.cpu && SbWidth(q.at, 0) == 16 && SbHeight(q.at, 0) == 16
      && q.width == width && q.height == height
      && (SuperblockCount(q, 0) == CoveringBlocks(q, 0) <==>
            width == 0 || height == 0 || (width % 16 == 0 && height % 16 == 0))
      && (width == height == 17 ==> SuperblockCount(q, 0) == 1 && CoveringBlocks(q, 0) == 4)
  {
    CpuAfbcDerived(bufferSize, fbSize, width, height);
    hide RkFormat, DeriveOutcome, Info, Sane, CoveringBlocks, SuperblockCount;
    var fmt := RkFormat(Unmapped(RGBA_8888, AFBC_BASIC), CPU_READ, bufferSize, fbSize, STOCK);
    var q := DeriveOutcome(fmt, CPU_READ, width, height).request;
    DerivedIsSane(fmt, CPU_READ, width, height);
    CountIsRightExactlyWhen(q, 0);
    RgbaPlane(q);
    RgbaWhole(q);
    if width == height == 17 {
      RgbaSeventeen(q);
    }
  }

  lemma CpuAfbcDerived(bufferSize: nat, fbSize: nat, width: nat, height: nat)
    ensures var fmt := RkFormat(Unmapped(RGBA_8888, AFBC_BASIC), CPU_READ, bufferSize, fbSize, STOCK);
      var outcome := DeriveOutcome(fmt, CPU_READ, width, height);
      && fmt == InternalFormat(RGBA_8888, AFBC_BASIC) && outcome.Derived?
      && outcome.request.at.scheme == AfbcBasic && !outcome.request.at.multiPlane && outcome.request.u.cpu
      && outcome.request.width == width && outcome.request.height == height && outcome.request.f == Info(RGBA_8888)
  {
    CpuReadIsPlain();
    RgbaRow();
    AfbcBits(RGBA_8888);
    hide Info, Has, HasCpu, HasHardware, StrideRequestOf, InternalFormat.Get, GetProducers, HeightGrain;
    AlignOne(height);
  }

  lemma CpuReadIsPlain()
    ensures !Has(CPU_READ, HW_FB) && HasCpu(CPU_READ) && GetProducers(CPU_READ) == {} && HeightGrain(CPU_READ) == 1
  {
  }

  lemma RgbaShape()
    ensures var f := Info(RGBA_8888); Shape(f) && f.alignW == f.alignH == f.alignWCpu == f.tileSize == 1
  {
    RowShape(RGBA_8888);
  }

  lemma RgbaPlane(q: Request)
    requires q.f == Info(RGBA_8888) && q.u.cpu
    ensures Shape(q.f) && Sites(q.width, q.f.alignW, q.f.hsub, 0) == q.width
    ensures Sites(q.height, q.f.alignH, q.f.vsub, 0) == q.height
    ensures PlaneWidth(q, 0) == q.width && PlaneHeight(q, 0) == q.height
  {
    RgbaShape();
    hide Info, Align, Shape;
    AlignOne(q.width);
    AlignOne(q.height);
  }

  lemma RgbaWhole(q: Request)
    requires q.f == Info(RGBA_8888) && q.u.cpu && q.at.scheme == AfbcBasic
    ensures Shape(q.f) && (WholeForCpu(q, 0) <==> q.width % 16 == 0 && q.height % 16 == 0)
  {
    RgbaShape();
    RgbaPlane(q);
    hide Info, Align, Shape, Sites;
    AlignOne(q.width);
  }

  lemma RgbaSeventeen(q: Request)
    requires q.f == Info(RGBA_8888) && q.u.cpu && q.at.scheme == AfbcBasic && q.width == q.height == 17
    ensures Shape(q.f) && SuperblockCount(q, 0) == 1 && CoveringBlocks(q, 0) == 4
  {
    RgbaPlane(q);
    hide Info, Align, Shape, Sites, PlaneWidth, PlaneHeight;
    assert Mul(17, 17) == 289;
    assert CeilDiv(17, 16) == 2;
    assert Mul(2, 2) == 4;
  }

  // ----- AFRC and block linear with CPU usage -----

  /** A format forced for CPU reading comes out as asked for, if there is a layout for it. */
  lemma ForcedForCpu(base: BaseFormat, mods: bv32, bufferSize: nat, fbSize: nat, width: nat, height: nat)
    requires HasInfo(base) && Info(base).bpp.p0 > 0 && !DepthOrStencil(base) && !InternalFormat(base, mods).IsAfbc()
    requires AllocTypeOf(InternalFormat(base, mods), CPU_READ).Some?
    requires ValidFormat(Info(base), AllocTypeOf(InternalFormat(base, mods), CPU_READ).value, height)
    ensures var fmt := RkFormat(Unmapped(base, mods), CPU_READ, bufferSize, fbSize, STOCK);
      var outcome := DeriveOutcome(fmt, CPU_READ, width, height);
      && outcome.Derived? && TableRequest(outcome.request)
      && outcome.request.at == AllocTypeOf(InternalFormat(base, mods), CPU_READ).value
      && outcome.request.f == Info(base) && outcome.request.u.cpu
      && outcome.request.width == width && outcome.request.height == height
  {
    CpuReadIsPlain();
    hide Info, Has, HasCpu, HasHardware, StrideRequestOf, GetProducers, HeightGrain, AllocTypeOf, ValidFormat, Sane,
      InternalFormat.IsAfbc, Computable, RkVideo, DepthOrStencil;
    AlignOne(height);
    DerivedIsSane(InternalFormat(base, mods), CPU_READ, width, height);
  }

  /** RGBA_8888 forced to AFRC for the CPU: the units cover the picture only if both sizes are multiples of four. */
  lemma CpuAfrcIsCut(bufferSize: nat, fbSize: nat, width: nat, height: nat)
    ensures var fmt := RkFormat(Unmapped(RGBA_8888, AFRC_BASIC), CPU_READ, bufferSize, fbSize, STOCK);
      var outcome := DeriveOutcome(fmt, CPU_READ, width, height);
      && outcome.Derived? && Computable(outcome.request) && outcome.request.at.IsAfrc()
      && outcome.request.f.npln == 1
      && (CodingUnitsCover(outcome.request, 0) <==> width % 4 == 0 && height % 4 == 0)
  {
    RgbaAfrcType(height);
    RgbaPlanes();
    hide Info, AllocTypeOf, ValidFormat, RkFormat, DeriveOutcome, Sane, Computable, CodingUnitsCover;
    ForcedForCpu(RGBA_8888, AFRC_BASIC, bufferSize, fbSize, width, height);
    var fmt := RkFormat(Unmapped(RGBA_8888, AFRC_BASIC), CPU_READ, bufferSize, fbSize, STOCK);
    var q := DeriveOutcome(fmt, CPU_READ, width, height).request;
    AfrcCoversExactlyWhen(q, 0);
    RgbaPlane(q);
  }

  lemma RgbaPlanes()
    ensures Info(RGBA_8888).npln == 1 && Info(RGBA_8888).bpp.p0 == 32 && Info(RGBA_8888).id == RGBA_8888
    ensures !DepthOrStencil(RGBA_8888)
  {
  }

  lemma RgbaAfrcType(height: nat)
    ensures var fmt := InternalFormat(RGBA_8888, AFRC_BASIC);
      && !fmt.IsAfbc() && AllocTypeOf(fmt, CPU_READ).Some?
      && var at := AllocTypeOf(fmt, CPU_READ).value;
      && at.IsAfrc() && at.afrc.clumpW.p0 == 4 && at.afrc.clumpH.p0 == 4 && ValidFormat(Info(RGBA_8888), at, height)
  {
    AfrcBitsOnly(RGBA_8888);
    RgbaComponents();
    hide InternalFormat.Get, InternalFormat.IsAfbc, InternalFormat.IsAfrc, InternalFormat.LumaSize,
      InternalFormat.ChromaSize, Info;
  }

  lemma RgbaComponents()
    ensures var f := Info(RGBA_8888); f.npln == 1 && f.ncmp.p0 == 4 && f.afrc && f.id == RGBA_8888
  {
  }

  lemma AfrcBitsOnly(base: BaseFormat)
    ensures var f := InternalFormat(base, AFRC_BASIC);
      f.IsAfrc() && !f.IsAfbc() && f.LumaSize() == Bytes16 && f.ChromaSize() == Bytes16
  {
  }

  /** NV12 forced to blocks for the CPU: they cover the picture only if both even sizes are multiples of 16. */
  lemma CpuBlockLinearIsCut(bufferSize: nat, fbSize: nat, width: nat, height: nat)
    ensures var fmt := RkFormat(Unmapped(NV12, BLOCK_LINEAR_BASIC), CPU_READ, bufferSize, fbSize, STOCK);
      var outcome := DeriveOutcome(fmt, CPU_READ, width, height);
      && outcome.Derived? && Computable(outcome.request) && outcome.request.at.IsBlockLinear()
      && ((forall p: nat :: p < outcome.request.f.npln ==> BlocksCover(outcome.request, p)) <==>
            Align(width, 2) % 16 == 0 && Align(height, 2) % 16 == 0)
  {
    Nv12BlockType(height);
    Nv12Facts();
    hide Info, AllocTypeOf, ValidFormat, RkFormat, DeriveOutcome, Sane, Computable, BlocksCover, Align;
    ForcedForCpu(NV12, BLOCK_LINEAR_BASIC, bufferSize, fbSize, width, height);
    var fmt := RkFormat(Unmapped(NV12, BLOCK_LINEAR_BASIC), CPU_READ, bufferSize, fbSize, STOCK);
    BlockLinearCoversExactlyWhen(DeriveOutcome(fmt, CPU_READ, width, height).request);
  }

  lemma Nv12Facts()
    ensures var f := Info(NV12);
      f.bpp.p0 == 8 && f.alignW == 2 && f.alignH == 2 && f.blockLinear && f.id == NV12 && !DepthOrStencil(NV12)
  {
  }

  lemma Nv12BlockType(height: nat)
    ensures var fmt := InternalFormat(NV12, BLOCK_LINEAR_BASIC);
      && !fmt.IsAfbc() && AllocTypeOf(fmt, CPU_READ).Some?
      && var at := AllocTypeOf(fmt, CPU_READ).value; at.IsBlockLinear() && ValidFormat(Info(NV12), at, height)
  {
    BlockBitsOnly(NV12);
    Nv12Facts();
    hide InternalFormat.Get, InternalFormat.IsAfbc, InternalFormat.IsAfrc, InternalFormat.IsBlockLinear, Info;
  }

  lemma BlockBitsOnly(base: BaseFormat)
    ensures var f := InternalFormat(base, BLOCK_LINEAR_BASIC); !f.IsAfbc() && !f.IsAfrc() && f.IsBlockLinear()
  {
  }

  // ----- AFRC that becomes AFBC -----

  /** Such a buffer can be had: a texture that asks for AFRC carries both bits and is laid out as AFBC, of any size. */
  lemma ForcedAfrcTexture(bufferSize: nat, fbSize: nat, width: nat, height: nat)
    requires bufferSize >= fbSize / 4
    ensures var fmt := RkFormat(Unmapped(RGBA_8888, AFRC_BASIC), HW_TEXTURE, bufferSize, fbSize, STOCK);
      var outcome := DeriveOutcome(fmt, HW_TEXTURE, width, height);
      && fmt.IsAfrc() && fmt.IsAfbc() && outcome.Derived? && AfbcRequest(outcome.request)
  {
    var req := Unmapped(RGBA_8888, AFRC_BASIC);
    AfrcTextureChoosesAfbc(bufferSize, fbSize);
    RgbaRow();
    AfrcBits(RGBA_8888);
    hide Info, Has, HasCpu, Accepted, InternalFormat.Get, InternalFormat.IsAfbc, InternalFormat.IsAfrc, ChoosesAfbc,
      RkFormat, DeriveOutcome;
    UnmappedAllocatableExactlyWhen(req, HW_TEXTURE, bufferSize, fbSize, STOCK, height);
    AfbcMeansNoCpu(req, HW_TEXTURE, bufferSize, fbSize, STOCK);
    ForcedAfrcBecomesAfbc(req, HW_TEXTURE, bufferSize, fbSize, STOCK, width, height);
    var fmt := RkFormat(req, HW_TEXTURE, bufferSize, fbSize, STOCK);
    AcceptedIsDerived(fmt, HW_TEXTURE, width, height);
    RkAfbcIsAligned(req, HW_TEXTURE, bufferSize, fbSize, STOCK, width, height);
  }

  lemma AfrcTextureChoosesAfbc(bufferSize: nat, fbSize: nat)
    requires bufferSize >= fbSize / 4
    ensures !Has(HW_TEXTURE, HW_FB)
    ensures ChoosesAfbc(Unmapped(RGBA_8888, AFRC_BASIC), HW_TEXTURE, bufferSize, fbSize, STOCK)
  {
    TextureIsPlain();
    hide Has, PlainUsage;
  }

  lemma AcceptedIsDerived(fmt: InternalFormat, usage: bv64, width: nat, height: nat)
    requires HasInfo(fmt.base) && Accepted(fmt, usage, height) && !RkVideo(fmt.base)
    ensures DeriveOutcome(fmt, usage, width, height).Derived?
  {
    RowShape(fmt.base);
    hide Info, AllocTypeOf, ValidFormat, AdjustmentOf, StrideRequestOf, Has, HasHardware, Shape;
  }

  lemma AfrcBits(base: BaseFormat)
    ensures var f := InternalFormat(base, AFRC_BASIC);
      && f.IsAfrc() && !f.Get(AFBC_TILED) && !f.Get(AFBC_WIDE) && !f.Get(AFBC_EXTRA_WIDE)
  {
  }

  // ----- uncompressed buffers for the CPU -----

  /** A mapped format for the CPU, with a row for uncompressed layout, is derived as asked for. */
  lemma CpuLinearDerived(base: BaseFormat, usage: bv64, bufferSize: nat, fbSize: nat, width: nat, height: nat)
    requires HasInfo(base) && Info(base).linear && base != BLOB && HasCpu(usage) && !Has(usage, HW_FB)
    ensures var fmt := RkFormat(Other(base), usage, bufferSize, fbSize, STOCK);
      var outcome := DeriveOutcome(fmt, usage, width, height);
      && outcome.Derived?
      && var q := outcome.request;
      && LinearRequest(q) && q.width == width && q.f == Info(base) && q.f.id == base && q.u == LayoutUsageOf(usage)
  {
    LinearFormat(base, usage, bufferSize, fbSize);
    hide RkFormat, Info, Has, HasCpu, HasHardware, StrideRequestOf, HeightGrain, AdjustedHeight, GetProducers, Sane,
      InternalFormat.IsAfbc, RkVideo, Computable;
    var fmt := InternalFormat(base, 0);
    RowShape(base);
    DividesByDepth(base);
    PlainAfbcType(base, 0, usage);
    NoAfbcBit(base);
    assert DeriveOutcome(fmt, usage, width, height).Derived?;
    DerivedIsSane(fmt, usage, width, height);
  }

  lemma DividesByDepth(base: BaseFormat)
    requires HasInfo(base) && Info(base).linear
    ensures Info(base).bpp.p0 > 0
  {
    RowDepths(base);
    hide Info;
  }

  lemma LinearFormat(base: BaseFormat, usage: bv64, bufferSize: nat, fbSize: nat)
    requires HasCpu(usage) && !Has(usage, HW_FB)
    ensures RkFormat(Other(base), usage, bufferSize, fbSize, STOCK) == InternalFormat(base, 0)
  {
    hide Has, HasCpu;
  }

  const SAMPLED: bv64 := CPU_READ | HW_TEXTURE
  const FLAG_16: bv64 := CPU_READ | STRIDE_ALIGN_16
  const FLAG_ODD: bv64 := CPU_READ | STRIDE_ALIGN_256_ODD

  lemma CpuUsages()
    ensures HasCpu(SAMPLED) && !Has(SAMPLED, HW_FB)
    ensures LayoutUsageOf(SAMPLED) == LayoutUsage(true, true, false, NoRequest)
    ensures HasCpu(FLAG_16) && !Has(FLAG_16, HW_FB) && LayoutUsageOf(FLAG_16).stride == Align16
    ensures LayoutUsageOf(FLAG_16).cpu && !LayoutUsageOf(FLAG_16).hw
    ensures HasCpu(FLAG_ODD) && !Has(FLAG_ODD, HW_FB) && LayoutUsageOf(FLAG_ODD).stride == OddTimes256
    ensures LayoutUsageOf(FLAG_ODD).cpu
  {
  }

  /** BGR_888 for the CPU and the GPU: at width one the row is 64 bytes, which are no whole number of pixels. */
  lemma Bgr888TexturePixels(bufferSize: nat, fbSize: nat, height: nat)
    ensures var fmt := RkFormat(Other(BGR_888), SAMPLED, bufferSize, fbSize, STOCK);
      var outcome := DeriveOutcome(fmt, SAMPLED, 1, height);
      outcome.Derived? && Computable(outcome.request) && !WholePixelStride(outcome.request)
  {
    CpuUsages();
    BgrRow();
    hide Info, Has, HasCpu, LayoutUsageOf, RkFormat, DeriveOutcome, Sane, LinearStride;
    CpuLinearDerived(BGR_888, SAMPLED, bufferSize, fbSize, 1, height);
    var q := DeriveOutcome(RkFormat(Other(BGR_888), SAMPLED, bufferSize, fbSize, STOCK), SAMPLED, 1, height).request;
    Bgr888PixelStride(q);
    assert CeilDiv(3, 64) == 1;
  }

  lemma BgrRow()
    ensures Info(BGR_888).linear && Info(RGB_888).linear && Info(YV12).linear
    ensures Info(BGR_888).bpp.p0 == 24 && Info(RGB_888).bpp.p0 == 24
  {
  }

  /** RGB_888 for the CPU with a stride flag for 16: at width one the row is 16 bytes, five pixels and a third. */
  lemma Rgb888FlagPixels(bufferSize: nat, fbSize: nat, height: nat)
    ensures var fmt := RkFormat(Other(RGB_888), FLAG_16, bufferSize, fbSize, STOCK);
      var outcome := DeriveOutcome(fmt, FLAG_16, 1, height);
      outcome.Derived? && Computable(outcome.request) && !WholePixelStride(outcome.request)
  {
    CpuUsages();
    BgrRow();
    hide Has, HasCpu, LayoutUsageOf, RkFormat, DeriveOutcome, LinearStride, Info, Sane, RowUnits;
    CpuLinearDerived(RGB_888, FLAG_16, bufferSize, fbSize, 1, height);
    var q := DeriveOutcome(RkFormat(Other(RGB_888), FLAG_16, bufferSize, fbSize, STOCK), FLAG_16, 1, height).request;
    PixelStrideExactlyWhen(q);
    Rgb888Units(q);
    assert OddPart(24) == 3;
  }

  lemma Rgb888Units(q: Request)
    requires q.f == Info(RGB_888) && q.u.cpu && !q.u.hw && q.u.stride == Align16 && q.width == 1
    ensures Shape(q.f) && RowUnits(q, 0) == 1
  {
    RgbRow();
    hide Align, Shape, Mul, Div, StrideAlign, Info;
    AlignOne(1);
    assert WidthUnit(q, 0) == 1;
    MulFacts(1, 24);
    RgbCpuAlign(q);
    MulFacts(1, 3);
    ProductDivides(1, 3);
    AlignFixed(3, 3);
    DivUnique(18, 16, 1) by { MulFacts(1, 16); }
  }

  lemma RgbRow()
    ensures var f := Info(RGB_888);
      Shape(f) && f.bpp.p0 == 24 && f.id == RGB_888 && f.alignW == f.alignWCpu == f.tileSize == 1
  {
    RowShape(RGB_888);
  }

  lemma RgbCpuAlign(q: Request)
    requires q.f == Info(RGB_888) && q.u.cpu && !q.u.hw
    ensures StrideAlign(q, 0) == 3
  {
    RgbRow();
    hide Info, Shape;
    SmallLcms();
  }

  /** YV12 for the CPU with the flag for odd multiples of 256: the chroma law fails for every width. */
  lemma Yv12FlagChroma(bufferSize: nat, fbSize: nat, width: nat, height: nat)
    ensures var fmt := RkFormat(Other(YV12), FLAG_ODD, bufferSize, fbSize, STOCK);
      var outcome := DeriveOutcome(fmt, FLAG_ODD, width, height);
      && outcome.Derived? && Shape(outcome.request.f) && outcome.request.f.npln == 3
      && LinearStride(outcome.request, 1) != Align(LinearStride(outcome.request, 0) / 2, 16)
  {
    CpuUsages();
    BgrRow();
    hide Has, HasCpu, LayoutUsageOf, RkFormat, DeriveOutcome, LinearStride, Info, Align, LinearRow;
    CpuLinearDerived(YV12, FLAG_ODD, bufferSize, fbSize, width, height);
    var q := DeriveOutcome(RkFormat(Other(YV12), FLAG_ODD, bufferSize, fbSize, STOCK), FLAG_ODD, width, height).request;
    Yv12ChromaLaw(q, 1);
  }
}
