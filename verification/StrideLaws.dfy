/** Stride alignment for CPU-accessible buffers, the exact pixel stride, and the YV12 chroma stride law. */
module StrideLaws {
  import opened Alignment
  import opened Euclid
  import opened Usages
  import opened Formats
  import opened AllocTypes
  import opened Layout
  import opened LinearLayout

  /** A CPU-accessible linear request without Rockchip stride flags, for a format with whole-byte CPU alignment. */
  ghost predicate CpuLinear(q: Request) {
    && LinearRequest(q) && q.u.cpu && q.u.stride == NoRequest && q.f.tileSize == 1
    && q.f.id != BGR_888 && q.f.id != NV15 && q.f.id != NV30
  }

  /** The byte form of the CPU alignment is exact. */
  lemma CpuAlignIsExact(q: Request, p: nat)
    requires CpuLinear(q) && p < q.f.npln
    ensures 8 * CpuAlign(q, p) == Mul(q.f.bpp.At(p), q.f.alignWCpu)
    ensures CpuAlign(q, p) > 0
  {
    hide Mul, AfbcRow, AfrcRow, BlockLinearRow, NamedRows;
    var bits := q.f.bpp.At(p);
    MulFacts(bits, q.f.alignWCpu);
    if BytePacked(q.f) {
      ByteMultiple(q.f.alignWCpu, bits);
    } else {
      WordMultiple(4, bits);
    }
  }

  lemma StrideAlignIsCommonMultiple(q: Request, p: nat)
    requires CpuLinear(q) && p < q.f.npln
    ensures StrideAlign(q, p) > 0
    ensures Divides(CpuAlign(q, p), StrideAlign(q, p))
    ensures q.u.hw ==> Divides(HwAlign(q), StrideAlign(q, p))
  {
    hide Mul, Div, Gcd, CpuAlign, Divides;
    CpuAlignIsExact(q, p);
    if q.u.hw {
      LcmIsLeastCommonMultiple(HwAlign(q), CpuAlign(q, p));
    } else {
      SelfAndZero(CpuAlign(q, p));
    }
  }

  lemma DivideByOne(x: nat)
    ensures Mul(x, 1) == x && Div(x, 1) == x
  {
  }

  lemma AlignedStrideIsAligned(q: Request, p: nat)
    requires CpuLinear(q) && p < q.f.npln
    ensures Divides(StrideAlign(q, p), AlignedStride(q, p))
  {
    hide Mul, Div, Divides, Align, StrideAlign, PlaneWidth, LinearRow;
    StrideAlignIsCommonMultiple(q, p);
    var raw := Mul(PlaneWidth(q, p), q.f.bpp.At(p)) / 8;
    DivideByOne(raw);
    DivideByOne(Align(raw, StrideAlign(q, p)));
    AlignDivides(raw, StrideAlign(q, p));
  }

  /** Every plane's stride is a multiple of the CPU alignment and, with hardware usage, of the hardware one. */
  lemma StridesHonourAlignments(q: Request, p: nat)
    requires CpuLinear(q) && p < q.f.npln
    ensures Divides(StrideAlign(q, p), LinearStride(q, p))
    ensures Divides(CpuAlign(q, p), LinearStride(q, p))
    ensures q.u.hw ==> Divides(HwAlign(q), LinearStride(q, p))
  {
    hide Mul, Div, Divides, Align, StrideAlign, CpuAlign, HwAlign, AlignedStride, LinearRow, AfbcRow, AfrcRow;
    StrideAlignIsCommonMultiple(q, p);
    AlignedStrideIsAligned(q, p);
    if Yv12Shared(q) {
      Yv12StrideAlign(q, 0);
      Yv12StrideAlign(q, p);
      AlignDivides(AlignedStride(q, 0), 256);
      assert LinearStride(q, 0) == Align(AlignedStride(q, 0), 256);
      DoubleDivides(128, LinearStride(q, 0));
    }
    assert Divides(StrideAlign(q, p), LinearStride(q, p));
    DividesTransitive(CpuAlign(q, p), StrideAlign(q, p), LinearStride(q, p));
    if q.u.hw {
      DividesTransitive(HwAlign(q), StrideAlign(q, p), LinearStride(q, p));
    }
  }

  /** Hardware requests whose stride is left to the allocator: everything but a video format with a stride usage. */
  ghost predicate HardwareLinear(q: Request) {
    LinearRequest(q) && q.u.hw && !(RkVideo(q.f.id) && (q.u.strideSpecified || q.u.stride != NoRequest))
  }

  /** 128 bytes for YUV, 64 for other formats and for Y0L2, whose rows come in pairs. */
  function HardwareGrain(f: FormatInfo): nat {
    if f.isYuv && f.tileSize == 1 then 128 else 64
  }

  lemma HardwareUnit(q: Request, p: nat)
    requires HardwareLinear(q) && p < q.f.npln
    ensures StrideAlign(q, p) > 0 && HwAlign(q) == (if q.f.isYuv then 128 else 64)
    ensures Divides(HwAlign(q), StrideAlign(q, p))
  {
    assert Shape(q.f);
    hide Mul, Div, Gcd, CpuAlign, Divides, WellFormed;
    if CpuAlign(q, p) > 0 {
      LcmIsLeastCommonMultiple(HwAlign(q), CpuAlign(q, p));
    } else {
      SelfAndZero(HwAlign(q));
    }
  }

  lemma HardwareAlignedStride(q: Request, p: nat)
    requires HardwareLinear(q) && p < q.f.npln
    ensures Divides(HardwareGrain(q.f), AlignedStride(q, p))
  {
    assert Shape(q.f);
    hide Mul, Div, Divides, Align, StrideAlign, HwAlign, PlaneWidth, WellFormed;
    HardwareUnit(q, p);
    var raw := Mul(PlaneWidth(q, p), q.f.bpp.At(p)) / 8;
    var aligned := Align(Mul(raw, q.f.tileSize), StrideAlign(q, p));
    AlignDivides(Mul(raw, q.f.tileSize), StrideAlign(q, p));
    DividesTransitive(HwAlign(q), StrideAlign(q, p), aligned);
    SixtyFours();
    if q.f.tileSize == 1 {
      DivideByOne(raw);
      DivideByOne(aligned);
    } else {
      if q.f.isYuv {
        DoubleDivides(64, aligned);
      } else {
        TileIsYuv(q);
      }
      HalfIsDiv(aligned);
    }
  }

  lemma TileIsYuv(q: Request)
    requires LinearRequest(q) && q.f.tileSize == 2
    ensures q.f.isYuv
  {
    hide Shape, NamedRows, AfbcRow, AfrcRow, BlockLinearRow, PlanesWithin, BytePacked, WordPacked, AfrcFits;
  }

  lemma HalfIsDiv(x: nat)
    ensures Div(x, 2) == x / 2
  {
  }

  lemma SixtyFours()
    ensures Divides(64, 128) && Divides(128, 128) && Divides(64, 256) && Divides(128, 256) && Divides(16, 64)
  {
  }

  /** No stride flag takes a stride off the hardware's grid. */
  lemma RequestKeepsGrain(x: nat, r: StrideRequest, grain: nat)
    requires (grain == 64 || grain == 128 || (grain == 256 && r != Align128)) && Divides(grain, x)
    ensures Divides(grain, RoundToRequest(x, r))
  {
    hide Mul, Div, Align, Divides;
    Grains(grain);
    DividesTransitive(16, grain, x);
    DividesTransitive(64, grain, x);
    match r {
      case Align16 => AlignFixed(x, 16);
      case Align64 => AlignFixed(x, 64);
      case Align128 =>
        AlignDivides(x, 128);
        DividesTransitive(grain, 128, Align(x, 128));
      case OddTimes256 =>
        OddMultipleIsMultiple(x);
        DividesTransitive(grain, 256, OddMultipleOf256(x));
      case NoRequest =>
      case Conflicting =>
    }
  }

  lemma Grains(grain: nat)
    requires grain == 64 || grain == 128 || grain == 256
    ensures Divides(16, grain) && Divides(64, grain) && Divides(grain, 256) && (grain != 256 ==> Divides(grain, 128))
  {
  }

  lemma OddMultipleIsMultiple(x: nat)
    ensures Divides(256, OddMultipleOf256(x)) && OddMultipleOf256(x) % 512 == 256
  {
    assert OddMultipleOf256(x) == 256 * (2 * ((x + 255) / 512) + 1);
  }

  /** With hardware usage every stride stays on the hardware's grid, with or without the CPU, under any stride flag. */
  lemma HardwareStridesAreAligned(q: Request, p: nat)
    requires HardwareLinear(q) && p < q.f.npln
    ensures Divides(HardwareGrain(q.f), LinearStride(q, p))
  {
    assert 1 <= q.f.npln <= 3;
    hide Mul, Div, Divides, Align, StrideAlign, HwAlign, AlignedStride, RoundToRequest, LinearRow, AfbcRow, AfrcRow,
      BlockLinearRow;
    HardwareAlignedStride(q, p);
    if Yv12Shared(q) {
      SharedStrides(q);
      SixtyFours();
      DoubleDivides(128, LinearStride(q, 0));
      if p == 0 {
        DividesTransitive(128, 256, LinearStride(q, 0));
      } else {
        RequestKeepsGrain(LinearStride(q, 0) / 2, q.u.stride, 128);
      }
    } else {
      RequestKeepsGrain(AlignedStride(q, p), q.u.stride, HardwareGrain(q.f));
      if q.f.id == NV30 {
        RoundingNothing(AlignedStride(q, p));
        Nv30Stride(q, p);
      }
    }
  }

  lemma RoundingNothing(x: nat)
    ensures RoundToRequest(x, NoRequest) == x
  {
  }

  /** NV30's own rounding changes nothing once the stride is a multiple of 64. */
  lemma Nv30Stride(q: Request, p: nat)
    requires Shape(q.f) && p < q.f.npln && q.f.id == NV30 && q.u.stride == NoRequest
    requires Divides(64, AlignedStride(q, p)) || Divides(128, AlignedStride(q, p))
    ensures LinearStride(q, p) == AlignedStride(q, p)
  {
    hide Mul, Div, Divides, Align, AlignedStride;
    SixtyFours();
    if Divides(128, AlignedStride(q, p)) {
      DividesTransitive(64, 128, AlignedStride(q, p));
    }
    AlignFixed(AlignedStride(q, p), 64);
  }

  /** What a stride flag asks for is what every plane of every format gets. */
  lemma StrideFlagIsHonoured(q: Request, p: nat)
    requires LinearRequest(q) && p < q.f.npln
    ensures RequestKeeps(LinearStride(q, p), q.u.stride)
  {
    hide Mul, Div, Align, RoundToRequest, RequestKeeps, AlignedStride, StrideAlign, Sane;
    assert Shape(q.f) by { ShapeOf(q); }
    if q.f.id == NV12 && q.u.stride != NoRequest {
      Nv12Planes(q);
      Nv12Stride(q, p);
      if q.u.stride == Conflicting {
        AnyKeepsConflicting(0);
      } else {
        RoundToRequestMeets(q.width, q.u.stride);
      }
    } else {
      var shared := if !Yv12Shared(q) then AlignedStride(q, p)
                    else if p == 0 then Align(AlignedStride(q, 0), Max(1, 2 * StrideAlign(q, 0)))
                    else LinearStride(q, 0) / 2;
      RoundToRequestMeets(shared, q.u.stride);
      SixtyFourKeeps(RoundToRequest(shared, q.u.stride), q.u.stride);
      hide LinearStride;
    }
  }

  lemma ShapeOf(q: Request)
    requires LinearRequest(q)
    ensures Shape(q.f)
  {
    hide Shape, LinearRow, NamedRows, Fits;
  }

  lemma Nv12Planes(q: Request)
    requires LinearRequest(q) && q.f.id == NV12
    ensures q.f.npln == 2
  {
    hide Shape, LinearRow, Fits;
  }

  lemma AnyKeepsConflicting(x: nat)
    ensures RequestKeeps(x, Conflicting)
  {
  }

  lemma RoundToRequestMeets(x: nat, r: StrideRequest)
    ensures RequestKeeps(RoundToRequest(x, r), r)
  {
    hide Mul, Div, Align;
    match r {
      case Align16 => AlignDivides(x, 16);
      case Align64 => AlignDivides(x, 64);
      case Align128 => AlignDivides(x, 128);
      case OddTimes256 => OddMultipleIsMultiple(x);
      case NoRequest =>
      case Conflicting =>
    }
  }

  /** NV30's last rounding, to 64, undoes none of the flags. */
  lemma SixtyFourKeeps(x: nat, r: StrideRequest)
    requires RequestKeeps(x, r)
    ensures RequestKeeps(Align(x, 64), r)
  {
    hide Mul, Div, Align;
    match r {
      case Align16 => SixteenOf(x);
      case Align64 => AlignFixed(x, 64);
      case Align128 => KeptBySixtyFour(x, 2 * (x / 128));
      case OddTimes256 => KeptBySixtyFour(x, 8 * (x / 512) + 4);
      case NoRequest =>
      case Conflicting =>
    }
  }

  lemma SixteenOf(x: nat)
    ensures Align(x, 64) % 16 == 0
  {
    hide Mul, Div, Align, Divides;
    AlignDivides(x, 64);
    SixtyFours();
    DividesTransitive(16, 64, Align(x, 64));
    DividesMeans(16, Align(x, 64));
  }

  lemma DividesMeans(d: nat, x: nat)
    requires Divides(d, x)
    ensures d > 0 && x % d == 0
  {
  }

  lemma KeptBySixtyFour(x: nat, k: nat)
    requires x == 64 * k
    ensures Align(x, 64) == x
  {
    hide Div, Align;
    Rest(x, 64, k, 0);
    AlignFixed(x, 64);
  }

  /** The pixel stride is exact, not truncated, and a multiple of the CPU width alignment. */
  lemma PixelStrideIsExact(q: Request)
    requires CpuLinear(q)
    ensures Computable(q)
    ensures Mul(PixelStride(q), q.f.bpp.p0) == 8 * LinearStride(q, 0)
    ensures Divides(q.f.alignWCpu, PixelStride(q))
  {
    SaneIsComputable(q);
    CpuAlignIsExact(q, 0);
    StridesHonourAlignments(q, 0);
    PixelStrideOfUnit(q, CpuAlign(q, 0));
  }

  lemma PixelStrideOfUnit(q: Request, unit: nat)
    requires Computable(q) && q.at.IsLinear() && q.u.cpu
    requires Divides(unit, LinearStride(q, 0)) && 8 * unit == Mul(q.f.bpp.p0, q.f.alignWCpu)
    ensures Mul(PixelStride(q), q.f.bpp.p0) == 8 * LinearStride(q, 0)
    ensures Divides(q.f.alignWCpu, PixelStride(q))
  {
    hide Mul, Div, Divides, LinearStride;
    PixelsOfStride(LinearStride(q, 0), unit, q.f.bpp.p0, q.f.alignWCpu);
  }

  lemma PixelsOfStride(stride: nat, unit: nat, bpp: nat, alignW: nat)
    requires Divides(unit, stride) && 8 * unit == Mul(bpp, alignW) && bpp > 0 && alignW > 0
    ensures Mul(Div(8 * stride, bpp), bpp) == 8 * stride
    ensures Divides(alignW, Div(8 * stride, bpp))
  {
    hide Mul, Div, Divides;
    DividesPositive(unit, stride);
    Quotient(unit, stride);
    var k := Div(stride, unit);
    // 8 stride = k (8 unit) = k (bpp alignW) = (k alignW) bpp
    EightTimes(k, unit);
    MulAssoc(k, alignW, bpp);
    MulFacts(bpp, alignW);
    DivOfProduct(Mul(k, alignW), bpp);
    ProductDivides(k, alignW);
  }

  /** What the stride of BGR_888 is rounded to, unless an odd multiple of 256 is asked for. */
  function Bgr888Unit(u: LayoutUsage): (r: nat)
    ensures r == 1 || r == 16 || r == 64 || r == 128
  {
    match u.stride
    case Align128 => 128
    case Align64 => 64
    case Align16 => if u.hw then 64 else 16
    case _ => if u.hw then 64 else 1
  }

  /**
   * BGR_888 drops the CPU alignment, so its pixel stride is exact only when the number of units in a row happens to be
   * a multiple of three.
   */
  lemma Bgr888PixelStride(q: Request)
    requires LinearRequest(q) && q.u.cpu && q.f == Info(BGR_888)
    ensures Computable(q)
    ensures Mul(PixelStride(q), 24) == 8 * LinearStride(q, 0) <==>
            (if q.u.stride == OddTimes256 then (3 * q.width + 255) / 512 % 3 == 1
             else CeilDiv(3 * q.width, Bgr888Unit(q.u)) % 3 == 0)
  {
    SaneIsComputable(q);
    Bgr888Pixels(q);
  }

  lemma Bgr888Pixels(q: Request)
    requires Computable(q) && q.at.IsLinear() && q.u.cpu && Bgr888Row(q.f)
    ensures Mul(PixelStride(q), 24) == 8 * LinearStride(q, 0) <==>
            (if q.u.stride == OddTimes256 then (3 * q.width + 255) / 512 % 3 == 1
             else CeilDiv(3 * q.width, Bgr888Unit(q.u)) % 3 == 0)
  {
    hide LinearStride, Mul, Div, CeilDiv, Align, Divides, OddMultipleOf256, Bgr888Unit;
    Bgr888Stride(q);
    WholePixels(LinearStride(q, 0));
    if q.u.stride == OddTimes256 {
      OddThird(3 * q.width);
    } else {
      var unit := Bgr888Unit(q.u);
      UnitsOf(3 * q.width, unit);
      ThirdOf(CeilDiv(3 * q.width, unit), unit);
    }
  }

  ghost predicate Bgr888Row(f: FormatInfo) {
    f.id == BGR_888 && f.bpp.p0 == 24 && f.alignW == 1 && f.alignWCpu == 1 && f.tileSize == 1 && !f.isYuv
  }

  /** The stride of BGR_888 is that of its bytes, rounded once. */
  lemma Bgr888Stride(q: Request)
    requires Shape(q.f) && q.u.cpu && q.at.IsLinear() && Bgr888Row(q.f)
    ensures LinearStride(q, 0) ==
      if q.u.stride == OddTimes256 then OddMultipleOf256(3 * q.width) else Align(3 * q.width, Bgr888Unit(q.u))
  {
    Bgr888Aligned(q);
    hide AlignedStride, Align, Mul, Div, OddMultipleOf256;
    var n := 3 * q.width;
    AlignOnce(n);
    if q.u.hw {
      AlignDivides(n, 64);
      SixtyFours();
      match q.u.stride {
        case Align16 => AlignFixed(Align(n, 64), 16) by { FourTimes(Align(n, 64)); }
        case Align64 => AlignFixed(Align(n, 64), 64);
        case Align128 => AlignNested(n, 64, 128);
        case OddTimes256 => OddOfAligned(n);
        case NoRequest =>
        case Conflicting =>
      }
    }
  }

  lemma AlignOnce(n: nat)
    ensures Align(n, 1) == n
  {
  }

  lemma FourTimes(x: nat)
    requires Divides(64, x)
    ensures Divides(16, x)
  {
  }

  /** Rounding to 64 first does not change which odd multiple of 256 is the next one. */
  lemma OddOfAligned(n: nat)
    ensures OddMultipleOf256(Align(n, 64)) == OddMultipleOf256(n)
  {
    hide Mul, Div, Align, Divides;
    var j := (n + 255) / 512;
    ProductDivides(8 * j + 4, 64);
    SixtyFourTimes(8 * j + 4);
    AlignLeast(n, 64, 64 * (8 * j + 4));
  }

  lemma SixtyFourTimes(x: nat)
    ensures Mul(x, 64) == 64 * x
  {
  }

  lemma Bgr888Aligned(q: Request)
    requires Shape(q.f) && q.u.cpu && q.at.IsLinear() && Bgr888Row(q.f)
    ensures AlignedStride(q, 0) == if q.u.hw then Align(3 * q.width, 64) else 3 * q.width
  {
    hide Gcd, CeilDiv;
    AlignOnce(q.width);
    assert WidthUnit(q, 0) == 1;
    assert PlaneWidth(q, 0) == q.width;
    assert Mul(q.width, 24) / 8 == 3 * q.width;
    DivideByOne(3 * q.width);
    DivideByOne(Align(3 * q.width, 64));
  }

  lemma UnitsOf(n: nat, unit: nat)
    requires unit > 0
    ensures Align(n, unit) == Mul(CeilDiv(n, unit), unit)
  {
  }

  /** Whole pixels are three bytes. */
  lemma WholePixels(stride: nat)
    ensures Mul(Div(8 * stride, 24), 24) == 8 * stride <==> stride % 3 == 0
  {
    var k := stride / 3;
    assert stride == 3 * k + stride % 3;
    assert 8 * stride == 24 * k + 8 * (stride % 3);
    DivUnique(8 * stride, 24, k);
  }

  /** None of the units is a multiple of three. */
  lemma ThirdOf(x: nat, unit: nat)
    requires unit == 1 || unit == 16 || unit == 64 || unit == 128
    ensures Mul(x, unit) % 3 == 0 <==> x % 3 == 0
  {
    hide Mul;
    UnitProducts(x);
    ScaledThird(x / 3, x % 3);
    assert x == 3 * (x / 3) + x % 3;
  }

  /** Sixteen and sixty-four leave the rest of a division by three alone; 128 doubles it. */
  lemma ScaledThird(k: nat, r: nat)
    requires r < 3
    ensures (3 * k + r) % 3 == r && (16 * (3 * k + r)) % 3 == r && (64 * (3 * k + r)) % 3 == r
    ensures (128 * (3 * k + r)) % 3 == if r == 2 then 1 else 2 * r
  {
    Rest(3 * k + r, 3, k, r);
    Rest(16 * (3 * k + r), 3, 16 * k + 5 * r, r);
    Rest(64 * (3 * k + r), 3, 64 * k + 21 * r, r);
    Rest(128 * (3 * k + r), 3, if r == 2 then 128 * k + 85 else 128 * k + 42 * r, if r == 2 then 1 else 2 * r);
  }

  lemma UnitProducts(x: nat)
    ensures Mul(x, 1) == x && Mul(x, 16) == 16 * x && Mul(x, 64) == 64 * x && Mul(x, 128) == 128 * x
  {
  }

  lemma OddThird(n: nat)
    ensures OddMultipleOf256(n) % 3 == 0 <==> (n + 255) / 512 % 3 == 1
  {
    var j := (n + 255) / 512;
    var k, r := j / 3, j % 3;
    assert j == 3 * k + r;
    // 512 j + 256 = 3 (512 k + 170 r + 85) + 2 r + 1
    Rest(512 * j + 256, 3, 512 * k + 170 * r + 85 + (if r == 0 then 0 else 1),
         if r == 0 then 1 else if r == 1 then 0 else 2);
  }

  // ----- YV12 -----

  /** Where the chroma law holds: not for odd multiples of 256; for 64 and 128 only where half of luma is one too. */
  predicate ChromaLawApplies(width: nat, u: LayoutUsage) {
    match u.stride
    case OddTimes256 => false
    case Align64 => u.hw || Align(width, 64) % 128 == 0
    case Align128 => u.hw || Align(width, 128) % 256 == 0
    case _ => true
  }

  /**
   * With CPU usage the chroma stride is ALIGN(luma stride / 2, 16), whether or not hardware usage is present, exactly
   * unless a stride flag is in the way. It always covers the chroma row rounded to 16 pixels, and with both usages the
   * assertions of update_yv12_stride hold under every flag.
   */
  lemma Yv12ChromaLaw(q: Request, p: nat)
    requires LinearRequest(q) && q.f.id == YV12 && q.u.cpu && 0 < p < 3
    ensures LinearStride(q, p) == Align(LinearStride(q, 0) / 2, 16) <==> ChromaLawApplies(q.width, q.u)
    ensures Align(CeilDiv(q.width, 2), 16) <= LinearStride(q, p)
    ensures q.u.hw ==> StrideAlign(q, p) == 128 && LinearStride(q, 0) / 2 == Align(LinearStride(q, 0) / 2, 128)
    ensures q.u.hw ==> Divides(16, LinearStride(q, 0) / 2)
  {
    hide Mul, Div, Align, Divides, CeilDiv, LinearStride, PlaneWidth, StrideAlign, LinearRow, AfbcRow, AfrcRow;
    Yv12Widths(q, p);
    if q.u.hw {
      SharedChroma(q, p);
    } else {
      Yv12CpuOnly(q, 0);
      Yv12CpuOnly(q, p);
      CpuChroma(q.width, q.u.stride);
      RoundToRequestGrows(PlaneWidth(q, p), q.u.stride);
    }
  }

  lemma Yv12Widths(q: Request, p: nat)
    requires LinearRequest(q) && q.f.id == YV12 && q.u.cpu && 0 < p < 3
    ensures PlaneWidth(q, 0) == Align(q.width, 16)
    ensures PlaneWidth(q, p) == Align(CeilDiv(q.width, 2), 16)
    ensures Align(CeilDiv(q.width, 2), 16) == Align(Align(q.width, 16) / 2, 16)
  {
    hide Mul, Align, CeilDiv, LinearRow, AfbcRow, AfrcRow;
    EvenHalves(q.width);
    AlignNested(q.width, 2, 16);
    assert Div(Align(q.width, 2), 2) == CeilDiv(q.width, 2);
    Halve16(q.width);
    AlignNested(CeilDiv(q.width, 2), 8, 16);
  }

  lemma Halve16(w: nat)
    ensures Align(w, 16) / 2 == Align(CeilDiv(w, 2), 8)
  {
  }

  lemma Yv12CpuOnly(q: Request, p: nat)
    requires LinearRequest(q) && q.f.id == YV12 && q.u.cpu && !q.u.hw && p < 3
    ensures LinearStride(q, p) == RoundToRequest(PlaneWidth(q, p), q.u.stride)
  {
    hide Div, Align, PlaneWidth, RoundToRequest, AfbcRow, AfrcRow;
    var w := PlaneWidth(q, p);
    Mul8(w);
    assert StrideAlign(q, p) == 16;
    assert Divides(16, w) by {
      assert WidthUnit(q, p) == 16;
      PlaneWidthIsAligned(q, p);
    }
    AlignFixed(w, 16);
    DivideByOne(w);
  }

  lemma PlaneWidthIsAligned(q: Request, p: nat)
    requires Shape(q.f) && p < q.f.npln
    ensures Divides(WidthUnit(q, p), PlaneWidth(q, p))
  {
    AlignDivides(Sites(q.width, q.f.alignW, q.f.hsub, p), WidthUnit(q, p));
  }

  /** The law without hardware usage: the strides are the plane widths, rounded as the flag asks. */
  lemma CpuChroma(w: nat, r: StrideRequest)
    ensures var luma, chroma := RoundToRequest(Align(w, 16), r), RoundToRequest(Align(CeilDiv(w, 2), 16), r);
      chroma == Align(luma / 2, 16) <==> ChromaLawApplies(w, LayoutUsage(true, false, false, r))
    ensures Align(CeilDiv(w, 2), 16) == Align(Align(w, 16) / 2, 16)
  {
    Halve16(w);
    hide Mul, Div, Align, CeilDiv, Divides, OddMultipleOf256;
    AlignNested(CeilDiv(w, 2), 8, 16) by { EightSixteens(); }
    AlignDivides(w, 16);
    AlignDivides(CeilDiv(w, 2), 16);
    match r {
      case Align16 =>
        AlignFixed(Align(w, 16), 16);
        AlignFixed(Align(CeilDiv(w, 2), 16), 16);
      case Align64 => HalfOfRounded(w, 64);
      case Align128 => HalfOfRounded(w, 128);
      case OddTimes256 => HalfOfOdd(Align(w, 16), Align(CeilDiv(w, 2), 16));
      case NoRequest =>
      case Conflicting =>
    }
  }

  /** Half of a rounded width is the rounded half width exactly when it is a multiple itself. */
  lemma HalfOfRounded(w: nat, grain: nat)
    requires grain == 64 || grain == 128
    ensures Align(Align(CeilDiv(w, 2), 16), grain) == Align(Align(Align(w, 16), grain) / 2, 16)
       <==> Align(w, grain) % (2 * grain) == 0
  {
    hide Mul, Div, Align, CeilDiv, Divides;
    EightSixteens();
    AlignNested(w, 16, grain);
    AlignNested(CeilDiv(w, 2), 16, grain);
    AlignDivides(w, grain);
    AlignDivides(CeilDiv(w, 2), grain);
    HalfCeil(w);
    var luma := Align(w, grain);
    HalfParity(luma, grain);
    AlignFixed(luma / 2, 16);
    if Divides(grain, luma / 2) {
      AlignUnique(CeilDiv(w, 2), grain, luma / 2);
    }
  }

  lemma HalfParity(luma: nat, grain: nat)
    requires (grain == 64 || grain == 128) && Divides(grain, luma)
    ensures luma % 2 == 0 && Divides(16, luma / 2)
    ensures Divides(grain, luma / 2) <==> luma % (2 * grain) == 0
  {
    if grain == 64 {
      Parity64(luma / 64 / 2, luma / 64 % 2);
    } else {
      Parity128(luma / 128 / 2, luma / 128 % 2);
    }
  }

  lemma Parity64(j: nat, b: nat)
    requires b < 2
    ensures var x := 64 * (2 * j + b);
      x % 2 == 0 && x / 2 == 64 * j + 32 * b && x / 2 % 16 == 0 && x / 2 % 64 == 32 * b && x % 128 == 64 * b
  {
    Rest(64 * (2 * j + b), 2, 64 * j + 32 * b, 0);
    Rest(64 * j + 32 * b, 16, 4 * j + 2 * b, 0);
    Rest(64 * j + 32 * b, 64, j, 32 * b);
    Rest(64 * (2 * j + b), 128, j, 64 * b);
  }

  lemma Parity128(j: nat, b: nat)
    requires b < 2
    ensures var x := 128 * (2 * j + b);
      x % 2 == 0 && x / 2 == 128 * j + 64 * b && x / 2 % 16 == 0 && x / 2 % 128 == 64 * b && x % 256 == 128 * b
  {
    Rest(128 * (2 * j + b), 2, 128 * j + 64 * b, 0);
    Rest(128 * j + 64 * b, 16, 8 * j + 4 * b, 0);
    Rest(128 * j + 64 * b, 128, j, 64 * b);
    Rest(128 * (2 * j + b), 256, j, 128 * b);
  }

  lemma HalfCeil(w: nat)
    ensures CeilDiv(w, 2) == (w + 1) / 2
  {
  }

  /** Half of an odd multiple of 256 is no multiple of 256. */
  lemma HalfOfOdd(a: nat, b: nat)
    ensures OddMultipleOf256(b) != Align(OddMultipleOf256(a) / 2, 16)
  {
    hide Div, Align, Divides;
    var j := (a + 255) / 512;
    assert OddMultipleOf256(a) / 2 == 256 * j + 128;
    ProductDivides(16 * j + 8, 16);
    AlignFixed(256 * j + 128, 16);
  }

  // ----- YV12 with both usages -----

  /** Under every flag the luma stride is a multiple of 256 and at least that of the bare pixels. */
  lemma SharedStrides(q: Request)
    requires LinearRequest(q) && Yv12Shared(q)
    ensures q.f.npln == 3 && StrideAlign(q, 0) == StrideAlign(q, 1) == StrideAlign(q, 2) == 128
    ensures Divides(256, LinearStride(q, 0)) && PlaneWidth(q, 0) <= LinearStride(q, 0)
    ensures LinearStride(q, 0) == RoundToRequest(Align(AlignedStride(q, 0), 256), q.u.stride)
    ensures forall p: nat :: 0 < p < 3 ==> LinearStride(q, p) == RoundToRequest(LinearStride(q, 0) / 2, q.u.stride)
  {
    hide Mul, Div, Align, Divides, PlaneWidth, AlignedStride, StrideAlign, RoundToRequest, LinearRow, AfbcRow, AfrcRow;
    Yv12StrideAlign(q, 0);
    Yv12StrideAlign(q, 1);
    Yv12StrideAlign(q, 2);
    AlignedStrideHoldsRaw(q, 0);
    Mul8(PlaneWidth(q, 0));
    var shared := Align(AlignedStride(q, 0), 256);
    AlignDivides(AlignedStride(q, 0), 256);
    RoundToRequestGrows(shared, q.u.stride);
    SharedGrain(shared, q.u.stride);
  }

  lemma SharedGrain(x: nat, r: StrideRequest)
    requires Divides(256, x)
    ensures Divides(256, RoundToRequest(x, r))
  {
    hide Align, Mul, Div;
    if r == Align128 {
      AlignFixed(x, 128);
    } else {
      RequestKeepsGrain(x, r, 256);
    }
  }

  lemma SharedChroma(q: Request, p: nat)
    requires LinearRequest(q) && Yv12Shared(q) && 0 < p < 3
    ensures LinearStride(q, p) == Align(LinearStride(q, 0) / 2, 16) <==> ChromaLawApplies(q.width, q.u)
    ensures StrideAlign(q, p) == 128 && LinearStride(q, 0) / 2 == Align(LinearStride(q, 0) / 2, 128)
    ensures Divides(16, LinearStride(q, 0) / 2)
    ensures Align(CeilDiv(q.width, 2), 16) <= LinearStride(q, p)
  {
    hide Mul, Div, Align, Divides, CeilDiv, LinearStride, PlaneWidth, AlignedStride, StrideAlign, RoundToRequest,
      LinearRow, AfbcRow, AfrcRow;
    SharedStrides(q);
    Yv12Widths(q, p);
    var luma := LinearStride(q, 0);
    var half := luma / 2;
    DoubleDivides(128, luma);
    EightSixteens();
    DividesTransitive(16, 128, half);
    AlignFixed(half, 128);
    AlignFixed(half, 16);
    AlignLeast(PlaneWidth(q, 0) / 2, 16, half);
    RoundToRequestGrows(half, q.u.stride);
    RoundToRequestKeeps(half, q.u.stride);
    HalfKeeps(luma, q.u.stride);
    RoundToRequestMeets(Align(AlignedStride(q, 0), 256), q.u.stride);
  }

  /** Half of a luma stride meets every flag but the odd multiple of 256. */
  lemma HalfKeeps(luma: nat, r: StrideRequest)
    requires Divides(256, luma)
    ensures r != OddTimes256 ==> RequestKeeps(luma / 2, r)
    ensures r == OddTimes256 && RequestKeeps(luma, r) ==> !RequestKeeps(luma / 2, r)
  {
    var k := luma / 256;
    assert luma == 256 * k && luma / 2 == 128 * k;
    Rest(128 * k, 16, 8 * k, 0);
    Rest(128 * k, 64, 2 * k, 0);
    Rest(128 * k, 128, k, 0);
    if luma / 2 % 512 == 256 {
      TwiceOdd(luma / 2);
    }
  }

  lemma TwiceOdd(half: nat)
    requires half % 512 == 256
    ensures 2 * half % 512 == 0
  {
    Rest(2 * half, 512, 2 * (half / 512) + 1, 0);
  }

  lemma EightSixteens()
    ensures Divides(16, 128) && Divides(8, 16) && Divides(16, 64)
  {
  }

  // ----- no stride is larger than asked for -----

  /**
   * Without a stride flag the stride is the least that holds the row and meets what the hardware, the CPU and NV30 ask
   * for: no smaller multiple of all of them would do.
   */
  lemma StrideIsLeast(q: Request, p: nat, m: nat)
    requires LinearRequest(q) && p < q.f.npln && q.f.tileSize == 1 && q.u.stride == NoRequest && !Yv12Shared(q)
    requires Mul(PlaneWidth(q, p), q.f.bpp.At(p)) / 8 <= m
    requires q.u.hw && !(RkVideo(q.f.id) && q.u.strideSpecified) ==> Divides(if q.f.isYuv then 128 else 64, m)
    requires CpuAlign(q, p) > 0 ==> Divides(CpuAlign(q, p), m)
    requires q.f.id == NV30 ==> Divides(64, m)
    ensures LinearStride(q, p) <= m
  {
    hide Mul, Div, Divides, Align, PlaneWidth, CpuAlign, StrideAlign, LinearRow, AfbcRow, AfrcRow, BlockLinearRow, Fits;
    UnitDivides(q, p, m);
    var raw := Mul(PlaneWidth(q, p), q.f.bpp.At(p)) / 8;
    DivideByOne(raw);
    if StrideAlign(q, p) > 0 {
      AlignLeast(raw, StrideAlign(q, p), m);
      DivideByOne(Align(raw, StrideAlign(q, p)));
    }
    if q.f.id == NV30 {
      AlignLeast(AlignedStride(q, p), 64, m);
    }
  }

  lemma UnitDivides(q: Request, p: nat, m: nat)
    requires p < 3 && q.u.stride == NoRequest
    requires q.u.hw && !(RkVideo(q.f.id) && q.u.strideSpecified) ==> Divides(if q.f.isYuv then 128 else 64, m)
    requires CpuAlign(q, p) > 0 ==> Divides(CpuAlign(q, p), m)
    ensures StrideAlign(q, p) > 0 ==> Divides(StrideAlign(q, p), m)
  {
    hide Mul, Div, Divides, Gcd, CpuAlign;
    OneDivides(m);
    if HwAlign(q) > 0 && CpuAlign(q, p) > 0 {
      LcmIsLeastCommonMultiple(HwAlign(q), CpuAlign(q, p));
    }
  }

  /** Planes are no larger than their sample sites, but for the CPU's alignment across and pairs of rows in Y0L2. */
  lemma LinearPlaneIsLeast(q: Request, p: nat)
    requires LinearRequest(q) && p < q.f.npln
    ensures Shape(q.f)
    ensures var columns := Sites(q.width, q.f.alignW, q.f.hsub, p);
      columns <= PlaneWidth(q, p) < columns + Max(if q.u.cpu then q.f.alignWCpu else 1, q.f.tileSize)
    ensures var rows := Sites(q.height, q.f.alignH, q.f.vsub, p);
      rows <= PlaneHeight(q, p) < rows + q.f.tileSize
  {
    hide Mul, Div, Align, Divides, Sites, LinearRow, AfbcRow, AfrcRow, BlockLinearRow, NamedRows;
  }
}
