/**
 * The CPU's view of uncompressed rows under every stride flag: exactly when a stride is a multiple of the CPU
 * alignment and the pixel stride is exact. The flags round to powers of two, so depths with a factor of three or five
 * can lose it.
 */
module CpuStrides {
  import opened Alignment
  import opened Euclid
  import opened Usages
  import opened Formats
  import opened AllocTypes
  import opened Layout
  import opened LinearLayout
  import opened StrideLaws

  /** A CPU-accessible uncompressed request for a row of the table. */
  ghost predicate CpuRequest(q: Request) {
    LinearRequest(q) && q.u.cpu && HasInfo(q.f.id) && q.f == Info(q.f.id)
  }

  /** The factor that rounding to a power of two does not supply. */
  function OddPart(bits: nat): nat {
    if bits % 3 == 0 then 3 else if bits % 5 == 0 then 5 else 1
  }

  /** The last rounding a stride goes through; NV30 has one of its own. */
  function LastGrain(id: BaseFormat, r: StrideRequest): (g: nat)
    ensures g == 1 || g == 16 || g == 64 || g == 128 || g == 256
  {
    match r
    case Align16 => if id == NV30 then 64 else 16
    case Align64 => 64
    case Align128 => 128
    case OddTimes256 => 256
    case _ => if id == NV30 then 64 else 1
  }

  /** The bytes of a row, aligned for hardware and CPU. */
  function RowBytes(q: Request, p: nat): nat
    requires Shape(q.f) && p < q.f.npln
  {
    Align(Mul(PlaneWidth(q, p), q.f.bpp.At(p)) / 8, Max(1, StrideAlign(q, p)))
  }

  /** How many grains of the last rounding a row takes. */
  function RowUnits(q: Request, p: nat): nat
    requires Shape(q.f) && p < q.f.npln
  {
    if q.u.stride == OddTimes256 then 2 * ((RowBytes(q, p) + 255) / 512) + 1
    else CeilDiv(RowBytes(q, p), LastGrain(q.f.id, q.u.stride))
  }

  /** No odd factor is needed, or the row happens to have it. */
  predicate UnitsFit(q: Request, p: nat, odd: nat)
    requires Shape(q.f) && p < q.f.npln
  {
    odd <= 1 || RowUnits(q, p) % odd == 0
  }

  /** The source asserts that a stride is a whole number of pixels. */
  ghost predicate WholePixelStride(q: Request)
    requires Computable(q)
  {
    Mul(PixelStride(q), q.f.bpp.p0) == 8 * LinearStride(q, 0)
  }

  // ----- the table -----

  /** The depths in bits that come with each CPU width alignment. */
  predicate CpuPair(bits: nat, alignW: nat) {
    match alignW
    case 1 => bits == 0 || bits == 8 || bits == 10 || bits == 16 || bits == 20 || bits == 24 || bits == 32 || bits == 40
              || bits == 64
    case 4 => bits == 0 || bits == 10 || bits == 12
    case 16 => bits == 0 || bits == 8 || bits == 16
    case _ => false
  }

  predicate Truncated(id: BaseFormat) {
    id == BGR_888 || id == NV15 || id == NV30
  }

  lemma CpuPairs(id: BaseFormat)
    requires HasInfo(id)
    ensures var f := Info(id); CpuPair(f.bpp.p0, f.alignWCpu) && CpuPair(f.bpp.p1, f.alignWCpu)
                               && CpuPair(f.bpp.p2, f.alignWCpu)
  {
    match id {
      case RGB_565 => case RGB_888 => case BGR_888 => case RGBA_8888 => case BGRA_8888 => case RGBX_8888 =>
      case RGBA_1010102 => case RGBA_16161616 => case RGBA_10101010 => case Y8 => case Y16 =>
      case YUV420_8BIT_I => case NV12 => case NV21 => case YV12 => case YU12 => case YUV422_8BIT =>
      case NV16 => case NV24 => case YUV444 => case NV30 => case Q410 => case Q401 => case YUV420_10BIT_I =>
      case Y0L2 => case P010 => case NV15 => case Y210 => case P210 => case Y410 => case RAW16 => case RAW12 =>
      case RAW10 => case BLOB => case DEPTH_16 => case DEPTH_24 => case DEPTH_24_STENCIL_8 => case DEPTH_32F =>
      case DEPTH_32F_STENCIL_8 => case STENCIL_8 => case R8 =>
    }
  }

  lemma TiledRowIsY0L2(id: BaseFormat)
    requires HasInfo(id)
    ensures Info(id).tileSize != 1 ==> id == Y0L2
  {
    match id {
      case RGB_565 => case RGB_888 => case BGR_888 => case RGBA_8888 => case BGRA_8888 => case RGBX_8888 =>
      case RGBA_1010102 => case RGBA_16161616 => case RGBA_10101010 => case Y8 => case Y16 =>
      case YUV420_8BIT_I => case NV12 => case NV21 => case YV12 => case YU12 => case YUV422_8BIT =>
      case NV16 => case NV24 => case YUV444 => case NV30 => case Q410 => case Q401 => case YUV420_10BIT_I =>
      case Y0L2 => case P010 => case NV15 => case Y210 => case P210 => case Y410 => case RAW16 => case RAW12 =>
      case RAW10 => case BLOB => case DEPTH_16 => case DEPTH_24 => case DEPTH_24_STENCIL_8 => case DEPTH_32F =>
      case DEPTH_32F_STENCIL_8 => case STENCIL_8 => case R8 =>
    }
  }

  lemma Bgr888Facts()
    ensures Info(BGR_888).bpp.p0 == 24 && Info(BGR_888).alignWCpu == 1
  {
  }

  /** What the table adds to the conditions every row meets: ten bits come unaligned only in NV15 and NV30. */
  lemma CpuRow(q: Request)
    requires CpuRequest(q)
    ensures Shape(q.f) && 1 <= q.f.npln <= 3 && (q.f.tileSize != 1 ==> q.f.id == Y0L2 && q.f.npln == 1)
    ensures forall p: nat :: p < q.f.npln ==> CpuPair(q.f.bpp.At(p), q.f.alignWCpu)
    ensures CpuPair(q.f.bpp.p0, q.f.alignWCpu) && q.f.alignWCpu > 0
    ensures var bits := q.f.bpp.p0;
      && bits >= 8 && bits != 20
      && (bits == 10 && q.f.alignWCpu == 1 ==> Truncated(q.f.id))
      && (Truncated(q.f.id) ==> q.f.alignWCpu == 1 && bits == (if q.f.id == BGR_888 then 24 else 10))
    ensures q.f.id == NV12 || q.f.id == YV12 ==> q.f.bpp.p0 == 8
    ensures q.f.tileSize != 1 ==> q.f.bpp.p0 == 16
  {
    hide Info, AfbcRow, AfrcRow, BlockLinearRow;
    CpuPairs(q.f.id);
    TiledRowIsY0L2(q.f.id);
    Bgr888Facts();
  }

  /** The alignments in bytes: powers of two, or three, five and six. */
  predicate CpuUnit(unit: nat) {
    Power(unit) || unit == 0 || unit == 3 || unit == 5 || unit == 6
  }

  predicate Power(unit: nat) {
    unit == 1 || unit == 2 || unit == 4 || unit == 8 || unit == 16 || unit == 32
  }

  lemma UnitOfPair(bits: nat, alignW: nat)
    requires CpuPair(bits, alignW)
    ensures var unit := Mul(bits, alignW) / 8;
      && CpuUnit(unit)
      && (unit > 0 ==> (OddPart(unit) == 1 <==> Power(unit)))
      && (unit > 0 && (alignW > 1 || (bits != 10 && bits != 20)) ==>
            (8 * unit == Mul(bits, alignW) && OddPart(unit) == OddPart(bits)))
  {
    match alignW {
      case 1 => assert Mul(bits, 1) == bits;
      case 4 => assert Mul(bits, 4) == 4 * bits;
      case 16 => assert Mul(bits, 16) == 16 * bits;
    }
  }

  // ----- the stride as units of its last grain -----

  lemma RowOfTileOne(q: Request, p: nat)
    requires Shape(q.f) && p < q.f.npln && q.f.tileSize == 1
    ensures AlignedStride(q, p) == RowBytes(q, p)
  {
    hide Mul, Div, Align, PlaneWidth, StrideAlign;
    var raw := Mul(PlaneWidth(q, p), q.f.bpp.At(p)) / 8;
    DivideByOne(raw);
    AlignOnce(raw);
    if StrideAlign(q, p) > 0 {
      DivideByOne(Align(raw, StrideAlign(q, p)));
    }
  }

  /** Where rows are rounded on their own, the stride comes from the bytes of the row by the last roundings. */
  lemma StrideFromRow(q: Request, p: nat)
    requires Shape(q.f) && p < q.f.npln && q.f.tileSize == 1
    requires !(q.f.id == NV12 && q.u.stride != NoRequest) && !Yv12Shared(q)
    ensures var requested := RoundToRequest(RowBytes(q, p), q.u.stride);
      LinearStride(q, p) == if q.f.id == NV30 then Align(requested, 64) else requested
  {
    hide Mul, Div, Align, PlaneWidth, StrideAlign, AlignedStride, RowBytes, RoundToRequest;
    RowOfTileOne(q, p);
  }

  /** It is a whole number of grains. */
  lemma StrideInUnits(q: Request, p: nat)
    requires Shape(q.f) && p < q.f.npln && q.f.tileSize == 1
    requires !(q.f.id == NV12 && q.u.stride != NoRequest) && !Yv12Shared(q)
    ensures LinearStride(q, p) == Mul(RowUnits(q, p), LastGrain(q.f.id, q.u.stride))
  {
    hide Mul, Div, CeilDiv, Align, RowBytes, RoundToRequest, LinearStride, Shape;
    StrideFromRow(q, p);
    RoundedInUnits(RowBytes(q, p), q.f.id, q.u.stride);
  }

  lemma RoundedInUnits(x: nat, id: BaseFormat, r: StrideRequest)
    ensures var requested := RoundToRequest(x, r);
      var units := if r == OddTimes256 then 2 * ((x + 255) / 512) + 1 else CeilDiv(x, LastGrain(id, r));
      (if id == NV30 then Align(requested, 64) else requested) == Mul(units, LastGrain(id, r))
  {
    hide Mul, Div, CeilDiv, Align, Divides;
    var g := LastGrain(id, r);
    UnitsOf(x, g);
    match r {
      case Align16 => AlignNested(x, 16, 64) by { SixtyFours(); }
      case Align64 => AlignFixed(Align(x, 64), 64) by { AlignDivides(x, 64); }
      case Align128 =>
        AlignDivides(x, 128);
        SixtyFours();
        DividesTransitive(64, 128, Align(x, 128));
        AlignFixed(Align(x, 128), 64);
      case OddTimes256 =>
        var j := (x + 255) / 512;
        TwoFiftySix(2 * j + 1);
        KeptBySixtyFour(OddMultipleOf256(x), 8 * j + 4);
      case NoRequest => AlignOnce(x);
      case Conflicting => AlignOnce(x);
    }
  }

  lemma TwoFiftySix(x: nat)
    ensures Mul(x, 256) == 256 * x
  {
  }

  /** A power of two neither adds nor removes a factor of three or five. */
  lemma OddFactor(units: nat, grain: nat, d: nat)
    requires grain == 1 || grain == 16 || grain == 64 || grain == 128 || grain == 256
    requires d == 3 || d == 5
    ensures Mul(units, grain) % d == 0 <==> units % d == 0
  {
    hide Mul;
    UnitProducts(units);
    TwoFiftySix(units);
    Doubled(units, d);
    Doubled(2 * units, d);
    Doubled(4 * units, d);
    Doubled(8 * units, d);
    Doubled(16 * units, d);
    Doubled(32 * units, d);
    Doubled(64 * units, d);
    Doubled(128 * units, d);
  }

  lemma Doubled(x: nat, d: nat)
    requires d == 3 || d == 5
    ensures 2 * x % d == 0 <==> x % d == 0
  {
    var k, r := x / d, x % d;
    assert x == d * k + r;
    if d == 3 {
      Rest(2 * x, 3, 2 * k + 2 * r / 3, 2 * r % 3);
    } else {
      Rest(2 * x, 5, 2 * k + 2 * r / 5, 2 * r % 5);
    }
  }

  // ----- the CPU alignment -----

  /** A power of two up to 32 survives every rounding. */
  lemma PowerSurvives(x: nat, r: StrideRequest, last: bool, unit: nat)
    requires Power(unit)
    requires Divides(unit, x)
    ensures var requested := RoundToRequest(x, r);
      Divides(unit, requested) && (last ==> Divides(unit, Align(requested, 64)))
  {
    hide Align, Divides, OddMultipleOf256;
    SmallPowers(unit);
    var requested := RoundToRequest(x, r);
    match r {
      case Align16 =>
        AlignDivides(x, 16);
        if unit == 32 {
          DividesTransitive(16, 32, x);
          AlignFixed(x, 16);
        } else {
          DividesTransitive(unit, 16, requested);
        }
      case Align64 =>
        AlignDivides(x, 64);
        DividesTransitive(unit, 64, requested);
      case Align128 =>
        AlignDivides(x, 128);
        DividesTransitive(unit, 128, requested);
      case OddTimes256 =>
        OddMultipleIsMultiple(x);
        DividesTransitive(unit, 256, requested);
      case NoRequest =>
      case Conflicting =>
    }
    AlignDivides(requested, 64);
    DividesTransitive(unit, 64, Align(requested, 64));
  }

  lemma SmallPowers(unit: nat)
    requires Power(unit)
    ensures Divides(unit, 32) && Divides(unit, 64) && Divides(unit, 128) && Divides(unit, 256)
    ensures unit != 32 ==> Divides(unit, 16)
    ensures Divides(16, 32)
  {
  }

  lemma UnitDividesRow(q: Request, p: nat)
    requires Shape(q.f) && p < q.f.npln && CpuAlign(q, p) > 0
    ensures StrideAlign(q, p) > 0 && Divides(CpuAlign(q, p), StrideAlign(q, p))
    ensures Divides(CpuAlign(q, p), RowBytes(q, p))
  {
    hide Mul, Div, Align, Divides, CpuAlign, PlaneWidth, Gcd;
    if HwAlign(q) > 0 {
      LcmIsLeastCommonMultiple(HwAlign(q), CpuAlign(q, p));
    } else {
      SelfAndZero(CpuAlign(q, p));
    }
    AlignDivides(Mul(PlaneWidth(q, p), q.f.bpp.At(p)) / 8, StrideAlign(q, p));
    DividesTransitive(CpuAlign(q, p), StrideAlign(q, p), RowBytes(q, p));
  }

  /**
   * Every plane's stride is a multiple of the CPU alignment under every flag, exactly unless the alignment has a factor
   * of three or five and the row does not take a multiple of that many grains.
   */
  lemma CpuAlignmentExactlyWhen(q: Request, p: nat)
    requires CpuRequest(q) && p < q.f.npln && CpuAlign(q, p) > 0
    ensures Divides(CpuAlign(q, p), LinearStride(q, p)) <==> UnitsFit(q, p, OddPart(CpuAlign(q, p)))
  {
    hide Info, Mul, Div, Align, Divides, LinearStride, UnitsFit, OddPart, LinearRow, AfbcRow, AfrcRow, BlockLinearRow,
      NamedRows, Fits, Shape, CpuPair;
    CpuRow(q);
    CpuUnitIs(q, p);
    var unit := CpuAlign(q, p);
    if q.f.id == NV12 && q.u.stride != NoRequest {
      Nv12Unit(q, p);
    } else if Yv12Shared(q) {
      SharedUnit(q, p);
    } else if q.f.tileSize != 1 {
      TiledUnit(q);
    } else if Power(unit) {
      UnitDividesRow(q, p);
      StrideFromRow(q, p);
      PowerSurvives(RowBytes(q, p), q.u.stride, q.f.id == NV30, unit);
      NoOddPart(q, p, unit);
    } else {
      OddUnit(q, p);
    }
  }

  lemma CpuUnitIs(q: Request, p: nat)
    requires CpuRequest(q) && p < q.f.npln && CpuAlign(q, p) > 0
    ensures CpuUnit(CpuAlign(q, p)) && (OddPart(CpuAlign(q, p)) == 1 <==> Power(CpuAlign(q, p)))
    ensures q.f.id == NV12 ==> CpuAlign(q, p) <= 2
    ensures q.f.id == YV12 ==> CpuAlign(q, p) == 16
  {
    CpuRow(q);
    NamedPairs(q, p);
    hide Info, OddPart, CpuPair, Shape, Sane;
    UnitOfPair(q.f.bpp.At(p), q.f.alignWCpu);
  }

  lemma NamedPairs(q: Request, p: nat)
    requires LinearRequest(q) && p < q.f.npln
    ensures p < 3
    ensures q.f.id == NV12 ==> Mul(q.f.bpp.At(p), q.f.alignWCpu) <= 16
    ensures q.f.id == YV12 ==> Mul(q.f.bpp.At(p), q.f.alignWCpu) == 128
  {
    hide LinearRow, AfbcRow, AfrcRow, BlockLinearRow, Fits;
  }

  lemma NoOddPart(q: Request, p: nat, unit: nat)
    requires Shape(q.f) && p < q.f.npln && Power(unit)
    ensures UnitsFit(q, p, OddPart(unit))
  {
    hide RowUnits;
  }

  lemma OddUnit(q: Request, p: nat)
    requires Shape(q.f) && p < q.f.npln && q.f.tileSize == 1 && CpuAlign(q, p) > 0
    requires CpuAlign(q, p) == 3 || CpuAlign(q, p) == 5 || CpuAlign(q, p) == 6
    requires q.f.id != NV12 && q.f.id != YV12
    ensures Divides(CpuAlign(q, p), LinearStride(q, p)) <==> UnitsFit(q, p, OddPart(CpuAlign(q, p)))
  {
    hide Mul, Div, Align, Divides, CpuAlign, RowBytes, RowUnits, LinearStride;
    var unit, g, units := CpuAlign(q, p), LastGrain(q.f.id, q.u.stride), RowUnits(q, p);
    StrideInUnits(q, p);
    OddFactor(units, g, OddPart(unit));
    SixByThree(LinearStride(q, p), unit);
    if g == 1 {
      UnitDividesRow(q, p);
      AloneInUnits(q, p);
    } else {
      EvenStride(units, g);
    }
  }

  lemma SixByThree(x: nat, unit: nat)
    requires unit == 3 || unit == 5 || unit == 6
    ensures Divides(unit, x) <==> x % OddPart(unit) == 0 && (unit == 6 ==> x % 2 == 0)
  {
    if unit == 6 {
      var k, r := x / 6, x % 6;
      assert x == 6 * k + r;
      Rest(x, 2, 3 * k + r / 2, r % 2);
      Rest(x, 3, 2 * k + r / 3, r % 3);
    }
  }

  lemma EvenStride(units: nat, g: nat)
    requires g == 16 || g == 64 || g == 128 || g == 256
    ensures Mul(units, g) % 2 == 0
  {
    hide Mul;
    UnitProducts(units);
    TwoFiftySix(units);
    Rest(Mul(units, g), 2, if g == 16 then 8 * units else if g == 64 then 32 * units
                           else if g == 128 then 64 * units else 128 * units, 0) by { UnitHalves(units); }
  }

  lemma UnitHalves(x: nat)
    ensures Mul(8 * x, 2) == 16 * x && Mul(32 * x, 2) == 64 * x && Mul(64 * x, 2) == 128 * x
    ensures Mul(128 * x, 2) == 256 * x && Mul(2 * x, 4) == 8 * x && Mul(4 * x, 2) == 8 * x
  {
  }

  lemma AloneInUnits(q: Request, p: nat)
    requires Shape(q.f) && p < q.f.npln && LastGrain(q.f.id, q.u.stride) == 1
    ensures Mul(RowUnits(q, p), 1) == RowBytes(q, p)
  {
    hide Mul, Div, Align, RowBytes, CeilDiv;
    UnitsOf(RowBytes(q, p), 1);
    AlignOnce(RowBytes(q, p));
  }

  lemma Nv12Unit(q: Request, p: nat)
    requires LinearRequest(q) && q.f.id == NV12 && q.u.stride != NoRequest && p < q.f.npln
    requires 0 < CpuAlign(q, p) <= 2
    ensures Divides(CpuAlign(q, p), LinearStride(q, p)) && OddPart(CpuAlign(q, p)) == 1
    ensures UnitsFit(q, p, 1)
  {
    hide LinearStride, RoundToRequest, CpuAlign, RowUnits, Sane;
    Nv12Planes(q);
    Nv12Stride(q, p);
    if q.u.stride != Conflicting {
      RequestIsEven(q.width, q.u.stride);
    }
  }

  lemma SharedUnit(q: Request, p: nat)
    requires LinearRequest(q) && Yv12Shared(q) && p < q.f.npln && CpuAlign(q, p) == 16
    ensures Divides(16, LinearStride(q, p)) && UnitsFit(q, p, OddPart(16))
  {
    assert Shape(q.f);
    SixteenIsEven();
    hide Mul, Div, Align, Divides, LinearStride, RoundToRequest, CpuAlign, RowUnits, Sane, OddPart, StrideAlign,
      AlignedStride, PlaneWidth;
    SharedStrides(q);
    SixtyFours();
    EightSixteens();
    DividesTransitive(16, 128, 256);
    DividesTransitive(16, 256, LinearStride(q, 0));
    DoubleDivides(128, LinearStride(q, 0));
    if p > 0 {
      RequestKeepsGrain(LinearStride(q, 0) / 2, q.u.stride, 128);
      DividesTransitive(16, 128, LinearStride(q, p));
    }
  }

  lemma SixteenIsEven()
    ensures OddPart(16) == 1
  {
  }

  /** Y0L2 stores two rows in one; its stride is even all the same. */
  lemma TiledUnit(q: Request)
    requires Shape(q.f) && q.f == Info(Y0L2) && q.u.cpu
    ensures CpuAlign(q, 0) == 2 && Divides(2, LinearStride(q, 0)) && UnitsFit(q, 0, OddPart(2))
  {
    TiledShape();
    hide Align, Div, RoundToRequest, AlignedStride, RowUnits, Shape, Info;
    Mul8(2);
    TiledRow(q);
    PowerSurvives(AlignedStride(q, 0), q.u.stride, false, 2);
  }

  lemma TiledRow(q: Request)
    requires Shape(q.f) && q.f == Info(Y0L2) && q.u.cpu
    ensures Divides(2, AlignedStride(q, 0))
  {
    TiledShape();
    hide Info, Align, Div, Lcm, Mul, Divides, PlaneWidth, WidthUnit, StrideAlign, Shape;
    var w, unit := PlaneWidth(q, 0), StrideAlign(q, 0);
    TiledWidth(q);
    TiledAlign(q);
    TiledBytes(w);
    AlignDivides(4 * w, unit);
    if unit == 2 {
      DividesTransitive(2, 4, 4 * w);
      AlignFixed(4 * w, 2);
    }
    HalfIsDiv(Align(4 * w, unit));
    QuarterEven(Align(4 * w, unit), unit);
  }

  lemma TiledWidth(q: Request)
    requires Shape(q.f) && q.f == Info(Y0L2) && q.u.cpu
    ensures PlaneWidth(q, 0) % 2 == 0
  {
    TiledShape();
    hide Info, Align, Div, Mul, Shape, PlaneWidth;
    PlaneWidthIsAligned(q, 0);
  }

  lemma TiledAlign(q: Request)
    requires q.f == Info(Y0L2) && q.u.cpu
    ensures StrideAlign(q, 0) == 2 || StrideAlign(q, 0) == 128
  {
    TiledShape();
    SmallLcms();
    hide Info, Lcm, Mul;
    Mul8(1);
    MulFacts(16, 1);
  }

  lemma TiledBytes(w: nat)
    ensures Mul(w, 16) / 8 == 2 * w && Mul(2 * w, 2) == 4 * w
    ensures Divides(4, 4 * w) && Divides(2, 4) && (w % 2 == 0 ==> Divides(4, 2 * w))
  {
    Mul8(w);
    Rest(4 * w, 4, w, 0);
    if w % 2 == 0 {
      Rest(2 * w, 4, w / 2, 0);
    }
  }

  lemma TiledShape()
    ensures var f := Info(Y0L2);
      f.id == Y0L2 && f.npln == 1 && f.bpp.p0 == 16 && f.tileSize == 2 && f.alignWCpu == 1 && f.isYuv
  {
  }

  lemma QuarterEven(x: nat, unit: nat)
    requires (unit == 2 && Divides(4, x)) || (unit == 128 && Divides(128, x))
    ensures Divides(2, x / 2)
  {
    if unit == 128 {
      Rest(x, 4, 32 * (x / 128), 0);
    }
    DoubleDivides(2, x);
  }

  // ----- the pixel stride -----

  /** Whole pixels of ten, twelve, 24 or 40 bits. */
  lemma PixelsAreWhole(stride: nat, bits: nat)
    requires bits == 10 || bits == 12 || bits == 24 || bits == 40
    ensures Mul(Div(8 * stride, bits), bits) == 8 * stride <==> stride % OddPart(bits) == 0
  {
    hide Mul, Div;
    DivBounds(8 * stride, bits);
    var d := OddPart(bits);
    var k, r := stride / d, stride % d;
    assert stride == d * k + r;
    match bits {
      case 10 => Rest(8 * stride, 10, 4 * k + 8 * r / 10, 8 * r % 10) by { TenBitProducts(4 * k + 8 * r / 10); }
      case 12 => Rest(8 * stride, 12, 2 * k + 8 * r / 12, 8 * r % 12) by { PixelProducts(2 * k + 8 * r / 12); }
      case 24 => Rest(8 * stride, 24, k, 8 * r) by { PixelProducts(k); }
      case 40 => Rest(8 * stride, 40, k, 8 * r) by { PixelProducts(k); }
    }
  }

  lemma PixelProducts(x: nat)
    ensures Mul(x, 12) == 12 * x && Mul(x, 24) == 24 * x && Mul(x, 40) == 40 * x
  {
  }

  /**
   * The pixel-stride theorem, for every uncompressed format under every flag: the pixel stride is exact, as the source
   * asserts, if and only if the depth has no factor of three or five or the row takes a multiple of that many grains.
   * An exact one is a multiple of the CPU width alignment.
   */
  lemma PixelStrideExactlyWhen(q: Request)
    requires CpuRequest(q)
    ensures Computable(q)
    ensures WholePixelStride(q) <==> UnitsFit(q, 0, OddPart(q.f.bpp.p0))
    ensures UnitsFit(q, 0, OddPart(q.f.bpp.p0)) ==> Divides(q.f.alignWCpu, PixelStride(q))
  {
    SaneIsComputable(q);
    hide Info, Mul, Div, LinearStride, Sane, UnitsFit, OddPart, Shape, CpuRequest;
    if Truncated(q.f.id) {
      TruncatedPixels(q);
    } else {
      UnitPixels(q);
    }
  }

  /** Where the CPU alignment is dropped or cut, the pixel stride is decided by the units alone. */
  lemma TruncatedPixels(q: Request)
    requires CpuRequest(q) && Computable(q) && Truncated(q.f.id)
    ensures WholePixelStride(q) <==> UnitsFit(q, 0, OddPart(q.f.bpp.p0))
    ensures Divides(q.f.alignWCpu, PixelStride(q))
  {
    hide Info, Mul, Div, LinearStride, Sane, UnitsFit, Shape, CpuPair;
    CpuRow(q);
    PixelsAreWhole(LinearStride(q, 0), q.f.bpp.p0);
    OddStrides(q);
    OneDivides(PixelStride(q));
  }

  /** Elsewhere it is exact when the stride is a multiple of the CPU alignment. */
  lemma UnitPixels(q: Request)
    requires CpuRequest(q) && Computable(q) && !Truncated(q.f.id)
    ensures WholePixelStride(q) <==> UnitsFit(q, 0, OddPart(q.f.bpp.p0))
    ensures UnitsFit(q, 0, OddPart(q.f.bpp.p0)) ==> Divides(q.f.alignWCpu, PixelStride(q))
  {
    hide Info, Mul, Div, Divides, LinearStride, OddPart, Shape, RowUnits, Sane, CpuAlign, CpuPair, Computable;
    CpuRow(q);
    UnitIsExact(q);
    CpuAlignmentExactlyWhen(q, 0);
    if Divides(CpuAlign(q, 0), LinearStride(q, 0)) {
      PixelStrideOfUnit(q, CpuAlign(q, 0));
    } else {
      OddDepth(q.f.bpp.p0, q.f.alignWCpu);
      PixelsAreWhole(LinearStride(q, 0), q.f.bpp.p0);
      OddStrides(q);
    }
  }

  lemma UnitIsExact(q: Request)
    requires CpuRequest(q) && !Truncated(q.f.id)
    ensures CpuAlign(q, 0) > 0 && 8 * CpuAlign(q, 0) == Mul(q.f.bpp.p0, q.f.alignWCpu)
    ensures OddPart(CpuAlign(q, 0)) == OddPart(q.f.bpp.p0)
  {
    CpuRow(q);
    hide Info, Mul, Shape, Sane, CpuPair, OddPart;
    UnitOfPair(q.f.bpp.p0, q.f.alignWCpu);
    MulFacts(q.f.bpp.p0, q.f.alignWCpu);
  }

  lemma OddDepth(bits: nat, alignW: nat)
    requires CpuPair(bits, alignW) && bits >= 8 && bits != 20 && OddPart(bits) > 1
    ensures bits == 10 || bits == 12 || bits == 24 || bits == 40
  {
  }

  /** A depth with an odd factor: the stride has it exactly when its units do. */
  lemma OddStrides(q: Request)
    requires CpuRequest(q) && OddPart(q.f.bpp.p0) > 1
    ensures LinearStride(q, 0) % OddPart(q.f.bpp.p0) == 0 <==> UnitsFit(q, 0, OddPart(q.f.bpp.p0))
  {
    hide Info, Mul, LinearStride, Sane, RowUnits;
    CpuRow(q);
    SixteenIsEven();
    StrideInUnits(q, 0);
    OddFactor(RowUnits(q, 0), LastGrain(q.f.id, q.u.stride), OddPart(q.f.bpp.p0));
  }
}
