/**
 * The room the Rockchip video blocks get behind the picture, measured against the buffer the layout would have had.
 */
module VideoGrowth {
  import opened Alignment
  import opened Euclid
  import opened Usages
  import opened Formats
  import opened AllocTypes
  import opened Layout
  import opened LinearLayout
  import opened StrideLaws
  import opened CpuTiles
  import opened Derive
  import opened Layers

  /** The bytes of the first plane, row by row. */
  function FirstPlane(q: Request): nat
    requires Computable(q)
  {
    Mul(ByteStride(q, 0), PlaneHeight(q, 0))
  }

  predicate Video(id: BaseFormat) {
    id == NV12 || id == NV16 || id == NV15 || id == NV24
  }

  /** The client has taken over the stride. */
  predicate StrideUsage(u: LayoutUsage) {
    u.strideSpecified || u.stride != NoRequest
  }

  lemma VideoRows()
    ensures Info(NV16).bpp == Triple(8, 16, 0) && Info(NV16).npln == 2 && Info(NV16).hsub == 2 && Info(NV16).vsub == 1
    ensures Info(NV16).alignW == 2 && Info(NV16).alignH == 1 && Info(NV16).alignWCpu == 1 && Info(NV16).tileSize == 1
    ensures Info(NV24).bpp == Triple(8, 16, 0) && Info(NV24).npln == 2 && Info(NV24).hsub == 1 && Info(NV24).vsub == 1
    ensures Info(NV24).alignW == 1 && Info(NV24).alignH == 1 && Info(NV24).alignWCpu == 1 && Info(NV24).tileSize == 1
    ensures Info(NV12).bpp == Triple(8, 16, 0) && Info(NV12).npln == 2 && Info(NV12).hsub == 2 && Info(NV12).vsub == 2
    ensures Info(NV12).alignW == 2 && Info(NV12).alignH == 2 && Info(NV12).alignWCpu == 1 && Info(NV12).tileSize == 1
    ensures Info(NV15).bpp == Triple(10, 20, 0) && Info(NV15).npln == 2 && Info(NV15).hsub == 2
    ensures Info(NV15).vsub == 2 && Info(NV15).alignW == 2 && Info(NV15).alignH == 2 && Info(NV15).alignWCpu == 1
    ensures Info(NV15).tileSize == 1
  {
  }

  /**
   * What a layer holds: with a stride usage at least two bytes for every pixel of NV12's first plane, two and a half
   * for NV16, two rows for each of NV15's and three for each of NV24's; for every other format, and without a stride
   * usage, just the planes.
   */
  lemma LayerHoldsVideo(q: Request)
    requires Derivable(q) && TableRequest(q)
    ensures StrideUsage(q.u) && q.f.id == NV12 ==> LayerSize(q) == Max(TotalSize(q), 2 * FirstPlane(q))
    ensures StrideUsage(q.u) && q.f.id == NV16 ==> LayerSize(q) == Max(TotalSize(q), 5 * FirstPlane(q) / 2)
    ensures StrideUsage(q.u) && q.f.id == NV15 ==> LayerSize(q) == Max(TotalSize(q), 2 * FirstPlane(q))
    ensures StrideUsage(q.u) && q.f.id == NV24 ==> LayerSize(q) == Max(TotalSize(q), 3 * FirstPlane(q))
    ensures !StrideUsage(q.u) || !Video(q.f.id) ==> LayerSize(q) == TotalSize(q)
  {
    EightBits();
    PlaneCount(q);
    hide Info, Mul, Div, ByteStride, PlaneHeight, TotalSize, Sane, Computable, Shape, LinearStride;
    var s, h := ByteStride(q, 0), PlaneHeight(q, 0);
    Eighth(s);
    Multiples(s, h);
  }

  lemma EightBits()
    ensures Info(NV12).bpp.p0 == 8 && Info(NV16).bpp.p0 == 8
  {
  }

  lemma Eighth(s: nat)
    ensures Div(s * 8, 8) == s
  {
  }

  lemma Multiples(s: nat, h: nat)
    ensures Mul(2 * s, h) == 2 * Mul(s, h) && Mul(3 * s, h) == 3 * Mul(s, h) && Mul(5 * s, h) == 5 * Mul(s, h)
  {
  }

  // ----- the uncompressed video formats -----

  /** A stride usage leaves video rows to the client: only the CPU's two bytes and the flag round them. */
  lemma VideoStride(q: Request, p: nat)
    requires LinearRequest(q) && TableRequest(q) && StrideUsage(q.u) && Video(q.f.id) && p < 2
    requires q.f.id == NV12 ==> q.u.stride == NoRequest
    ensures Shape(q.f) && q.f.npln == 2
    ensures var raw := Mul(PlaneWidth(q, p), q.f.bpp.At(p)) / 8;
      LinearStride(q, p) == RoundToRequest(if q.u.cpu && p == 1 then Align(raw, 2) else raw, q.u.stride)
  {
    VideoRows();
    VideoUnit(q, p);
    hide Info, Align, Mul, Div, PlaneWidth, StrideAlign, RoundToRequest, LinearRow, AfbcRow, AfrcRow, BlockLinearRow,
      NamedRows, Fits;
    var raw := Mul(PlaneWidth(q, p), q.f.bpp.At(p)) / 8;
    DivideByOne(raw);
    AlignOnce(raw);
    DivideByOne(Align(raw, 2));
  }

  lemma VideoUnit(q: Request, p: nat)
    requires TableRequest(q) && StrideUsage(q.u) && Video(q.f.id) && p < 2
    ensures StrideAlign(q, p) == (if q.u.cpu then (if p == 1 then 2 else 1) else if q.u.hw then 1 else 0)
  {
    VideoRows();
    SmallLcms();
    hide Info, Lcm, Sane, Mul;
    var bits := q.f.bpp.At(p);
    MulFacts(1, bits);
    assert q.u.cpu ==> CpuAlign(q, p) == if p == 1 then 2 else 1;
    assert HwAlign(q) == if q.u.hw then 1 else 0;
  }

  lemma VideoWidths(q: Request)
    requires TableRequest(q) && q.at.IsLinear() && Video(q.f.id)
    ensures Shape(q.f) && q.f.npln == 2
    ensures var columns := if q.f.id == NV24 then q.width else (q.width + 1) / 2;
      && PlaneWidth(q, 0) == (if q.f.id == NV24 then columns else 2 * columns) && PlaneWidth(q, 1) == columns
  {
    VideoRows();
    EvenHalves(q.width);
    hide Info, Align, Mul, Div, CeilDiv, LinearRow, AfbcRow, AfrcRow, BlockLinearRow, NamedRows, Fits, Divides;
    AlignOnce(q.width);
    AlignOnce(PlaneSites(q, 0));
    AlignOnce(PlaneSites(q, 1));
    Halve((q.width + 1) / 2);
    DivideByOne(q.width);
  }

  function PlaneSites(q: Request, p: nat): nat
    requires Shape(q.f) && p < q.f.npln
  {
    Sites(q.width, q.f.alignW, q.f.hsub, p)
  }

  lemma VideoHeights(q: Request)
    requires TableRequest(q) && q.at.IsLinear() && Video(q.f.id)
    ensures Shape(q.f) && q.f.npln == 2
    ensures var rows := if q.f.id == NV12 || q.f.id == NV15 then (q.height + 1) / 2 else q.height;
      && PlaneHeight(q, 0) == (if q.f.id == NV12 || q.f.id == NV15 then 2 * rows else rows)
      && PlaneHeight(q, 1) == rows
  {
    VideoRows();
    EvenHalves(q.height);
    hide Info, Align, Mul, Div, CeilDiv, LinearRow, AfbcRow, AfrcRow, BlockLinearRow, NamedRows, Fits, Divides;
    AlignOnce(q.height);
    AlignOnce(Sites(q.height, q.f.alignH, q.f.vsub, 0));
    AlignOnce(Sites(q.height, q.f.alignH, q.f.vsub, 1));
    Halve((q.height + 1) / 2);
    DivideByOne(q.height);
  }

  /** Both planes of a row take the same bytes; NV24's chroma takes twice those of luma. */
  lemma VideoBytes(q: Request)
    requires TableRequest(q) && q.at.IsLinear() && Video(q.f.id)
    ensures Shape(q.f) && q.f.npln == 2
    ensures var raw0 := Mul(PlaneWidth(q, 0), q.f.bpp.p0) / 8;
      var raw1 := Mul(PlaneWidth(q, 1), q.f.bpp.p1) / 8;
      && raw1 == (if q.f.id == NV24 then 2 * raw0 else raw0)
      && (q.f.id == NV12 || q.f.id == NV16 ==> raw0 % 2 == 0)
  {
    VideoRows();
    VideoWidths(q);
    hide Info, PlaneWidth, Mul, Sane;
    var columns := PlaneWidth(q, 1);
    Mul8(columns);
    Mul8(2 * columns);
    TenBitProducts(columns);
    TenBitProducts(2 * columns);
    EvenBytes(columns);
  }

  lemma EvenBytes(k: nat)
    ensures 8 * (2 * k) / 8 == 2 * k && 16 * k / 8 == 2 * k && 8 * k / 8 == k && 2 * k % 2 == 0
  {
  }

  /** The planes of an uncompressed buffer with two planes. */
  lemma TwoPlanes(q: Request)
    requires Computable(q) && q.at.IsLinear() && q.f.npln == 2
    ensures TotalSize(q) == Mul(LinearStride(q, 0), PlaneHeight(q, 0)) + Mul(LinearStride(q, 1), PlaneHeight(q, 1))
    ensures FirstPlane(q) == Mul(LinearStride(q, 0), PlaneHeight(q, 0))
  {
    hide Mul, LinearStride, PlaneHeight;
    assert Start(q, 0) == 0 && Start(q, 1) == End(q, 0);
  }

  /** Rounding an even number of bytes keeps it even. */
  lemma EvenStride(x: nat, r: StrideRequest)
    requires x % 2 == 0
    ensures RoundToRequest(x, r) % 2 == 0 && Align(x, 2) == x
  {
    hide Align, Mul, Div, OddMultipleOf256;
    AlignFixed(x, 2);
    if r != NoRequest && r != Conflicting {
      RequestIsEven(x, r);
    }
  }

  /** NV12 and NV16: both planes have the same even stride. */
  lemma PairedStrides(q: Request)
    requires LinearRequest(q) && TableRequest(q) && StrideUsage(q.u) && (q.f.id == NV12 || q.f.id == NV16)
    ensures Shape(q.f) && q.f.npln == 2
    ensures LinearStride(q, 0) == LinearStride(q, 1) && (q.f.id == NV16 ==> LinearStride(q, 0) % 2 == 0)
  {
    VideoWidths(q);
    hide Info, Mul, Align, PlaneWidth, LinearStride, RoundToRequest, Sane, Shape;
    if q.f.id == NV12 && q.u.stride != NoRequest {
      Nv12Stride(q, 0);
      Nv12Stride(q, 1);
    } else {
      VideoBytes(q);
      VideoStride(q, 0);
      VideoStride(q, 1);
      EvenStride(Mul(PlaneWidth(q, 0), q.f.bpp.p0) / 8, q.u.stride);
    }
  }

  /** NV15: the chroma stride is at most twice that of luma. */
  lemma TenBitStrides(q: Request)
    requires LinearRequest(q) && TableRequest(q) && StrideUsage(q.u) && q.f.id == NV15
    ensures Shape(q.f) && q.f.npln == 2 && LinearStride(q, 1) <= 2 * LinearStride(q, 0)
  {
    VideoWidths(q);
    hide Info, Mul, Align, PlaneWidth, LinearStride, RoundToRequest, Sane, Shape;
    VideoBytes(q);
    VideoStride(q, 0);
    VideoStride(q, 1);
    RoundedEven(Mul(PlaneWidth(q, 0), q.f.bpp.p0) / 8, q.u.stride);
    RoundToRequestGrows(Mul(PlaneWidth(q, 0), q.f.bpp.p0) / 8, q.u.stride);
  }

  /** Rounding to two bytes first costs a byte without a flag, and nothing with one. */
  lemma RoundedEven(x: nat, r: StrideRequest)
    ensures RoundToRequest(Align(x, 2), r) <= 2 * RoundToRequest(x, r)
  {
    hide Mul, Div, Align, Divides, OddMultipleOf256;
    EvenGrains();
    match r {
      case Align16 => AlignNested(x, 2, 16);
      case Align64 => AlignNested(x, 2, 64);
      case Align128 => AlignNested(x, 2, 128);
      case OddTimes256 => OddOfEven(x);
      case NoRequest => EvenIsClose(x);
      case Conflicting => EvenIsClose(x);
    }
  }

  lemma EvenGrains()
    ensures Divides(2, 16) && Divides(2, 64) && Divides(2, 128)
  {
  }

  lemma EvenIsClose(x: nat)
    ensures Align(x, 2) <= 2 * x
  {
    EvenHalves(x);
  }

  lemma OddOfEven(x: nat)
    ensures OddMultipleOf256(Align(x, 2)) == OddMultipleOf256(x)
  {
    EvenHalves(x);
    SameStep(x / 2, x % 2);
  }

  /** An odd number and the next even one lie in the same step. */
  lemma SameStep(k: nat, r: nat)
    requires r < 2
    ensures OddMultipleOf256(2 * k + r) == OddMultipleOf256(2 * ((2 * k + r + 1) / 2))
  {
    if r == 1 {
      var j, low := (k + 128) / 256, (k + 128) % 256;
      assert k + 128 == 256 * j + low;
      StepOf(j, 2 * low);
      StepOf(j, 2 * low + 1);
      assert (2 * k + 2) / 2 == k + 1;
    } else {
      assert (2 * k + 1) / 2 == k;
    }
  }

  lemma StepOf(j: nat, r: nat)
    requires r < 512
    ensures (512 * j + r) / 512 == j
  {
  }

  /**
   * The growth of an uncompressed video buffer with a stride usage, against the buffer it would have been: NV12 grows
   * to four thirds, NV16 to five quarters, NV15 to two of its luma planes; NV24 has the room already, unless a flag
   * rounds its chroma rows to less than twice the luma rows.
   */
  lemma VideoBuffersGrow(q: Request)
    requires LinearRequest(q) && Derivable(q) && TableRequest(q) && StrideUsage(q.u)
    ensures q.f.id == NV12 ==> 3 * LayerSize(q) == 4 * TotalSize(q)
    ensures q.f.id == NV16 ==> 4 * LayerSize(q) == 5 * TotalSize(q)
    ensures q.f.id == NV15 ==> LayerSize(q) == 2 * FirstPlane(q)
    ensures q.f.id == NV24 ==>
      LayerSize(q) == FirstPlane(q) + Max(Mul(LinearStride(q, 1), PlaneHeight(q, 1)), 2 * FirstPlane(q))
    ensures q.f.id == NV24 && q.u.stride == NoRequest ==> LayerSize(q) == TotalSize(q) == 3 * FirstPlane(q)
    ensures !Video(q.f.id) ==> LayerSize(q) == TotalSize(q)
  {
    hide Info, Mul, Div, Align, PlaneWidth, PlaneHeight, LinearStride, LayerSize, TotalSize, Sane, Computable, Shape,
      FirstPlane, RkEnlarges, StrideUsage;
    LayerHoldsVideo(q);
    if Video(q.f.id) {
      VideoHeights(q);
      TwoPlanes(q);
      var s, h := LinearStride(q, 0), PlaneHeight(q, 1);
      MulFacts(s, 2 * h);
      Multiples(h, s);
      MulFacts(s, h);
      if q.f.id == NV12 || q.f.id == NV16 {
        PairedStrides(q);
        if q.f.id == NV16 {
          EvenProduct(s, h);
        }
      } else if q.f.id == NV15 {
        TenBitStrides(q);
        MulMono(LinearStride(q, 1), 2 * s, h, h);
        Multiples(s, h);
      } else if q.u.stride == NoRequest {
        FullChroma(q);
        Multiples(s, h);
      }
    }
  }

  lemma EvenProduct(s: nat, h: nat)
    requires s % 2 == 0
    ensures Mul(s, h) % 2 == 0 && 5 * Mul(s, h) % 2 == 0
  {
    var k := s / 2;
    assert s * h == 2 * (k * h);
    Rest(5 * Mul(s, h), 2, 5 * (k * h), 0) by { assert Mul(5 * (k * h), 2) == 5 * (s * h); }
  }

  lemma FullChroma(q: Request)
    requires LinearRequest(q) && TableRequest(q) && StrideUsage(q.u) && q.f.id == NV24 && q.u.stride == NoRequest
    ensures Shape(q.f) && q.f.npln == 2 && LinearStride(q, 1) == 2 * LinearStride(q, 0)
  {
    VideoWidths(q);
    hide Info, Mul, Align, PlaneWidth, LinearStride, Sane, Shape;
    VideoBytes(q);
    VideoStride(q, 0);
    VideoStride(q, 1);
    TwiceIsEven(Mul(PlaneWidth(q, 0), q.f.bpp.p0) / 8);
  }

  lemma TwiceIsEven(x: nat)
    ensures Align(2 * x, 2) == 2 * x
  {
    AlignFixed(2 * x, 2);
  }
}
