/** The AFBC layout: whole superblocks, aligned headers and bodies, and the doubled front-buffer body. */
module AfbcLayout {
  import opened Alignment
  import opened Formats
  import opened AllocTypes
  import opened Layout
  import opened PlaneOrder
  import opened Euclid

  ghost predicate AfbcAllocation(q: Request) {
    Sane(q) && q.at.IsAfbc()
  }

  /** An AFBC allocation reached without CPU usage. */
  ghost predicate AfbcRequest(q: Request) {
    AfbcAllocation(q) && !q.u.cpu
  }

  lemma SuperblockShape(q: Request, p: nat)
    requires AfbcRequest(q) && p < q.f.npln
    ensures (SbWidth(q.at, p) == 16 && SbHeight(q.at, p) == 16)
         || (SbWidth(q.at, p) == 32 && SbHeight(q.at, p) == 8)
         || (SbWidth(q.at, p) == 64 && SbHeight(q.at, p) == 4)
    ensures Mul(SbWidth(q.at, p), SbHeight(q.at, p)) == 256
  {
  }

  lemma TimesDivides(k: nat, d: nat, x: nat)
    requires d > 0 && x == Mul(k, d)
    ensures Divides(d, x)
  {
    ProductDivides(k, d);
  }

  lemma SmallMultiples(d: nat)
    ensures Mul(1, d) == d && Mul(2, d) == 2 * d && Mul(4, d) == 4 * d && Mul(8, d) == 8 * d
  {
  }

  lemma UnitsAreWholeSuperblocks(q: Request, p: nat)
    requires AfbcRequest(q) && p < q.f.npln
    ensures Divides(SbWidth(q.at, p), WidthUnit(q, p))
    ensures Divides(SbHeight(q.at, p), HeightUnit(q, p))
    ensures Divides(TileSide(q, p, SbWidth(q.at, p)), WidthUnit(q, p))
    ensures Divides(TileSide(q, p, SbHeight(q.at, p)), HeightUnit(q, p))
  {
    hide Mul, Divides, LinearRow, AfrcRow, BlockLinearRow, NamedRows;
    SuperblockShape(q, p);
    var w, h := SbWidth(q.at, p), SbHeight(q.at, p);
    SmallMultiples(w);
    SmallMultiples(h);
    var kw := if WidthUnit(q, p) == w then 1 else if WidthUnit(q, p) == 4 * w then 4 else 8;
    var kh := if HeightUnit(q, p) == h then 1 else if HeightUnit(q, p) == 2 * h then 2
              else if HeightUnit(q, p) == 4 * h then 4 else 8;
    TimesDivides(kw, w, WidthUnit(q, p));
    TimesDivides(kh, h, HeightUnit(q, p));
    var tw, th := TileSide(q, p, w), TileSide(q, p, h);
    SmallMultiples(tw);
    SmallMultiples(th);
    TimesDivides(if WidthUnit(q, p) == tw then 1 else 4, tw, WidthUnit(q, p));
    TimesDivides(if HeightUnit(q, p) == th then 1 else 2, th, HeightUnit(q, p));
  }

  /** Every plane is a whole number of superblocks, and of header tiles, in both directions. */
  lemma PlanesAreWholeSuperblocks(q: Request, p: nat)
    requires AfbcRequest(q) && p < q.f.npln
    ensures Divides(SbWidth(q.at, p), PlaneWidth(q, p)) && Divides(SbHeight(q.at, p), PlaneHeight(q, p))
    ensures Divides(TileSide(q, p, SbWidth(q.at, p)), PlaneWidth(q, p))
    ensures Divides(TileSide(q, p, SbHeight(q.at, p)), PlaneHeight(q, p))
  {
    hide Mul, Div, Divides, Align, WidthUnit, HeightUnit, Sites;
    UnitsAreWholeSuperblocks(q, p);
    AlignDivides(Sites(q.width, q.f.alignW, q.f.hsub, p), WidthUnit(q, p));
    AlignDivides(Sites(q.height, q.f.alignH, q.f.vsub, p), HeightUnit(q, p));
    DividesTransitive(SbWidth(q.at, p), WidthUnit(q, p), PlaneWidth(q, p));
    DividesTransitive(SbHeight(q.at, p), HeightUnit(q, p), PlaneHeight(q, p));
    DividesTransitive(TileSide(q, p, SbWidth(q.at, p)), WidthUnit(q, p), PlaneWidth(q, p));
    DividesTransitive(TileSide(q, p, SbHeight(q.at, p)), HeightUnit(q, p), PlaneHeight(q, p));
  }

  lemma FourOrEight(side: nat)
    requires side > 0
    ensures Divides(4 * side, 4 * side) && Divides(4 * side, 8 * side)
  {
    TimesDivides(1, 4 * side, 4 * side) by { SmallMultiples(4 * side); }
    TimesDivides(2, 4 * side, 8 * side) by { SmallMultiples(4 * side); }
  }

  /**
   * Padded RGB allocations have a multiple of four superblocks across, which makes header rows multiples of 64 bytes;
   * wide blocks with linear headers are padded to 16 rows, as the hardware reads 32x16 blocks.
   */
  lemma PaddingIsHonoured(q: Request, p: nat)
    requires AfbcRequest(q) && p < q.f.npln
    ensures q.at.padded && !q.f.isYuv ==> Divides(4 * SbWidth(q.at, p), PlaneWidth(q, p))
    ensures q.at.scheme == AfbcWide && !q.at.tiled ==> Divides(16, PlaneHeight(q, p))
  {
    hide Mul, Div, Divides, Align, Sites, LinearRow, AfrcRow, BlockLinearRow, NamedRows;
    SuperblockShape(q, p);
    AlignDivides(Sites(q.width, q.f.alignW, q.f.hsub, p), WidthUnit(q, p));
    AlignDivides(Sites(q.height, q.f.alignH, q.f.vsub, p), HeightUnit(q, p));
    FourOrEight(SbWidth(q.at, p));
    if q.at.padded && !q.f.isYuv {
      DividesTransitive(4 * SbWidth(q.at, p), WidthUnit(q, p), PlaneWidth(q, p));
    }
  }

  lemma AreaOfBlocks(a: nat, b: nat, w: nat, h: nat)
    requires Mul(w, h) == 256
    ensures Mul(Mul(a, w), Mul(b, h)) == 256 * Mul(a, b)
  {
    assert (a * w) * (b * h) == (a * b) * (w * h);
  }

  /** width * height / 256 is the exact number of superblocks: columns times rows, with nothing truncated. */
  lemma SuperblockCountIsExact(q: Request, p: nat)
    requires AfbcRequest(q) && p < q.f.npln
    ensures var w, h := SbWidth(q.at, p), SbHeight(q.at, p);
      && w > 0 && h > 0
      && SuperblockCount(q, p) == Mul(Div(PlaneWidth(q, p), w), Div(PlaneHeight(q, p), h))
      && Mul(PlaneWidth(q, p), PlaneHeight(q, p)) == 256 * SuperblockCount(q, p)
  {
    hide Mul, Div, Divides, PlaneWidth, PlaneHeight, SbWidth, SbHeight, Shape, AfbcRow;
    SuperblockShape(q, p);
    PlanesAreWholeSuperblocks(q, p);
    var w, h := SbWidth(q.at, p), SbHeight(q.at, p);
    Quotient(w, PlaneWidth(q, p));
    Quotient(h, PlaneHeight(q, p));
    AreaOfBlocks(Div(PlaneWidth(q, p), w), Div(PlaneHeight(q, p), h), w, h);
  }

  lemma EightDivides(side: nat)
    requires side == 16 || side == 32 || side == 64
    ensures Divides(8, side)
  {
  }

  lemma SixteenDivides(side: nat, w: nat, bits: nat)
    requires side == 16 || side == 32 || side == 64
    requires Divides(side, w)
    ensures Mul(w, bits) % 8 == 0
  {
    hide Mul;
    EightDivides(side);
    DividesTransitive(8, side, w);
    DividesProduct(8, w, bits);
  }

  /** The byte stride of a compressed plane is exact, as the source asserts. */
  lemma AfbcRowsAreWholeBytes(q: Request, p: nat)
    requires AfbcRequest(q) && p < q.f.npln
    ensures Computable(q) && Mul(PlaneWidth(q, p), q.f.bppAfbc.At(p)) == 8 * ByteStride(q, p)
  {
    SaneIsComputable(q);
    SuperblockShape(q, p);
    PlanesAreWholeSuperblocks(q, p);
    hide Mul, Divides, PlaneWidth, SbWidth, SbHeight, Sane;
    SixteenDivides(SbWidth(q.at, p), PlaneWidth(q, p), q.f.bppAfbc.At(p));
  }

  // ----- alignment of headers and bodies -----

  lemma HeaderIsAligned(q: Request, p: nat)
    requires AfbcAllocation(q) && p < q.f.npln
    ensures Divides(AfbcGrain(q.at.tiled), HeaderSize(q, p))
    ensures SuperblockCount(q, p) * 16 <= HeaderSize(q, p)
  {
    hide Mul, Div, Align, Divides, SuperblockCount, AfbcGrain;
    assert AfbcGrain(q.at.tiled) > 0 by { GrainPositive(q.at.tiled); }
    AlignDivides(SuperblockCount(q, p) * 16, AfbcGrain(q.at.tiled));
  }

  lemma GrainPositive(tiled: bool)
    ensures AfbcGrain(tiled) > 0
  {
  }

  lemma AfbcBody(q: Request, p: nat)
    requires Computable(q) && q.at.IsAfbc() && p < q.f.npln
    ensures AfbcGrain(q.at.tiled) > 0
    ensures var one := SingleBody(q, p);
      BodySize(q, p) == if q.at.frontBufferSafe then one + Align(one, AfbcGrain(q.at.tiled)) else one
  {
    hide Mul, Div, Align, SingleBody, Computable;
  }

  lemma SingleBodyIsAligned(q: Request, p: nat)
    requires Shape(q.f) && p + 1 < q.f.npln
    ensures Divides(AfbcGrain(q.at.tiled), SingleBody(q, p))
  {
    hide Mul, Div, Align, Divides, SuperblockCount, SuperblockBytes, AfbcGrain;
    GrainPositive(q.at.tiled);
    AlignDivides(Mul(SuperblockCount(q, p), SuperblockBytes(q, p)), AfbcGrain(q.at.tiled));
  }

  /** Every header and every body starts on the AFBC grain: 1024 bytes, or 4096 with tiled headers. */
  lemma {:induction false} HeadersAndBodiesAreAligned(q: Request, p: nat)
    requires AfbcAllocation(q) && p < q.f.npln
    ensures Computable(q)
    ensures Divides(AfbcGrain(q.at.tiled), Start(q, p))
    ensures Divides(AfbcGrain(q.at.tiled), Start(q, p) + HeaderSize(q, p))
  {
    hide Mul, Div, Divides, Align, HeaderSize, SingleBody, BodySize, Start, End, AfbcGrain, WellFormed, Fits;
    SaneIsComputable(q);
    HeaderIsAligned(q, p);
    GrainPositive(q.at.tiled);
    var grain := AfbcGrain(q.at.tiled);
    if p == 0 {
      SelfAndZero(grain);
      FirstPlaneStartsAtZero(q);
    } else {
      HeadersAndBodiesAreAligned(q, p - 1);
      // A body another plane may follow is padded to the grain, also when it is doubled.
      var one := SingleBody(q, p - 1);
      SingleBodyIsAligned(q, p - 1);
      AfbcBody(q, p - 1);
      AlignDivides(one, grain);
      DividesSum(grain, one, Align(one, grain));
      PlaneFollows(q, p - 1);
      DividesSum(grain, Start(q, p - 1) + HeaderSize(q, p - 1), BodySize(q, p - 1));
    }
    DividesSum(grain, Start(q, p), HeaderSize(q, p));
  }

  lemma PlaneFollows(q: Request, p: nat)
    requires Computable(q) && p + 1 < q.f.npln && !q.at.IsAfrc()
    ensures Start(q, p + 1) == Start(q, p) + HeaderSize(q, p) + BodySize(q, p)
  {
    hide Mul, Div, Divides, HeaderSize, BodySize;
    PlanesAreContiguous(q, p);
  }

  /** The body region holds every superblock of the plane. */
  lemma BodyHoldsEverySuperblock(q: Request, p: nat)
    requires AfbcAllocation(q) && p < q.f.npln
    ensures Computable(q)
    ensures Mul(SuperblockCount(q, p), SuperblockBytes(q, p)) <= SingleBody(q, p) <= BodySize(q, p)
  {
    SaneIsComputable(q);
    hide Mul, Div, Align, SuperblockCount, SuperblockBytes;
  }

  /**
   * Front-buffer safe allocations hold two bodies: the second starts on the grain, right after the padded first
   * one, and ends exactly where the plane ends.
   */
  lemma SecondBodyIsAlignedAndFits(q: Request, p: nat)
    requires AfbcAllocation(q) && p < q.f.npln && q.at.frontBufferSafe
    ensures Computable(q)
    ensures var second := Start(q, p) + HeaderSize(q, p) + Align(SingleBody(q, p), 4096);
      && Divides(4096, second)
      && Start(q, p) + HeaderSize(q, p) + SingleBody(q, p) <= second
      && second + SingleBody(q, p) == End(q, p)
  {
    hide Mul, Div, Align, Divides, HeaderSize, SingleBody, BodySize, Start, WellFormed, AfrcFits;
    SaneIsComputable(q);
    HeadersAndBodiesAreAligned(q, p);
    DoubledBody(q, p);
    AlignDivides(SingleBody(q, p), 4096);
    DividesSum(4096, Start(q, p) + HeaderSize(q, p), Align(SingleBody(q, p), 4096));
  }

  lemma DoubledBody(q: Request, p: nat)
    requires Computable(q) && q.at.IsAfbc() && q.at.frontBufferSafe && q.at.tiled && p < q.f.npln
    ensures BodySize(q, p) == SingleBody(q, p) + Align(SingleBody(q, p), 4096)
  {
    hide Mul, Div, Align, SingleBody;
  }

  // ----- when the count is right -----

  lemma MultiplesOfZero(base: nat)
    requires base > 0
    ensures Align(0, base) == 0
  {
    ProductDivides(0, base);
    AlignFixed(0, base);
  }

  lemma NoSites(size: nat, align: nat, sub: nat, p: nat)
    requires align > 0 && (p > 0 ==> Divides(sub, align))
    ensures Sites(size, align, sub, p) == 0 <==> size == 0
  {
    hide Mul, Div, Align;
    MultiplesOfZero(align);
    if p > 0 {
      SubsampleCovers(size, align, sub);
      Quotient(sub, Align(size, align));
      MulFacts(0, sub);
      DivOfProduct(0, sub);
    }
  }

  /** A plane is empty in a direction exactly when the picture is. */
  lemma EmptyPlanes(q: Request, p: nat)
    requires Shape(q.f) && p < q.f.npln
    ensures PlaneWidth(q, p) == 0 <==> q.width == 0
    ensures PlaneHeight(q, p) == 0 <==> q.height == 0
  {
    hide Mul, Div, Align, Divides, Sites, WidthUnit, HeightUnit;
    NoSites(q.width, q.f.alignW, q.f.hsub, p);
    NoSites(q.height, q.f.alignH, q.f.vsub, p);
    MultiplesOfZero(WidthUnit(q, p));
    MultiplesOfZero(HeightUnit(q, p));
  }

  /** The superblocks it takes to cover a plane, those that reach over its edges included. */
  function CoveringBlocks(q: Request, p: nat): nat
    requires Shape(q.f) && p < q.f.npln && SbWidth(q.at, p) > 0 && SbHeight(q.at, p) > 0
  {
    Mul(CeilDiv(PlaneWidth(q, p), SbWidth(q.at, p)), CeilDiv(PlaneHeight(q, p), SbHeight(q.at, p)))
  }

  /** Area over 256 never counts too many blocks, and counts them all exactly where no block reaches over an edge. */
  lemma AreaCountsBlocks(width: nat, height: nat, w: nat, h: nat)
    requires w > 0 && h > 0 && Mul(w, h) == 256
    ensures var blocks := Mul(CeilDiv(width, w), CeilDiv(height, h));
      && Mul(width, height) / 256 <= blocks
      && (Mul(width, height) / 256 == blocks <==>
            width == 0 || height == 0 || (Divides(w, width) && Divides(h, height)))
  {
    hide Mul, Div, Align, CeilDiv, Divides;
    var a, b := CeilDiv(width, w), CeilDiv(height, h);
    AlignIs(width, w);
    AlignIs(height, h);
    AreaOfBlocks(a, b, w, h);
    MulMono(width, Align(width, w), height, Align(height, h));
    MulFacts(width, height);
    if width == 0 || height == 0 {
      NoBlocks(w);
      NoBlocks(h);
      MulFacts(a, b);
      MulFacts(0, height);
      MulFacts(0, width);
      MulFacts(0, a);
      MulFacts(0, b);
    } else if Divides(w, width) && Divides(h, height) {
      AlignFixed(width, w);
      AlignFixed(height, h);
    } else if !Divides(w, width) {
      AlignDivides(width, w);
      LargerArea(width, Align(width, w), height, Align(height, h));
    } else {
      AlignDivides(height, h);
      LargerArea(height, Align(height, h), width, Align(width, w));
      MulFacts(Align(height, h), Align(width, w));
      MulFacts(height, width);
    }
  }

  lemma AlignIs(x: nat, base: nat)
    requires base > 0
    ensures Align(x, base) == Mul(CeilDiv(x, base), base)
  {
  }

  lemma NoBlocks(side: nat)
    requires side > 0
    ensures CeilDiv(0, side) == 0
  {
  }

  lemma LargerArea(a: nat, a': nat, b: nat, b': nat)
    requires a < a' && 0 < b <= b'
    ensures Mul(a, b) < Mul(a', b')
  {
    hide Mul;
    MulMono(a + 1, a', b, b');
    MulFacts(a, b);
  }

  /** With CPU usage the plane is only aligned for the CPU; whether that happens to give whole superblocks. */
  predicate WholeForCpu(q: Request, p: nat)
    requires Shape(q.f) && p < q.f.npln
  {
    && Divides(SbWidth(q.at, p), Align(Sites(q.width, q.f.alignW, q.f.hsub, p), q.f.alignWCpu))
    && Divides(SbHeight(q.at, p), Sites(q.height, q.f.alignH, q.f.vsub, p))
  }

  /**
   * The count theorem, for every AFBC allocation: width times height over 256 is the number of superblocks covering the
   * plane, if and only if there is no CPU usage, the picture is empty, or the CPU's alignment happens to give whole
   * superblocks. Otherwise it is too small, and the header has too few entries.
   */
  lemma CountIsRightExactlyWhen(q: Request, p: nat)
    requires AfbcAllocation(q) && p < q.f.npln
    ensures SbWidth(q.at, p) > 0 && SbHeight(q.at, p) > 0
    ensures SuperblockCount(q, p) <= CoveringBlocks(q, p)
    ensures SuperblockCount(q, p) == CoveringBlocks(q, p) <==>
            !q.u.cpu || q.width == 0 || q.height == 0 || WholeForCpu(q, p)
  {
    BlockShape(q.at, p);
    hide Mul, Div, Align, CeilDiv, Divides, PlaneWidth, PlaneHeight, SbWidth, SbHeight, Sites, LinearRow, AfrcRow,
      BlockLinearRow, NamedRows, AfrcFits;
    AreaCountsBlocks(PlaneWidth(q, p), PlaneHeight(q, p), SbWidth(q.at, p), SbHeight(q.at, p));
    EmptyPlanes(q, p);
    if q.u.cpu {
      CpuDimensions(q, p);
    } else {
      PlanesAreWholeSuperblocks(q, p);
    }
  }

  lemma BlockShape(at: AllocType, p: nat)
    requires at.IsAfbc()
    ensures SbWidth(at, p) > 0 && SbHeight(at, p) > 0 && Mul(SbWidth(at, p), SbHeight(at, p)) == 256
  {
  }

  lemma CpuDimensions(q: Request, p: nat)
    requires Shape(q.f) && p < q.f.npln && q.u.cpu && q.f.tileSize == 1
    ensures PlaneWidth(q, p) == Align(Sites(q.width, q.f.alignW, q.f.hsub, p), q.f.alignWCpu)
    ensures PlaneHeight(q, p) == Sites(q.height, q.f.alignH, q.f.vsub, p)
  {
    hide Mul, Div, Align, Sites;
    var rows := Sites(q.height, q.f.alignH, q.f.vsub, p);
    assert WidthUnit(q, p) == q.f.alignWCpu && HeightUnit(q, p) == 1;
    AlignToOne(rows);
  }

  lemma AlignToOne(x: nat)
    ensures Align(x, 1) == x
  {
  }
}
