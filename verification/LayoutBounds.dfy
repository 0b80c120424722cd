/**
 * Machine integers: for pictures of at most 8192 x 8192 and one layer, no intermediate value of the derivation
 * overflows the C type that holds it, so the unbounded arithmetic of the model is the arithmetic of the code.
 */
module LayoutBounds {
  import opened Alignment
  import opened Euclid
  import opened Usages
  import opened Formats
  import opened InternalFormats
  import opened AllocTypes
  import opened Layout
  import opened Derive
  import opened MachineInts

  const LIMIT: nat := 8192

  /** The heights of depth formats are doubled; those are uncompressed and have one plane. */
  ghost predicate Small(q: Request) {
    && Sane(q)
    && q.width <= LIMIT
    && q.height <= (if q.f.npln == 1 && q.at.IsLinear() then 2 * LIMIT else LIMIT)
  }

  lemma MulAtMost(a: nat, b: nat, maxA: nat, maxB: nat)
    requires a <= maxA && b <= maxB
    ensures Mul(a, b) <= maxA * maxB
  {
    MulMono(a, maxA, b, maxB);
  }

  lemma DivShrinks(x: nat, d: nat)
    requires d > 0
    ensures Div(x, d) <= x
  {
    hide Mul, Div;
    MulFacts(x, d);
    DivAtMost(x, x, d);
  }

  lemma UnitsAreSmall(q: Request, p: nat)
    requires Small(q) && p < q.f.npln
    ensures WidthUnit(q, p) <= 512 && HeightUnit(q, p) <= 128
    ensures q.at.IsLinear() ==> WidthUnit(q, p) <= 16
  {
    hide LinearRow, AfbcRow, AfrcRow, BlockLinearRow, NamedRows, Mul;
    if q.at.IsAfrc() {
      var a := q.at.afrc;
      assert ClumpFits(a, a.clumpW.At(p), a.clumpH.At(p));
      MulAtMost(a.tileW, a.clumpW.At(p), 16, 16);
      AfrcHeightUnit(a.tileH, a.clumpH.At(p));
    }
  }

  lemma AfrcHeightUnit(tileH: nat, clumpH: nat)
    requires tileH == 8 || tileH == 4
    requires clumpH == 8 || clumpH == 4
    ensures Mul(tileH, clumpH) <= 64
  {
    MulAtMost(tileH, clumpH, 8, 8);
  }

  lemma SitesAreSmall(size: nat, align: nat, sub: nat, p: nat)
    requires 0 < align <= 4 && (p > 0 ==> sub > 0)
    ensures Sites(size, align, sub, p) <= size + 3
  {
    hide Mul, Div, Align;
    if p > 0 {
      DivShrinks(Align(size, align), sub);
    }
  }

  lemma DimensionsAreSmall(q: Request, p: nat)
    requires Small(q) && p < q.f.npln
    ensures PlaneWidth(q, p) <= q.width + 514 && PlaneHeight(q, p) <= q.height + 130
    ensures q.at.IsLinear() ==> PlaneWidth(q, p) <= q.width + 18
  {
    assert Shape(q.f);
    hide Mul, Div, Divides, Align, Sites, WidthUnit, HeightUnit, LinearRow, AfbcRow, AfrcRow, BlockLinearRow,
      NamedRows;
    UnitsAreSmall(q, p);
    SitesAreSmall(q.width, q.f.alignW, q.f.hsub, p);
    SitesAreSmall(q.height, q.f.alignH, q.f.vsub, p);
  }

  // ----- strides -----

  lemma StrideAlignIsSmall(q: Request, p: nat)
    requires Small(q) && q.at.IsLinear() && p < q.f.npln
    ensures q.f.bpp.At(p) <= 64
    ensures StrideAlign(q, p) <= 16384 && HwAlign(q) <= 128 && CpuAlign(q, p) <= 128
  {
    hide Mul, Div, Lcm, AfbcRow, AfrcRow, BlockLinearRow, NamedRows;
    MulAtMost(q.f.bpp.At(p), q.f.alignWCpu, 64, 16);
    var h, c := HwAlign(q), CpuAlign(q, p);
    LcmIsSmall(h, c);
  }

  lemma LcmIsSmall(a: nat, b: nat)
    requires a <= 128 && b <= 128
    ensures Lcm(a, b) <= 16384
  {
    hide Mul, Div, Gcd;
    if a > 0 && b > 0 {
      LcmBound(a, b);
      MulAtMost(a, b, 128, 128);
    }
  }

  lemma AlignedStrideIsSmall(q: Request, p: nat)
    requires Small(q) && q.at.IsLinear() && p < q.f.npln
    ensures Mul(PlaneWidth(q, p), q.f.bpp.At(p)) <= 525440
    ensures AlignedStride(q, p) <= 82063
    ensures q.f.id == YV12 ==> AlignedStride(q, p) <= 24593
  {
    assert Shape(q.f) && NamedRows(q.f);
    StrideAlignIsSmall(q, p);
    DimensionsAreSmall(q, p);
    hide Mul, Div, Divides, Align, PlaneWidth, StrideAlign, Sane, Shape, LinearRow, Sites;
    MulAtMost(PlaneWidth(q, p), q.f.bpp.At(p), 8210, if q.f.id == YV12 then 8 else 64);
    var raw := Mul(PlaneWidth(q, p), q.f.bpp.At(p)) / 8;
    RoundedQuotient(raw, q.f.tileSize, StrideAlign(q, p));
  }

  lemma RoundedQuotient(raw: nat, tile: nat, unit: nat)
    requires 0 < tile <= 2 && unit <= 16384
    ensures unit > 0 ==> Div(Align(Mul(raw, tile), unit), tile) <= raw + 16383
  {
    hide Mul, Align;
    MulTwo(raw);
    if unit > 0 {
      var aligned := Align(Mul(raw, tile), unit);
      assert aligned <= Mul(raw, tile) + 16383;
    }
  }

  lemma MulTwo(x: nat)
    ensures Mul(x, 1) == x && Mul(x, 2) == 2 * x
  {
  }

  lemma RequestIsSmall(x: nat, r: StrideRequest)
    ensures RoundToRequest(x, r) <= x + 511
  {
    hide Mul, Div, Align;
  }

  lemma {:induction false} LinearStrideIsSmall(q: Request, p: nat)
    requires Small(q) && q.at.IsLinear() && p < q.f.npln
    ensures LinearStride(q, p) <= 82700
  {
    if q.f.id == NV12 && q.u.stride != NoRequest {
      Nv12StrideIsSmall(q, p);
    } else {
      AlignedStrideIsSmall(q, p);
      AlignedStrideIsSmall(q, 0);
      StrideAlignIsSmall(q, 0);
      RequestIsSmall(AlignedStride(q, p), q.u.stride);
      if Yv12Shared(q) {
        RequestIsSmall(Align(AlignedStride(q, 0), Max(1, 2 * StrideAlign(q, 0))), q.u.stride);
        if p > 0 {
          LinearStrideIsSmall(q, 0);
          RequestIsSmall(LinearStride(q, 0) / 2, q.u.stride);
        }
      }
      hide Mul, Div, Align, AlignedStride, StrideAlign, RoundToRequest, Sane;
    }
  }

  lemma Nv12StrideIsSmall(q: Request, p: nat)
    requires Small(q) && q.at.IsLinear() && p < q.f.npln && q.f.id == NV12 && q.u.stride != NoRequest
    ensures LinearStride(q, p) <= 82700
  {
    hide Mul, Div, Align, RoundToRequest, LinearRow, AfbcRow, AfrcRow, BlockLinearRow;
    var pixels := if q.u.stride == Conflicting then 0 else RoundToRequest(q.width, q.u.stride);
    RequestIsSmall(q.width, q.u.stride);
    MulAtMost(pixels, q.f.bpp.At(p), 8703, 16);
    if p > 0 {
      DivShrinks(Mul(pixels, q.f.bpp.At(p)) / 8, q.f.hsub);
    }
  }

  lemma AfrcStrideIsSmall(q: Request, p: nat)
    requires Small(q) && q.at.IsAfrc() && p < q.f.npln
    ensures Computable(q) && 64 * Div(Div(PlaneWidth(q, p), q.at.afrc.clumpW.At(p)), q.at.afrc.tileW) <= 17408
    ensures AfrcStride(q, p) <= 82700
  {
    SaneIsComputable(q);
    DimensionsAreSmall(q, p);
    var a := q.at.afrc;
    assert ClumpFits(a, a.clumpW.At(p), a.clumpH.At(p)) && UnitFits(a.lumaUnit, a.lumaAlign) &&
        UnitFits(a.chromaUnit, a.chromaAlign);
    assert AfrcUnit(q, p) <= 32;
    hide Mul, Div, PlaneWidth, Sane;
    var s := Div(PlaneWidth(q, p), a.clumpW.At(p));
    QuotientAtMost(PlaneWidth(q, p), a.clumpW.At(p), 4, 2176);
    QuotientAtMost(s, a.tileW, 8, 272);
    var tiles := Div(s, a.tileW);
    MulAtMost(64 * tiles, AfrcUnit(q, p), 64 * 272, 32);
    MulFacts(a.tileH, a.clumpH.At(p));
    AfrcRowsAtLeast(a.tileH, a.clumpH.At(p));
    QuotientAtMost(Mul(64 * tiles, AfrcUnit(q, p)), Mul(a.tileH, a.clumpH.At(p)), 16, 34816);
  }

  lemma AfrcRowsAtLeast(tileH: nat, clumpH: nat)
    requires tileH >= 4 && clumpH >= 4
    ensures Mul(tileH, clumpH) >= 16
  {
    MulMono(4, tileH, 4, clumpH);
  }

  /** x / d is at most k when x is below (k + 1) times a lower bound of d. */
  lemma QuotientAtMost(x: nat, d: nat, atLeast: nat, k: nat)
    requires 0 < atLeast <= d && x < atLeast * (k + 1)
    ensures Div(x, d) <= k
  {
    hide Div;
    if Div(x, d) > k {
      DivBounds(x, d);
      MulMono(k + 1, Div(x, d), atLeast, d);
    }
  }

  lemma BlockSideIsSmall(p: nat, sub: nat)
    requires p > 0 ==> 0 < sub <= 16
    ensures 0 < BlockSide(p, sub) <= 16
  {
    BlockSidePositive(p, sub);
    if p > 0 {
      DivShrinks(16, sub);
    }
  }

  lemma BlockLinearStrideIsSmall(q: Request, p: nat)
    requires Small(q) && q.at.IsBlockLinear() && p < q.f.npln
    ensures Computable(q) && Mul(Mul(BlockSide(p, q.f.vsub), BlockSide(p, q.f.hsub)), q.f.bpp.At(p)) <= 8192
    ensures Mul(BlockLinearStride(q, p), BlockSide(p, q.f.vsub)) <= Mul(544, 1024)
    ensures BlockLinearStride(q, p) <= 82700
  {
    SaneIsComputable(q);
    DimensionsAreSmall(q, 0);
    BlockSideIsSmall(p, q.f.vsub);
    BlockSideIsSmall(p, q.f.hsub);
    var h, w := BlockSide(p, q.f.vsub), BlockSide(p, q.f.hsub);
    assert q.f.bpp.At(p) <= 32;
    hide Mul, Div, PlaneWidth, Sane, BlockSide;
    MulAtMost(h, w, 16, 16);
    MulAtMost(Mul(h, w), q.f.bpp.At(p), 256, 32);
    var bytes := Mul(Mul(h, w), q.f.bpp.At(p)) / 8;
    MulMono(PlaneWidth(q, 0) / 16, 544, bytes, 1024);
    DivBounds(Mul(PlaneWidth(q, 0) / 16, bytes), h);
    BlockRowIsSmall(PlaneWidth(q, 0) / 16, h, w, q.f.bpp.At(p));
  }

  /** Dividing by the block height cancels it: one block row is at most 16 x 32 bits wide per block. */
  lemma BlockRowIsSmall(blocks: nat, h: nat, w: nat, bits: nat)
    requires blocks <= 544 && 0 < h <= 16 && w <= 16 && bits <= 32
    ensures Div(Mul(blocks, Mul(Mul(h, w), bits) / 8), h) <= 34816
  {
    hide Mul, Div;
    MulAssoc(h, w, bits);
    MulAtMost(w, bits, 16, 32);
    MulMono(h, h, Mul(w, bits), 512);
    MulFacts(h, Mul(w, bits));
    Times512(h);
    MulMono(blocks, 544, Mul(Mul(h, w), bits) / 8, 64 * h);
    MulFacts(544, 64 * h);
    Times544(h);
    DivAtMost(Mul(blocks, Mul(Mul(h, w), bits) / 8), 34816, h);
  }

  lemma Times512(h: nat)
    ensures Mul(h, 512) == 512 * h && Mul(512, h) == 512 * h
  {
  }

  lemma Times544(h: nat)
    ensures Mul(544, 64 * h) == 34816 * h == Mul(34816, h)
  {
  }

  lemma AfbcStrideIsSmall(q: Request, p: nat)
    requires Small(q) && q.at.IsAfbc() && p < q.f.npln
    ensures Mul(PlaneWidth(q, p), q.f.bppAfbc.At(p)) <= 557184
  {
    DimensionsAreSmall(q, p);
    assert q.f.bppAfbc.At(p) <= 64;
    hide Mul, PlaneWidth;
    MulAtMost(PlaneWidth(q, p), q.f.bppAfbc.At(p), 8706, 64);
  }

  lemma StrideIsSmall(q: Request, p: nat)
    requires Small(q) && p < q.f.npln
    ensures Computable(q) && ByteStride(q, p) <= 82700
  {
    SaneIsComputable(q);
    if q.at.IsAfrc() {
      AfrcStrideIsSmall(q, p);
    } else if q.at.IsAfbc() {
      AfbcStrideIsSmall(q, p);
    } else if q.at.IsBlockLinear() {
      BlockLinearStrideIsSmall(q, p);
    } else {
      LinearStrideIsSmall(q, p);
    }
  }

  // ----- sizes -----

  /** The largest plane: three of them, or one of a single-plane format, stay below 2^31. */
  function PlaneLimit(q: Request): nat {
    if q.f.npln == 1 then 1_400_000_000 else 690_000_000
  }

  lemma SuperblockBytesAreSmall(q: Request, p: nat)
    requires Small(q) && q.at.IsAfbc() && p < q.f.npln
    ensures SuperblockBytes(q, p) <= if q.f.npln > 1 then 767 else 2175
  {
    hide LinearRow, AfrcRow, BlockLinearRow, NamedRows, AfrcFits;
    assert Mul(SbWidth(q.at, p), SbHeight(q.at, p)) == 256;
    assert q.f.bppAfbc.At(p) <= if q.f.npln > 1 then 20 else 64;
    hide Mul, Align;
    MulAtMost(q.f.bppAfbc.At(p), 256, if q.f.npln > 1 then 20 else 64, 256);
  }

  lemma SuperblocksAreFew(q: Request, p: nat)
    requires Small(q) && q.at.IsAfbc() && p < q.f.npln
    ensures Mul(PlaneWidth(q, p), PlaneHeight(q, p)) <= 72451332
    ensures SuperblockCount(q, p) <= 283013
    ensures HeaderSize(q, p) <= 4532303
  {
    hide Mul, Div, Divides, Align, PlaneWidth, PlaneHeight;
    DimensionsAreSmall(q, p);
    MulAtMost(PlaneWidth(q, p), PlaneHeight(q, p), 8706, 8322);
  }

  lemma AfbcBodyIsSmall(q: Request, p: nat)
    requires Small(q) && q.at.IsAfbc() && p < q.f.npln
    ensures Computable(q) && Mul(SuperblockCount(q, p), SuperblockBytes(q, p)) <= 615553275
    ensures HeaderSize(q, p) + BodySize(q, p) <= PlaneLimit(q)
  {
    SaneIsComputable(q);
    SuperblocksAreFew(q, p);
    SuperblockBytesAreSmall(q, p);
    hide Mul, Align, SuperblockCount, SuperblockBytes, HeaderSize, Sane;
    MulAtMost(SuperblockCount(q, p), SuperblockBytes(q, p), 283013, if q.f.npln > 1 then 767 else 2175);
  }

  lemma AfrcBodyIsSmall(q: Request, p: nat)
    requires Small(q) && q.at.IsAfrc() && p < q.f.npln
    ensures Computable(q) && BodySize(q, p) <= 160_000_000
  {
    SaneIsComputable(q);
    DimensionsAreSmall(q, p);
    var a := q.at.afrc;
    assert ClumpFits(a, a.clumpW.At(p), a.clumpH.At(p)) && UnitFits(a.lumaUnit, a.lumaAlign) &&
        UnitFits(a.chromaUnit, a.chromaAlign);
    assert AfrcUnit(q, p) <= 32;
    hide Mul, Div, PlaneWidth, PlaneHeight, Sane;
    var s, t := Div(PlaneWidth(q, p), a.clumpW.At(p)), Div(PlaneHeight(q, p), a.clumpH.At(p));
    QuotientAtMost(PlaneWidth(q, p), a.clumpW.At(p), 4, 2176);
    QuotientAtMost(PlaneHeight(q, p), a.clumpH.At(p), 4, 2080);
    MulAtMost(s, t, 2176, 2080);
    MulAtMost(Mul(s, t), AfrcUnit(q, p), 4526080, 32);
  }

  lemma BlockLinearBodyIsSmall(q: Request, p: nat)
    requires Small(q) && q.at.IsBlockLinear() && p < q.f.npln
    ensures Computable(q) && BodySize(q, p) <= PlaneLimit(q)
  {
    BlockLinearStrideIsSmall(q, p);
    DimensionsAreSmall(q, 0);
    Literal544();
    hide Mul, Div, PlaneHeight, BlockLinearStride, BlockSide, Sane;
    MulAtMost(Mul(BlockLinearStride(q, p), BlockSide(p, q.f.vsub)), PlaneHeight(q, 0) / 16, 557056, 520);
  }

  lemma Literal544()
    ensures Mul(544, 1024) == 557056
  {
  }

  lemma LinearBodyIsSmall(q: Request, p: nat)
    requires Small(q) && q.at.IsLinear() && p < q.f.npln
    ensures Computable(q) && BodySize(q, p) <= PlaneLimit(q)
  {
    SaneIsComputable(q);
    LinearStrideIsSmall(q, p);
    DimensionsAreSmall(q, p);
    hide Mul, Div, LinearStride, PlaneHeight, Sane;
    MulAtMost(LinearStride(q, p), PlaneHeight(q, p), 82700, if q.f.npln == 1 then 16514 else 8322);
  }

  lemma PlaneIsSmall(q: Request, p: nat)
    requires Small(q) && p < q.f.npln
    ensures Computable(q) && HeaderSize(q, p) + BodySize(q, p) <= PlaneLimit(q)
  {
    SaneIsComputable(q);
    if q.at.IsAfrc() {
      AfrcBodyIsSmall(q, p);
    } else if q.at.IsAfbc() {
      AfbcBodyIsSmall(q, p);
    } else if q.at.IsBlockLinear() {
      BlockLinearBodyIsSmall(q, p);
    } else {
      LinearBodyIsSmall(q, p);
    }
  }

  lemma {:induction false} EndIsSmall(q: Request, p: nat)
    requires Small(q) && p < q.f.npln
    ensures Computable(q)
    ensures var limit := PlaneLimit(q) + 2047;
      End(q, p) <= if p == 0 then limit else if p == 1 then 2 * limit else 3 * limit
    decreases p
  {
    SaneIsComputable(q);
    PlaneIsSmall(q, p);
    if p > 0 {
      EndIsSmall(q, p - 1);
    }
    assert q.at.IsAfrc() ==> UnitFits(q.at.afrc.lumaUnit, q.at.afrc.lumaAlign) && UnitFits(q.at.afrc.chromaUnit,
        q.at.afrc.chromaAlign);
    assert p < 3;
    hide Mul, Div, Align, HeaderSize, BodySize, Small, Shape, PlaneLimit;
  }

  // ----- what the source computes in C integers, each value with the limit of its type -----

  /** get_pixel_w_h: the sums inside its roundings, and the units, which are 16-bit products. */
  ghost predicate DimensionsFit(q: Request, p: nat)
    requires Shape(q.f) && p < q.f.npln
  {
    && q.width + q.f.alignW <= UINT_MAX && q.height + q.f.alignH <= UINT_MAX
    && WidthUnit(q, p) <= USHORT_MAX && HeightUnit(q, p) <= USHORT_MAX
    && Sites(q.width, q.f.alignW, q.f.hsub, p) + WidthUnit(q, p) <= UINT_MAX
    && Sites(q.height, q.f.alignH, q.f.vsub, p) + HeightUnit(q, p) <= UINT_MAX
    && PlaneWidth(q, p) <= INT_MAX && PlaneHeight(q, p) <= INT_MAX
    && Mul(PlaneWidth(q, p), PlaneHeight(q, p)) <= UINT_MAX
  }

  /** The uncompressed branch: bits of a row and of a CPU unit, lcm's product, and every sum inside a rounding. */
  ghost predicate LinearStrideFits(q: Request, p: nat)
    requires Shape(q.f) && p < q.f.npln
  {
    var raw := Mul(PlaneWidth(q, p), q.f.bpp.At(p)) / 8;
    && Mul(PlaneWidth(q, p), q.f.bpp.At(p)) <= UINT_MAX && Mul(q.f.bpp.At(p), q.f.alignWCpu) <= INT_MAX
    && HwAlign(q) <= USHORT_MAX && Mul(HwAlign(q), CpuAlign(q, p)) <= UINT_MAX
    && Mul(raw, q.f.tileSize) + StrideAlign(q, p) <= UINT_MAX
    && AlignedStride(q, p) + 2 * StrideAlign(q, p) <= UINT_MAX
    && q.width + 255 <= UINT_MAX && Mul(RoundToRequest(q.width, q.u.stride), q.f.bpp.At(p)) <= UINT_MAX
    && LinearStride(q, p) + 255 <= UINT_MAX
  }

  /** The AFRC branch: the byte stride of a paging tile and the rows it covers. */
  ghost predicate AfrcStrideFits(q: Request, p: nat)
    requires Computable(q) && q.at.IsAfrc() && p < q.f.npln
  {
    var a := q.at.afrc;
    && Mul(64 * Div(Div(PlaneWidth(q, p), a.clumpW.At(p)), a.tileW), AfrcUnit(q, p)) <= UINT_MAX
    && Mul(a.tileH, a.clumpH.At(p)) <= UINT_MAX
    && Mul(Div(PlaneWidth(q, p), a.clumpW.At(p)), Div(PlaneHeight(q, p), a.clumpH.At(p))) <= UINT_MAX
  }

  /** The block-linear branch: bits of a block, byte stride of a row of blocks, and bytes of that row. */
  ghost predicate BlockLinearStrideFits(q: Request, p: nat)
    requires Computable(q) && q.at.IsBlockLinear() && p < q.f.npln
  {
    var h, w := BlockSide(p, q.f.vsub), BlockSide(p, q.f.hsub);
    && Mul(PlaneWidth(q, p), q.f.bpp.At(p)) <= UINT_MAX
    && Mul(Mul(h, w), q.f.bpp.At(p)) <= UINT_MAX
    && Mul(PlaneWidth(q, 0) / 16, Mul(Mul(h, w), q.f.bpp.At(p)) / 8) <= UINT_MAX
    && Mul(BlockLinearStride(q, p), h) <= UINT_MAX
  }

  /** The AFBC branches: bits of a row and of a superblock, and body and header before and inside their roundings. */
  ghost predicate AfbcSizesFit(q: Request, p: nat)
    requires Shape(q.f) && p < q.f.npln
  {
    && Mul(PlaneWidth(q, p), q.f.bppAfbc.At(p)) <= UINT_MAX
    && Mul(q.f.bppAfbc.At(p), Mul(SbWidth(q.at, p), SbHeight(q.at, p))) + 127 <= INT_MAX
    && Mul(SuperblockCount(q, p), SuperblockBytes(q, p)) + 4095 <= INT_MAX
    && SingleBody(q, p) + 4095 <= INT_MAX
    && SuperblockCount(q, p) * 16 + 4095 <= INT_MAX
  }

  /** What every family computes of a plane, and what is handed out. */
  ghost predicate PlaneFitsIntegers(q: Request, p: nat)
    requires Computable(q) && p < q.f.npln
  {
    && DimensionsFit(q, p)
    && (q.at.IsLinear() ==> LinearStrideFits(q, p))
    && (q.at.IsAfrc() ==> AfrcStrideFits(q, p))
    && (q.at.IsBlockLinear() ==> BlockLinearStrideFits(q, p))
    && (q.at.IsAfbc() ==> AfbcSizesFit(q, p))
    && ByteStride(q, p) * 8 <= INT_MAX
    && HeaderSize(q, p) + BodySize(q, p) <= INT_MAX
    && End(q, p) <= INT_MAX
  }

  lemma SitesBelow(size: nat, align: nat, sub: nat, p: nat, limit: nat)
    requires 0 < align <= 4 && (p > 0 ==> sub > 0) && size <= limit
    ensures Sites(size, align, sub, p) <= limit + 3
  {
    SitesAreSmall(size, align, sub, p);
  }

  lemma DimensionsDoFit(q: Request, p: nat)
    requires Small(q) && p < q.f.npln
    ensures DimensionsFit(q, p)
  {
    assert Shape(q.f) && q.height <= 16384;
    hide Mul, Div, Align, Sites, WidthUnit, HeightUnit, PlaneWidth, PlaneHeight, Sane;
    UnitsAreSmall(q, p);
    DimensionsAreSmall(q, p);
    SitesBelow(q.width, q.f.alignW, q.f.hsub, p, 8192);
    SitesBelow(q.height, q.f.alignH, q.f.vsub, p, 16384);
    MulAtMost(PlaneWidth(q, p), PlaneHeight(q, p), 8706, 16514);
  }

  lemma LinearStrideDoesFit(q: Request, p: nat)
    requires Small(q) && q.at.IsLinear() && p < q.f.npln
    ensures LinearStrideFits(q, p)
  {
    assert Shape(q.f);
    hide Mul, Div, Align, PlaneWidth, StrideAlign, AlignedStride, LinearStride, RoundToRequest, Lcm, Sane;
    StrideAlignIsSmall(q, p);
    AlignedStrideIsSmall(q, p);
    LinearStrideIsSmall(q, p);
    RequestIsSmall(q.width, q.u.stride);
    MulAtMost(q.f.bpp.At(p), q.f.alignWCpu, 64, 16);
    MulAtMost(HwAlign(q), CpuAlign(q, p), 128, 128);
    MulAtMost(RoundToRequest(q.width, q.u.stride), q.f.bpp.At(p), 8703, 64);
    MulAtMost(Mul(PlaneWidth(q, p), q.f.bpp.At(p)) / 8, q.f.tileSize, 65680, 2);
  }

  lemma AfrcStrideDoesFit(q: Request, p: nat)
    requires Small(q) && q.at.IsAfrc() && p < q.f.npln
    ensures Computable(q) && AfrcStrideFits(q, p)
  {
    SaneIsComputable(q);
    var a := q.at.afrc;
    assert ClumpFits(a, a.clumpW.At(p), a.clumpH.At(p)) && UnitFits(a.lumaUnit, a.lumaAlign) &&
        UnitFits(a.chromaUnit, a.chromaAlign);
    assert AfrcUnit(q, p) <= 32 && a.tileH <= 8 && a.clumpH.At(p) <= 8;
    hide Mul, Div, PlaneWidth, PlaneHeight, Sane;
    DimensionsAreSmall(q, p);
    AfrcStrideIsSmall(q, p);
    MulAtMost(64 * Div(Div(PlaneWidth(q, p), a.clumpW.At(p)), a.tileW), AfrcUnit(q, p), 17408, 32);
    MulAtMost(a.tileH, a.clumpH.At(p), 8, 8);
    QuotientAtMost(PlaneWidth(q, p), a.clumpW.At(p), 4, 2176);
    QuotientAtMost(PlaneHeight(q, p), a.clumpH.At(p), 4, 2080);
    MulAtMost(Div(PlaneWidth(q, p), a.clumpW.At(p)), Div(PlaneHeight(q, p), a.clumpH.At(p)), 2176, 2080);
  }

  lemma BlockLinearStrideDoesFit(q: Request, p: nat)
    requires Small(q) && q.at.IsBlockLinear() && p < q.f.npln
    ensures Computable(q) && BlockLinearStrideFits(q, p)
  {
    SaneIsComputable(q);
    assert q.f.bpp.At(p) <= 32;
    hide Mul, Div, PlaneWidth, BlockSide, BlockLinearStride, Sane;
    DimensionsAreSmall(q, p);
    DimensionsAreSmall(q, 0);
    BlockLinearStrideIsSmall(q, p);
    Literal544();
    MulAtMost(PlaneWidth(q, p), q.f.bpp.At(p), 8706, 32);
    var bytes := Mul(Mul(BlockSide(p, q.f.vsub), BlockSide(p, q.f.hsub)), q.f.bpp.At(p)) / 8;
    MulAtMost(PlaneWidth(q, 0) / 16, bytes, 544, 1024);
  }

  lemma AfbcSizesDoFit(q: Request, p: nat)
    requires Small(q) && q.at.IsAfbc() && p < q.f.npln
    ensures AfbcSizesFit(q, p)
  {
    hide LinearRow, AfrcRow, BlockLinearRow, NamedRows, AfrcFits;
    assert Mul(SbWidth(q.at, p), SbHeight(q.at, p)) == 256 && q.f.bppAfbc.At(p) <= 64;
    hide Mul, Div, Align, PlaneWidth, SuperblockCount, SuperblockBytes, SbWidth, SbHeight, Sane;
    AfbcStrideIsSmall(q, p);
    SuperblocksAreFew(q, p);
    AfbcBodyIsSmall(q, p);
    MulAtMost(q.f.bppAfbc.At(p), 256, 64, 256);
  }

  lemma PlaneFits(q: Request, p: nat)
    requires Small(q) && p < q.f.npln
    ensures Computable(q) && PlaneFitsIntegers(q, p)
  {
    SaneIsComputable(q);
    assert 1 <= q.f.npln <= 3;
    hide DimensionsFit, LinearStrideFits, AfrcStrideFits, BlockLinearStrideFits, AfbcSizesFit, ByteStride, HeaderSize,
      BodySize, End, Small, Computable;
    DimensionsDoFit(q, p);
    StrideIsSmall(q, p);
    PlaneIsSmall(q, p);
    EndIsSmall(q, p);
    if q.at.IsLinear() {
      LinearStrideDoesFit(q, p);
    } else if q.at.IsAfrc() {
      AfrcStrideDoesFit(q, p);
    } else if q.at.IsBlockLinear() {
      BlockLinearStrideDoesFit(q, p);
    } else {
      AfbcSizesDoFit(q, p);
    }
  }

  // ----- from the request to the derivation -----

  lemma AdjustedIsSmall(a: Adjustment, width: nat, height: nat)
    requires width <= LIMIT && height <= LIMIT && a.heightGrain in {1, 8, 16, 64}
    ensures AdjustedWidth(a, width) <= LIMIT
    ensures AdjustedHeight(a, height) <= if a.doubled then 2 * LIMIT else LIMIT
  {
    AlignBelow(width, 16, 512);
    AlignBelow(height, a.heightGrain, 8192 / a.heightGrain);
    var h := Align(height, a.heightGrain);
    AlignBelow(h, 16, 512);
    AlignBelow(2 * h, 16, 1024);
    hide Align, Mul, Div;
  }

  lemma AlignBelow(x: nat, base: nat, k: nat)
    requires base > 0
    ensures x <= base * k ==> Align(x, base) <= base * k
  {
    hide Align, Mul, Div;
    if x <= base * k {
      ProductDivides(k, base);
      SwapProduct(base, k);
      AlignLeast(x, base, Mul(k, base));
    }
  }

  lemma SwapProduct(a: nat, b: nat)
    ensures Mul(b, a) == a * b
  {
  }

  lemma DepthRows(id: BaseFormat)
    requires DepthOrStencil(id)
    ensures var f := Info(id); f.npln == 1 && !f.afbc && !f.afrc && !f.blockLinear
  {
    match id {
      case STENCIL_8 => case DEPTH_16 => case DEPTH_24 => case DEPTH_24_STENCIL_8 => case DEPTH_32F =>
      case DEPTH_32F_STENCIL_8 =>
    }
  }

  lemma HeightGrains(usage: bv64)
    ensures HeightGrain(usage) in {1, 8, 16, 64}
  {
  }

  lemma DerivedDimensions(fmt: InternalFormat, usage: bv64, width: nat, height: nat)
    requires DeriveOutcome(fmt, usage, width, height).Derived?
    ensures var q := DeriveOutcome(fmt, usage, width, height).request;
      && q.width == AdjustedWidth(AdjustmentOf(fmt, usage), width)
      && q.height == AdjustedHeight(AdjustmentOf(fmt, usage), height)
      && q.f == Info(fmt.base)
  {
    hide Info, AllocTypeOf, ValidFormat, AdjustedWidth, AdjustedHeight, AdjustmentOf;
  }

  lemma DerivedIsSmall(fmt: InternalFormat, usage: bv64, width: nat, height: nat)
    requires DeriveOutcome(fmt, usage, width, height).Derived? && width <= LIMIT && height <= LIMIT
    ensures Small(DeriveOutcome(fmt, usage, width, height).request)
  {
    var q := DeriveOutcome(fmt, usage, width, height).request;
    var a := AdjustmentOf(fmt, usage);
    assert a.heightGrain == HeightGrain(usage) && a.doubled == DepthOrStencil(fmt.base) by { hide HeightGrain,
        DepthOrStencil; }
    hide AdjustmentOf, AllocTypeOf, DeriveOutcome, AdjustedWidth, AdjustedHeight, Info, DepthOrStencil,
      HeightGrain, WellFormed;
    DerivedDimensions(fmt, usage, width, height);
    DerivedIsSane(fmt, usage, width, height);
    HeightGrains(usage);
    AdjustedIsSmall(a, width, height);
    if a.doubled {
      DepthRows(fmt.base);
      hide AfrcFits;
      assert q.at.IsLinear();
    }
  }

  lemma RkRows(id: BaseFormat)
    requires id in {NV12, NV16, NV15, NV24}
    ensures Info(id).npln == 2 && Info(id).bpp.p0 >= 8
  {
  }

  /** The enlargement's products. */
  lemma RkNeedsAreSmall(q: Request)
    requires Small(q) && q.f.bpp.p0 > 0
    requires q.f.id in {NV12, NV16, NV15, NV24} ==> q.f.npln == 2 && q.f.bpp.p0 >= 8
    ensures Computable(q) && RkVideoNeeds(q.f, ByteStride(q, 0), PlaneHeight(q, 0)) <= INT_MAX
  {
    StrideIsSmall(q, 0);
    DimensionsAreSmall(q, 0);
    var stride, height := ByteStride(q, 0), PlaneHeight(q, 0);
    if q.f.id in {NV12, NV16, NV15, NV24} {
      assert height <= 8322;
      hide Mul, Div, ByteStride, PlaneHeight, Small;
      QuotientAtMost(stride * 8, q.f.bpp.p0, 8, stride);
      var pixels := Div(stride * 8, q.f.bpp.p0);
      MulAtMost(2 * pixels, height, 165400, 8322);
      MulAtMost(5 * pixels, height, 413500, 8322);
      MulAtMost(2 * stride, height, 165400, 8322);
      MulAtMost(3 * stride, height, 248100, 8322);
    }
  }

  /**
   * The bounds theorem: for an accepted request of at most 8192 x 8192 the adjusted dimensions, every plane's values
   * and the size of a one-layer buffer fit their C types, also after the Rockchip enlargement.
   */
  lemma NothingOverflows(fmt: InternalFormat, usage: bv64, width: nat, height: nat)
    requires DeriveOutcome(fmt, usage, width, height).Derived? && width <= LIMIT && height <= LIMIT
    ensures var q := DeriveOutcome(fmt, usage, width, height).request;
      && Computable(q) && (RkEnlarges(q.f, q.u) ==> q.f.bpp.p0 > 0)
      && Mul(width, height) <= INT_MAX && q.width + 15 <= INT_MAX && q.height + 63 <= INT_MAX
      && (forall p: nat :: p < q.f.npln ==> PlaneFitsIntegers(q, p))
      && TotalSize(q) <= AllocationSize(q, 1) <= INT_MAX
  {
    hide Info, DeriveOutcome, Sane, Computable, Mul, Div, Align, End, PlaneFitsIntegers, RkVideoNeeds, ByteStride,
      PlaneHeight, Small, RkVideo;
    var q := DeriveOutcome(fmt, usage, width, height).request;
    DerivedIsSane(fmt, usage, width, height);
    DerivedIsSmall(fmt, usage, width, height);
    SmallSizes(q);
    MulAtMost(width, height, 8192, 8192);
    if fmt.base in {NV12, NV16, NV15, NV24} {
      RkRows(fmt.base);
    }
    forall p: nat | p < q.f.npln
      ensures PlaneFitsIntegers(q, p)
    {
      PlaneFits(q, p);
    }
    EndFits(q);
    if RkEnlarges(q.f, q.u) {
      RkNeedsAreSmall(q);
    }
  }

  lemma SmallSizes(q: Request)
    requires Small(q)
    ensures q.width <= 8192 && q.height <= 16384
  {
    hide Sane;
  }

  lemma EndFits(q: Request)
    requires Small(q)
    ensures Computable(q) && TotalSize(q) <= INT_MAX
  {
    PlaneFits(q, q.f.npln - 1);
    hide End, Mul, Align, PlaneWidth, PlaneHeight, ByteStride, HeaderSize, BodySize, Sane;
  }
}
