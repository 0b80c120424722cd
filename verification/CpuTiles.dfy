/**
 * AFRC and block-linear layouts with and without CPU usage. With it planes are aligned for the CPU only, and the
 * divisions by the coding unit round down: exactly when the units that are left cover the picture.
 */
module CpuTiles {
  import opened Alignment
  import opened Formats
  import opened AllocTypes
  import opened Layout
  import opened LinearLayout
  import opened TiledLayout

  /** A request for a row of the table. */
  ghost predicate TableRequest(q: Request) {
    Sane(q) && HasInfo(q.f.id) && q.f == Info(q.f.id)
  }

  lemma AlignmentsArePowers(id: BaseFormat)
    requires HasInfo(id)
    ensures var f := Info(id);
      && (f.alignW == 1 || f.alignW == 2 || f.alignW == 4) && (f.alignH == 1 || f.alignH == 2)
      && (f.alignWCpu == 1 || f.alignWCpu == 4 || f.alignWCpu == 16)
  {
    match id {
      case RGB_565 => case RGB_888 => case BGR_888 => case RGBA_8888 => case BGRA_8888 => case RGBX_8888 =>
      case RGBA_1010102 => case RGBA_16161616 => case RGBA_10101010 => case Y8 => case Y16 =>
      case YUV420_8BIT_I => case NV12 => case NV21 => case YV12 => case YU12 => case YUV422_8BIT =>
      case NV16 => case NV24 => case YUV444 => case NV30 => case Q410 => case Q401 => case YUV420_10BIT_I =>
      case Y0L2 => case P010 => case NV15 => case Y210 => case P210 => case Y410 => case RAW16 => case RAW12 =>
      case RAW10 => case BLOB => case DEPTH_16 => case DEPTH_24 => case DEPTH_24_STENCIL_8 => case DEPTH_32F =>
      case DEPTH_32F_STENCIL_8 => case STENCIL_8 => case R8 =>
    }
  }

  /** The units that fit in an extent. */
  function UnitsIn(extent: nat, unit: nat): nat
    requires unit > 0
  {
    Mul(Div(extent, unit), unit)
  }

  /** A multiple of the unit that covers the sample sites covers their alignment too. */
  lemma SitesLeast(size: nat, align: nat, sub: nat, p: nat, unit: nat, m: nat)
    requires align > 0 && (p > 0 ==> Divides(sub, align)) && Divides(align, unit) && Divides(unit, m)
    requires CeilDiv(size, if p > 0 then sub else 1) <= m
    ensures Sites(size, align, sub, p) <= m
  {
    hide Mul, Div, Align, Divides, CeilDiv;
    DividesTransitive(align, unit, m);
    if p > 0 {
      DividesPositive(sub, align);
      CeilDivCovers(size, sub, m);
      DividesProduct(align, m, sub);
      AlignLeast(size, align, Mul(m, sub));
      DivAtMost(Align(size, align), m, sub);
    } else {
      CeilDivOne(size);
      AlignLeast(size, align, m);
    }
  }

  lemma CeilDivCovers(size: nat, sub: nat, m: nat)
    requires sub > 0 && CeilDiv(size, sub) <= m
    ensures size <= Mul(m, sub)
  {
    hide Mul, Div, Align;
    MulMono(CeilDiv(size, sub), m, sub, sub);
    AlignIsCeil(size, sub);
  }

  lemma AlignIsCeil(x: nat, base: nat)
    requires base > 0
    ensures Align(x, base) == Mul(CeilDiv(x, base), base)
  {
  }

  /** Rounding down keeps the picture exactly when there is nothing to round. */
  lemma CoverExactly(size: nat, align: nat, sub: nat, p: nat, grain: nat, unit: nat)
    requires align > 0 && grain > 0 && unit > 0 && (p > 0 ==> Divides(sub, align)) && Divides(align, unit)
    requires Divides(unit, grain) || Divides(grain, unit)
    ensures var extent := Align(Sites(size, align, sub, p), grain);
      && (p > 0 ==> sub > 0)
      && (CeilDiv(size, if p > 0 then sub else 1) <= UnitsIn(extent, unit) <==> Divides(unit, extent))
  {
    hide Mul, Div, Align, Divides, Sites, CeilDiv;
    if p > 0 {
      DividesPositive(sub, align);
    }
    SitesCover(size, align, sub, p);
    var sites := Sites(size, align, sub, p);
    var extent := Align(sites, grain);
    var m := UnitsIn(extent, unit);
    AlignDivides(sites, grain);
    ProductDivides(Div(extent, unit), unit);
    DivBounds(extent, unit);
    if Divides(unit, grain) {
      DividesTransitive(unit, grain, extent);
      Quotient(unit, extent);
    } else if CeilDiv(size, if p > 0 then sub else 1) <= m {
      SitesLeast(size, align, sub, p, unit, m);
      DividesTransitive(grain, unit, m);
      AlignLeast(sites, grain, m);
    } else if Divides(unit, extent) {
      Quotient(unit, extent);
    }
  }

  // ----- AFRC -----

  /** Whole coding units of plane p cover the picture. */
  ghost predicate CodingUnitsCover(q: Request, p: nat)
    requires Computable(q) && q.at.IsAfrc() && p < q.f.npln
  {
    && PictureW(q, p) <= UnitsIn(PlaneWidth(q, p), q.at.afrc.clumpW.At(p))
    && PictureH(q, p) <= UnitsIn(PlaneHeight(q, p), q.at.afrc.clumpH.At(p))
  }

  /**
   * AFRC keeps the whole picture in a plane if and only if the plane is a whole number of coding units, as it always is
   * without CPU usage.
   */
  lemma AfrcCoversExactlyWhen(q: Request, p: nat)
    requires TableRequest(q) && q.at.IsAfrc() && p < q.f.npln
    ensures Computable(q)
    ensures CodingUnitsCover(q, p) <==>
            && Divides(q.at.afrc.clumpW.At(p), PlaneWidth(q, p))
            && Divides(q.at.afrc.clumpH.At(p), PlaneHeight(q, p))
    ensures !q.u.cpu ==> CodingUnitsCover(q, p)
  {
    SaneIsComputable(q);
    AfrcClumps(q, p);
    AfrcUnits(q, p);
    hide Info, Mul, Div, Align, Divides, CeilDiv, WidthUnit, HeightUnit, Sites, Sane, UnitsIn, Computable;
    CoverExactly(q.width, q.f.alignW, q.f.hsub, p, WidthUnit(q, p), q.at.afrc.clumpW.At(p));
    CoverExactly(q.height, q.f.alignH, q.f.vsub, p, HeightUnit(q, p), q.at.afrc.clumpH.At(p));
    if !q.u.cpu {
      AlignKeepsDivisor(Sites(q.width, q.f.alignW, q.f.hsub, p), WidthUnit(q, p), q.at.afrc.clumpW.At(p));
      AlignKeepsDivisor(Sites(q.height, q.f.alignH, q.f.vsub, p), HeightUnit(q, p), q.at.afrc.clumpH.At(p));
    }
  }

  lemma AlignKeepsDivisor(x: nat, grain: nat, unit: nat)
    requires grain > 0 && Divides(unit, grain)
    ensures Divides(unit, Align(x, grain))
  {
    AlignDivides(x, grain);
    DividesTransitive(unit, grain, Align(x, grain));
  }

  lemma AfrcClumps(q: Request, p: nat)
    requires Sane(q) && q.at.IsAfrc() && p < q.f.npln
    ensures var w, h := q.at.afrc.clumpW.At(p), q.at.afrc.clumpH.At(p);
      (w == 4 || w == 8 || w == 16) && (h == 4 || h == 8) && q.f.tileSize == 1
  {
    var a := q.at.afrc;
    assert ClumpFits(a, a.clumpW.At(p), a.clumpH.At(p));
  }

  lemma AfrcUnits(q: Request, p: nat)
    requires TableRequest(q) && q.at.IsAfrc() && p < q.f.npln
    ensures var w, h := q.at.afrc.clumpW.At(p), q.at.afrc.clumpH.At(p);
      && (Divides(w, WidthUnit(q, p)) || Divides(WidthUnit(q, p), w))
      && (Divides(h, HeightUnit(q, p)) || Divides(HeightUnit(q, p), h))
      && (!q.u.cpu ==> Divides(w, WidthUnit(q, p)) && Divides(h, HeightUnit(q, p)))
      && Divides(q.f.alignW, w) && Divides(q.f.alignH, h)
  {
    AlignmentsArePowers(q.f.id);
    AfrcClumps(q, p);
    hide Info, Mul, LinearRow, AfbcRow, AfrcRow, BlockLinearRow, NamedRows, Divides;
    var w, h := q.at.afrc.clumpW.At(p), q.at.afrc.clumpH.At(p);
    SmallPowersDivide(w);
    SmallPowersDivide(h);
    if !q.u.cpu {
      AfrcPlaneExtents(q, p);
      ProductDivides(q.at.afrc.tileW, w);
      ProductDivides(q.at.afrc.tileH, h);
    } else {
      assert WidthUnit(q, p) == q.f.alignWCpu && HeightUnit(q, p) == 1;
    }
  }

  lemma SmallPowersDivide(w: nat)
    requires w == 4 || w == 8 || w == 16
    ensures Divides(1, w) && Divides(2, w) && Divides(4, w) && Divides(w, 16)
  {
  }

  // ----- block linear -----

  /** Whole blocks of plane p cover the picture: in a row of the stride, and in the rows of the body. */
  ghost predicate BlocksCover(q: Request, p: nat)
    requires Computable(q) && q.at.IsBlockLinear() && p < q.f.npln
  {
    && Mul(PictureW(q, p), q.f.bpp.At(p)) <= 8 * BlockLinearStride(q, p)
    && PictureH(q, p) <= Mul(BlockSide(p, q.f.vsub), PlaneHeight(q, 0) / 16)
  }

  /**
   * The block-linear layout keeps the whole picture in every plane if and only if there is no CPU usage or the picture,
   * rounded as the format asks, is a whole number of blocks both ways.
   */
  lemma BlockLinearCoversExactlyWhen(q: Request)
    requires TableRequest(q) && q.at.IsBlockLinear()
    ensures Computable(q)
    ensures (forall p: nat :: p < q.f.npln ==> BlocksCover(q, p)) <==>
            !q.u.cpu || (Align(q.width, q.f.alignW) % 16 == 0 && Align(q.height, q.f.alignH) % 16 == 0)
  {
    SaneIsComputable(q);
    assert 1 <= q.f.npln <= 3;
    hide Info, Mul, Div, Align, PlaneWidth, PlaneHeight, BlockLinearStride, BlocksCover, Sane, Computable, Shape;
    BlockPicture(q);
    FirstPlaneCovered(q);
    if q.width <= 16 * (PlaneWidth(q, 0) / 16) && q.height <= 16 * (PlaneHeight(q, 0) / 16) {
      forall p: nat | p < q.f.npln
        ensures BlocksCover(q, p)
      {
        PlaneCovered(q, p);
      }
    } else {
      assert !BlocksCover(q, 0);
    }
  }

  /** Both dimensions in blocks of plane 0. */
  lemma BlockPicture(q: Request)
    requires TableRequest(q) && q.at.IsBlockLinear()
    ensures Shape(q.f)
    ensures q.width <= 16 * (PlaneWidth(q, 0) / 16) && q.height <= 16 * (PlaneHeight(q, 0) / 16) <==>
            !q.u.cpu || (Align(q.width, q.f.alignW) % 16 == 0 && Align(q.height, q.f.alignH) % 16 == 0)
  {
    AlignmentsArePowers(q.f.id);
    BlockUnits(q);
    hide Info, Mul, Div, Align, CeilDiv, WidthUnit, HeightUnit, Sane, Shape;
    SmallPowersDivide(16);
    CeilDivOne(q.width);
    CeilDivOne(q.height);
    CoverExactly(q.width, q.f.alignW, q.f.hsub, 0, WidthUnit(q, 0), 16);
    CoverExactly(q.height, q.f.alignH, q.f.vsub, 0, HeightUnit(q, 0), 16);
    InBlocks(PlaneWidth(q, 0));
    InBlocks(PlaneHeight(q, 0));
    if q.u.cpu {
      OneIsNothing(Align(q.width, q.f.alignW));
      OneIsNothing(Align(q.height, q.f.alignH));
    } else {
      AlignDivides(Align(q.width, q.f.alignW), 16);
      AlignDivides(Align(q.height, q.f.alignH), 16);
    }
  }

  lemma BlockUnits(q: Request)
    requires TableRequest(q) && q.at.IsBlockLinear()
    ensures Shape(q.f) && WidthUnit(q, 0) == (if q.u.cpu then 1 else 16)
    ensures HeightUnit(q, 0) == (if q.u.cpu then 1 else 16)
  {
    BlockLinearRows(q.f.id);
    hide Info, LinearRow, AfbcRow, AfrcRow, NamedRows;
  }

  lemma BlockLinearRows(id: BaseFormat)
    requires HasInfo(id)
    ensures Info(id).blockLinear ==> Info(id).alignWCpu == 1
  {
    match id {
      case RGB_565 => case RGB_888 => case BGR_888 => case RGBA_8888 => case BGRA_8888 => case RGBX_8888 =>
      case RGBA_1010102 => case RGBA_16161616 => case RGBA_10101010 => case Y8 => case Y16 =>
      case YUV420_8BIT_I => case NV12 => case NV21 => case YV12 => case YU12 => case YUV422_8BIT =>
      case NV16 => case NV24 => case YUV444 => case NV30 => case Q410 => case Q401 => case YUV420_10BIT_I =>
      case Y0L2 => case P010 => case NV15 => case Y210 => case P210 => case Y410 => case RAW16 => case RAW12 =>
      case RAW10 => case BLOB => case DEPTH_16 => case DEPTH_24 => case DEPTH_24_STENCIL_8 => case DEPTH_32F =>
      case DEPTH_32F_STENCIL_8 => case STENCIL_8 => case R8 =>
    }
  }

  lemma InBlocks(extent: nat)
    ensures UnitsIn(extent, 16) == 16 * (extent / 16) && (Divides(16, extent) <==> extent % 16 == 0)
  {
  }

  lemma OneIsNothing(x: nat)
    ensures Align(x, 1) == x
  {
  }

  lemma BlockShape(q: Request, p: nat)
    requires Sane(q) && q.at.IsBlockLinear() && p < q.f.npln
    ensures q.f.npln == 2 && q.f.hsub == 2 && (q.f.vsub == 1 || q.f.vsub == 2) && q.f.bpp.At(p) > 0
    ensures BlockSide(p, q.f.hsub) == if p == 0 then 16 else 8
    ensures BlockSide(p, q.f.vsub) == if p == 0 || q.f.vsub == 1 then 16 else 8
  {
    hide LinearRow, AfbcRow, AfrcRow, NamedRows;
  }

  lemma FirstPlaneCovered(q: Request)
    requires TableRequest(q) && Computable(q) && q.at.IsBlockLinear()
    ensures BlocksCover(q, 0) <==>
            q.width <= 16 * (PlaneWidth(q, 0) / 16) && q.height <= 16 * (PlaneHeight(q, 0) / 16)
  {
    BlockShape(q, 0);
    hide Info, Mul, Div, PlaneWidth, PlaneHeight, BlockLinearStride, Sane, CeilDiv;
    var nx, bpp := PlaneWidth(q, 0) / 16, q.f.bpp.p0;
    BlockStride(q, 0, 16, 16, bpp);
    CeilDivOne(q.width);
    CeilDivOne(q.height);
    SixteenTimes(nx);
    SixteenTimes(PlaneHeight(q, 0) / 16);
    BlockRowProduct(nx, 16, bpp);
    if q.width <= 16 * nx {
      MulMono(q.width, 16 * nx, bpp, bpp);
    } else {
      MulStrict(16 * nx, q.width, bpp);
    }
  }

  lemma SixteenTimes(x: nat)
    ensures Mul(16, x) == 16 * x
  {
  }

  lemma PlaneCovered(q: Request, p: nat)
    requires TableRequest(q) && Computable(q) && q.at.IsBlockLinear() && p < q.f.npln
    requires q.width <= 16 * (PlaneWidth(q, 0) / 16) && q.height <= 16 * (PlaneHeight(q, 0) / 16)
    ensures BlocksCover(q, p)
  {
    BlockShape(q, p);
    hide Info, Mul, Div, PlaneWidth, PlaneHeight, BlockLinearStride, Sane, CeilDiv, BlockSide;
    var h, w, bpp := BlockSide(p, q.f.vsub), BlockSide(p, q.f.hsub), q.f.bpp.At(p);
    BlockStride(q, p, h, w, bpp);
    BlockRowsCover(q, p, q.width, q.f.hsub, PlaneWidth(q, 0) / 16);
    BlockRowsCover(q, p, q.height, q.f.vsub, PlaneHeight(q, 0) / 16);
    BlockRowFits(PictureW(q, p), PlaneWidth(q, 0) / 16, w, bpp);
  }
}
