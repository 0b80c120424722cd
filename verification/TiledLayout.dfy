/** AFRC and 16x16 block-linear layouts: nothing is truncated and the picture is covered. */
module TiledLayout {
  import opened Alignment
  import opened Euclid
  import opened Formats
  import opened AllocTypes
  import opened Layout
  import opened LinearLayout

  // ----- AFRC -----

  ghost predicate AfrcRequest(q: Request) {
    Sane(q) && q.at.IsAfrc() && !q.u.cpu
  }

  /** The paging-tile and clump extents of one plane. */
  ghost predicate AfrcExtents(tileW: nat, tileH: nat, clumpW: nat, clumpH: nat) {
    && ((tileW == 8 && tileH == 8) || (tileW == 16 && tileH == 4))
    && ((clumpW == tileW && clumpH == tileH) || (clumpW == 8 && clumpH == 4) || (clumpW == 4 && clumpH == 4))
  }

  lemma AfrcPlaneExtents(q: Request, p: nat)
    requires AfrcRequest(q) && p < q.f.npln
    ensures AfrcExtents(q.at.afrc.tileW, q.at.afrc.tileH, q.at.afrc.clumpW.At(p), q.at.afrc.clumpH.At(p))
    ensures WidthUnit(q, p) == Mul(q.at.afrc.tileW, q.at.afrc.clumpW.At(p))
    ensures HeightUnit(q, p) == Mul(q.at.afrc.tileH, q.at.afrc.clumpH.At(p))
  {
    hide Mul, LinearRow, AfbcRow, BlockLinearRow, NamedRows;
    var a := q.at.afrc;
    assert ClumpFits(a, a.clumpW.At(p), a.clumpH.At(p));
    MulFacts(a.tileW, a.clumpW.At(p));
    MulFacts(a.tileH, a.clumpH.At(p));
  }

  /** How many paging tiles a plane has across and down. */
  lemma AfrcTiles(q: Request, p: nat) returns (across: nat, down: nat)
    requires AfrcRequest(q) && p < q.f.npln
    ensures PlaneWidth(q, p) == Mul(across, Mul(q.at.afrc.tileW, q.at.afrc.clumpW.At(p)))
    ensures PlaneHeight(q, p) == Mul(down, Mul(q.at.afrc.tileH, q.at.afrc.clumpH.At(p)))
  {
    hide Mul, Div, Align, Divides, WidthUnit, HeightUnit, Sites;
    AfrcPlaneExtents(q, p);
    AlignDivides(Sites(q.width, q.f.alignW, q.f.hsub, p), WidthUnit(q, p));
    AlignDivides(Sites(q.height, q.f.alignH, q.f.vsub, p), HeightUnit(q, p));
    Quotient(WidthUnit(q, p), PlaneWidth(q, p));
    Quotient(HeightUnit(q, p), PlaneHeight(q, p));
    across, down := Div(PlaneWidth(q, p), WidthUnit(q, p)), Div(PlaneHeight(q, p), HeightUnit(q, p));
  }

  lemma AfrcArithmetic(across: nat, down: nat, tileW: nat, tileH: nat, clumpW: nat, clumpH: nat, unit: nat)
    requires AfrcExtents(tileW, tileH, clumpW, clumpH)
    ensures Div(Mul(across, Mul(tileW, clumpW)), clumpW) == Mul(across, tileW)
    ensures Div(Mul(across, tileW), tileW) == across
    ensures Div(Mul(down, Mul(tileH, clumpH)), clumpH) == Mul(down, tileH)
    ensures Mul(tileH, clumpH) > 0
    ensures Divides(Mul(tileH, clumpH), Mul(64 * across, unit))
    ensures Mul(Div(Mul(64 * across, unit), Mul(tileH, clumpH)), Mul(down, Mul(tileH, clumpH)))
         == Mul(Mul(Mul(across, tileW), Mul(down, tileH)), unit)
  {
    hide Mul, Div, Divides;
    MulAssoc(across, tileW, clumpW);
    DivOfProduct(Mul(across, tileW), clumpW);
    DivOfProduct(across, tileW);
    MulAssoc(down, tileH, clumpH);
    DivOfProduct(Mul(down, tileH), clumpH);
    var rows := Mul(tileH, clumpH);
    AfrcRows(tileW, tileH, clumpW, clumpH);
    var per := 64 / rows;
    // 64 across unit = (per across unit) rows
    var units := Mul(across, unit);
    AfrcUnits(across, unit, per, rows);
    ProductDivides(Mul(per, units), rows);
    DivOfProduct(Mul(per, units), rows);
    // (per units) (down rows) = 64 (units down)
    AfrcBody(per, rows, units, down);
    AfrcCount(across, down, tileW, tileH, unit);
  }

  lemma AfrcRows(tileW: nat, tileH: nat, clumpW: nat, clumpH: nat)
    requires AfrcExtents(tileW, tileH, clumpW, clumpH)
    ensures var rows := Mul(tileH, clumpH); rows == 16 || rows == 32 || rows == 64
  {
  }

  lemma AfrcUnits(across: nat, unit: nat, per: nat, rows: nat)
    requires per * rows == 64
    ensures Mul(64 * across, unit) == Mul(Mul(per, Mul(across, unit)), rows)
  {
    assert (64 * across) * unit == 64 * (across * unit);
    assert (per * (across * unit)) * rows == (per * rows) * (across * unit);
  }

  lemma AfrcBody(per: nat, rows: nat, units: nat, down: nat)
    requires per * rows == 64
    ensures Mul(Mul(per, units), Mul(down, rows)) == 64 * Mul(units, down)
  {
    assert (per * units) * (down * rows) == (per * rows) * (units * down);
  }

  lemma AfrcCount(across: nat, down: nat, tileW: nat, tileH: nat, unit: nat)
    requires tileW * tileH == 64
    ensures Mul(Mul(Mul(across, tileW), Mul(down, tileH)), unit) == 64 * Mul(Mul(across, unit), down)
  {
    assert ((across * tileW) * (down * tileH)) * unit == (tileW * tileH) * ((across * unit) * down);
  }

  /**
   * The AFRC theorem: the byte stride is exact (the source's divisibility assertion holds), stride times height
   * is exactly the coding-unit body, and every plane starts on its required alignment.
   */
  lemma AfrcIsExact(q: Request, p: nat)
    requires AfrcRequest(q) && p < q.f.npln
    ensures Computable(q)
    ensures var a := q.at.afrc;
      && Mul(a.tileH, a.clumpH.At(p)) > 0
      && Divides(Mul(a.tileH, a.clumpH.At(p)),
                 Mul(64 * Div(Div(PlaneWidth(q, p), a.clumpW.At(p)), a.tileW), AfrcUnit(q, p)))
    ensures Mul(ByteStride(q, p), PlaneHeight(q, p)) == BodySize(q, p)
    ensures Divides(AfrcPlaneAlign(q, p), Start(q, p))
  {
    SaneIsComputable(q);
    AfrcPlaneExtents(q, p);
    var across, down := AfrcTiles(q, p);
    AfrcStartAligned(q, p);
    AfrcPlaneNumbers(q, p, across, down);
  }

  lemma AfrcStartAligned(q: Request, p: nat)
    requires Computable(q) && q.at.IsAfrc() && p < q.f.npln
    ensures Divides(AfrcPlaneAlign(q, p), Start(q, p))
  {
    hide Mul, Div, Align, Divides, HeaderSize, BodySize;
    var before := if p == 0 then 0 else End(q, p - 1);
    AlignDivides(before, AfrcPlaneAlign(q, p));
  }

  lemma AfrcPlaneNumbers(q: Request, p: nat, across: nat, down: nat)
    requires Computable(q) && q.at.IsAfrc() && p < q.f.npln
    requires AfrcExtents(q.at.afrc.tileW, q.at.afrc.tileH, q.at.afrc.clumpW.At(p), q.at.afrc.clumpH.At(p))
    requires PlaneWidth(q, p) == Mul(across, Mul(q.at.afrc.tileW, q.at.afrc.clumpW.At(p)))
    requires PlaneHeight(q, p) == Mul(down, Mul(q.at.afrc.tileH, q.at.afrc.clumpH.At(p)))
    ensures var a := q.at.afrc;
      && Mul(a.tileH, a.clumpH.At(p)) > 0
      && Divides(Mul(a.tileH, a.clumpH.At(p)),
                 Mul(64 * Div(Div(PlaneWidth(q, p), a.clumpW.At(p)), a.tileW), AfrcUnit(q, p)))
    ensures Mul(ByteStride(q, p), PlaneHeight(q, p)) == BodySize(q, p)
  {
    hide Mul, Div, Divides, PlaneWidth, PlaneHeight, AfrcExtents;
    var a := q.at.afrc;
    AfrcArithmetic(across, down, a.tileW, a.tileH, a.clumpW.At(p), a.clumpH.At(p), AfrcUnit(q, p));
  }

  // ----- block linear -----

  ghost predicate BlockLinearRequest(q: Request) {
    Sane(q) && q.at.IsBlockLinear() && !q.u.cpu
  }

  /** A block of plane p is (16 / hsub) x (16 / vsub) samples. */
  lemma BlockSides(q: Request, p: nat)
    requires BlockLinearRequest(q) && p < q.f.npln
    ensures q.f.npln == 2
    ensures BlockSide(p, q.f.hsub) == if p == 0 then 16 else 8
    ensures BlockSide(p, q.f.vsub) == if p == 0 || q.f.vsub == 1 then 16 else 8
    ensures Divides(16, PlaneWidth(q, 0)) && Divides(16, PlaneHeight(q, 0))
  {
    hide Align, LinearRow, AfbcRow, AfrcRow, NamedRows, Divides;
    AlignDivides(Sites(q.width, q.f.alignW, q.f.hsub, 0), 16);
    AlignDivides(Sites(q.height, q.f.alignH, q.f.vsub, 0), 16);
  }

  /** Bytes per block row: every one of the source's divisions is exact. */
  lemma BlockRowBytes(h: nat, w: nat, bpp: nat)
    requires (h == 8 || h == 16) && (w == 8 || w == 16) && bpp > 0
    ensures Mul(Mul(h, w), bpp) / 8 == Mul(h, Mul(w, bpp) / 8)
    ensures Mul(w, bpp) % 8 == 0
  {
    hide Mul;
    MulFacts(bpp, w);
    EightTimes(bpp, w / 8);
    MulAssoc(h, w, bpp);
    EightTimes(h, Mul(bpp, w / 8));
  }

  /**
   * The block-linear theorem: the byte stride is a whole number of block rows with nothing truncated, each
   * row of blocks covers a row of the subsampled picture, and the body's rows cover its height.
   */
  lemma BlockLinearIsExact(q: Request, p: nat)
    requires BlockLinearRequest(q) && p < q.f.npln
    ensures Computable(q)
    ensures BlockLinearStride(q, p) == Mul(PlaneWidth(q, 0) / 16, Mul(BlockSide(p, q.f.hsub), q.f.bpp.At(p)) / 8)
    ensures Mul(PictureW(q, p), q.f.bpp.At(p)) <= 8 * BlockLinearStride(q, p)
    ensures PictureH(q, p) <= Mul(BlockSide(p, q.f.vsub), PlaneHeight(q, 0) / 16)
    ensures BodySize(q, p) == Mul(BlockLinearStride(q, p), Mul(BlockSide(p, q.f.vsub), PlaneHeight(q, 0) / 16))
  {
    SaneIsComputable(q);
    BlockSides(q, p);
    BlockBpp(q, p);
    var h, w, bpp := BlockSide(p, q.f.vsub), BlockSide(p, q.f.hsub), q.f.bpp.At(p);
    BlockStride(q, p, h, w, bpp);
    PictureCovered(q, 0);
    BlockRowsCover(q, p, q.width, q.f.hsub, PlaneWidth(q, 0) / 16);
    BlockRowsCover(q, p, q.height, q.f.vsub, PlaneHeight(q, 0) / 16);
    BlockRowFits(PictureW(q, p), PlaneWidth(q, 0) / 16, w, bpp);
    BlockBody(q, p);
  }

  lemma BlockBpp(q: Request, p: nat)
    requires BlockLinearRequest(q) && p < q.f.npln
    ensures q.f.bpp.At(p) > 0 && q.f.hsub == 2 && (q.f.vsub == 1 || q.f.vsub == 2)
  {
  }

  lemma BlockStride(q: Request, p: nat, h: nat, w: nat, bpp: nat)
    requires Computable(q) && q.at.IsBlockLinear() && p < q.f.npln
    requires h == BlockSide(p, q.f.vsub) && w == BlockSide(p, q.f.hsub) && bpp == q.f.bpp.At(p)
    requires (h == 8 || h == 16) && (w == 8 || w == 16) && bpp > 0
    ensures BlockLinearStride(q, p) == Mul(PlaneWidth(q, 0) / 16, Mul(w, bpp) / 8)
  {
    hide Mul, Div, PlaneWidth, BlockSide;
    BlockRowBytes(h, w, bpp);
    var nx, row := PlaneWidth(q, 0) / 16, Mul(w, bpp) / 8;
    MulFacts(h, row);
    MulAssoc(nx, row, h);
    DivOfProduct(Mul(nx, row), h);
  }

  lemma BlockRowsCover(q: Request, p: nat, size: nat, sub: nat, blocks: nat)
    requires p > 0 ==> sub == 1 || sub == 2
    requires size <= 16 * blocks
    ensures CeilDiv(size, if p > 0 then sub else 1) <= Mul(BlockSide(p, sub), blocks)
  {
    hide Mul, Div;
    var side := BlockSide(p, sub);
    BlockCount(p, sub, blocks);
    CeilDivAtMost(size, Mul(side, blocks), if p > 0 then sub else 1);
  }

  lemma BlockCount(p: nat, sub: nat, blocks: nat)
    requires p > 0 ==> sub == 1 || sub == 2
    ensures Mul(Mul(BlockSide(p, sub), blocks), if p > 0 then sub else 1) == 16 * blocks
  {
    var side := BlockSide(p, sub);
    var s := if p > 0 then sub else 1;
    assert (side * blocks) * s == (side * s) * blocks;
  }

  lemma BlockRowFits(picture: nat, nx: nat, w: nat, bpp: nat)
    requires (w == 8 || w == 16) && picture <= Mul(w, nx)
    ensures Mul(picture, bpp) <= 8 * Mul(nx, Mul(w, bpp) / 8)
  {
    hide Mul;
    MulMono(picture, Mul(w, nx), bpp, bpp);
    BlockRowProduct(nx, w, bpp);
  }

  lemma BlockRowProduct(nx: nat, w: nat, bpp: nat)
    requires w == 8 || w == 16
    ensures Mul(Mul(w, nx), bpp) == 8 * Mul(nx, Mul(w, bpp) / 8)
  {
    assert w * bpp == 8 * ((w / 8) * bpp);
    assert (w * nx) * bpp == nx * (w * bpp);
  }

  lemma BlockBody(q: Request, p: nat)
    requires Computable(q) && q.at.IsBlockLinear() && p < q.f.npln
    ensures BodySize(q, p) == Mul(BlockLinearStride(q, p), Mul(BlockSide(p, q.f.vsub), PlaneHeight(q, 0) / 16))
  {
    hide Mul, Div, BlockSide, PlaneHeight, BlockLinearStride;
    MulAssoc(BlockLinearStride(q, p), BlockSide(p, q.f.vsub), PlaneHeight(q, 0) / 16);
  }

  /** The source's two remaining assertions: whole bytes in every aligned row, and at least one block across. */
  lemma BlockLinearAssertionsHold(q: Request, p: nat)
    requires BlockLinearRequest(q) && p < q.f.npln
    ensures Mul(PlaneWidth(q, p), q.f.bpp.At(p)) % 8 == 0
    ensures PlaneWidth(q, 0) / 16 > 0 <==> q.width > 0
  {
    hide LinearRow, AfbcRow, AfrcRow, NamedRows, Mul, Div, Align;
    assert WidthUnit(q, p) == 16 && WidthUnit(q, 0) == 16;
    AlignDivides(Sites(q.width, q.f.alignW, q.f.hsub, p), 16);
    AlignDivides(Sites(q.width, q.f.alignW, q.f.hsub, 0), 16);
    WholeBlockRow(PlaneWidth(q, p), q.f.bpp.At(p));
    PictureCovered(q, 0);
    CeilDivOne(q.width);
    if q.width == 0 {
      AlignFixed(0, q.f.alignW) by { SelfAndZero(q.f.alignW); }
      AlignFixed(0, 16) by { SelfAndZero(16); }
    }
  }

  lemma WholeBlockRow(w: nat, bits: nat)
    requires Divides(16, w)
    ensures Mul(w, bits) % 8 == 0
  {
    assert w == 16 * (w / 16);
    assert w * bits == 8 * (2 * (w / 16) * bits);
  }
}
