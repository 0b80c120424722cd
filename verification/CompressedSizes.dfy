/**
 * How much a compressed allocation reserves, measured in pixels and bits: AFBC bodies, headers and header tiles, and
 * the samples an AFRC coding unit stands for.
 */
module CompressedSizes {
  import opened Alignment
  import opened Usages
  import opened Formats
  import opened InternalFormats
  import opened AllocTypes
  import opened Layout
  import opened AfbcLayout
  import opened TiledLayout
  import opened Derive

  // ----- what was asked for -----

  /**
   * A derived AFBC layout has tiled headers and a second body exactly if its format asks for them (a second body only
   * with tiled headers), wide or extra-wide superblocks likewise, wide ones first, and padding exactly if the usage
   * does.
   */
  lemma AfbcIsAsAsked(fmt: InternalFormat, usage: bv64, width: nat, height: nat)
    requires fmt.IsAfbc() && DeriveOutcome(fmt, usage, width, height).Derived?
    ensures var at := DeriveOutcome(fmt, usage, width, height).request.at;
      && (at.tiled <==> fmt.mods & 0x0020_0000 != 0)
      && (at.frontBufferSafe <==> fmt.mods & 0x0020_0000 != 0 && fmt.mods & 0x0080_0000 != 0)
      && (at.padded <==> usage & 0x0020_0000_0000_0000 != 0)
      && at.scheme == (if fmt.mods & 0x0010_0000 != 0 then AfbcWide
                       else if fmt.mods & 0x0040_0000 != 0 then AfbcExtraWide
                       else AfbcBasic)
  {
    AskedBits(fmt, usage);
    hide Info, ValidFormat, AdjustmentOf, LayoutUsageOf, AdjustedWidth, AdjustedHeight, InternalFormat.Get,
      InternalFormat.IsAfbc, Has;
  }

  lemma AskedBits(fmt: InternalFormat, usage: bv64)
    ensures fmt.Get(AFBC_TILED) <==> fmt.mods & 0x0020_0000 != 0
    ensures fmt.Get(AFBC_WIDE) <==> fmt.mods & 0x0010_0000 != 0
    ensures fmt.Get(AFBC_EXTRA_WIDE) <==> fmt.mods & 0x0040_0000 != 0
    ensures fmt.Get(AFBC_DOUBLE_BODY) <==> fmt.mods & 0x0080_0000 != 0
    ensures Has(usage, AFBC_PADDING) <==> usage & 0x0020_0000_0000_0000 != 0
  {
  }

  // ----- AFBC bodies and headers -----

  /** The slot of a superblock is the least multiple of 128 bytes that holds its 256 pixels. */
  lemma SlotIsLeast(q: Request, p: nat, m: nat)
    requires q.at.IsAfbc() && p < 3
    ensures var slot, bits := SuperblockBytes(q, p), 256 * q.f.bppAfbc.At(p);
      && Divides(128, slot) && bits <= 8 * slot <= bits + 1016
      && (Divides(128, m) && bits <= 8 * m ==> slot <= m)
  {
    BlockShape(q.at, p);
    var bpp := q.f.bppAfbc.At(p);
    BlockBits(bpp);
    hide Align, Mul, Divides, SbWidth, SbHeight;
    AlignDivides(32 * bpp, 128);
    if Divides(128, m) && 32 * bpp <= m {
      AlignLeast(32 * bpp, 128, m);
    }
  }

  lemma BlockBits(bpp: nat)
    ensures Mul(bpp, 256) / 8 == 32 * bpp
  {
  }

  /**
   * A body holds every pixel of its superblocks, and wastes less than 128 bytes a superblock and less than a grain of
   * padding.
   */
  lemma BodyHoldsItsSuperblocks(q: Request, p: nat)
    requires AfbcAllocation(q) && p < q.f.npln
    ensures var count, grain := SuperblockCount(q, p), if q.at.tiled then 4096 else 1024;
      var bits := Mul(256 * count, q.f.bppAfbc.At(p));
      bits <= 8 * SingleBody(q, p) <= bits + 1016 * count + 8 * (grain - 1)
  {
    hide Mul, Div, Align, Divides, SuperblockCount, SuperblockBytes, Sane, SingleBody, Shape, SbWidth, SbHeight;
    PlanesOf(q);
    PaddedBody(q, p);
    SlotIsLeast(q, p, 0);
    BodyOfSlots(SuperblockCount(q, p), SuperblockBytes(q, p), q.f.bppAfbc.At(p), SingleBody(q, p),
                if q.at.tiled then 4096 else 1024);
  }

  /** Without CPU usage the superblocks are the whole plane: its body holds every one of its pixels. */
  lemma BodyHoldsEveryPixel(q: Request, p: nat)
    requires AfbcRequest(q) && p < q.f.npln
    ensures Shape(q.f)
    ensures Mul(Mul(PlaneWidth(q, p), PlaneHeight(q, p)), q.f.bppAfbc.At(p)) <= 8 * SingleBody(q, p)
  {
    hide Mul, Div, Align, SuperblockCount, Sane, SingleBody, Shape, PlaneWidth, PlaneHeight;
    PlanesOf(q);
    PlanePixels(q, p);
    BodyHoldsItsSuperblocks(q, p);
  }

  lemma PlanePixels(q: Request, p: nat)
    requires AfbcRequest(q) && p < q.f.npln
    ensures Shape(q.f) && Mul(PlaneWidth(q, p), PlaneHeight(q, p)) == 256 * SuperblockCount(q, p)
  {
    hide Mul, Div, SuperblockCount, Sane, PlaneWidth, PlaneHeight, Shape, SbWidth, SbHeight;
    PlanesOf(q);
    SuperblockCountIsExact(q, p);
  }

  lemma PaddedBody(q: Request, p: nat)
    requires Shape(q.f) && p < q.f.npln
    ensures var bare := Mul(SuperblockCount(q, p), SuperblockBytes(q, p));
      bare <= SingleBody(q, p) <= bare + (if q.at.tiled then 4096 else 1024) - 1
  {
    hide Mul, Div, Align, SuperblockCount, SuperblockBytes;
  }

  lemma PlanesOf(q: Request)
    requires Sane(q)
    ensures Shape(q.f) && 1 <= q.f.npln <= 3
  {
    hide LinearRow, AfbcRow, AfrcRow, BlockLinearRow, NamedRows, Fits;
  }

  lemma BodyOfSlots(count: nat, slot: nat, bpp: nat, body: nat, grain: nat)
    requires 256 * bpp <= 8 * slot <= 256 * bpp + 1016 && Mul(count, slot) <= body <= Mul(count, slot) + grain - 1
    ensures Mul(256 * count, bpp) <= 8 * body <= Mul(256 * count, bpp) + 1016 * count + 8 * (grain - 1)
  {
    hide Mul;
    MulFacts(256, count);
    DoubleAssoc(count, bpp);
    EightTimes(count, slot);
    MulMono(count, count, 256 * bpp, 8 * slot);
    MulMono(count, count, 8 * slot, 256 * bpp + 1016);
    SplitProduct(count, 256 * bpp);
  }

  lemma DoubleAssoc(count: nat, bpp: nat)
    ensures Mul(256 * count, bpp) == Mul(count, 256 * bpp)
  {
  }

  lemma SplitProduct(count: nat, bits: nat)
    ensures Mul(count, bits + 1016) == Mul(count, bits) + 1016 * count
  {
  }

  /** The header is the least multiple of its grain with sixteen bytes for every superblock. */
  lemma HeaderIsLeast(q: Request, p: nat)
    requires AfbcAllocation(q) && p < q.f.npln
    ensures var grain: nat := if q.at.tiled then 4096 else 1024;
      && Divides(grain, HeaderSize(q, p))
      && 16 * SuperblockCount(q, p) <= HeaderSize(q, p) < 16 * SuperblockCount(q, p) + grain
  {
    hide Mul, Div, Align, Divides, SuperblockCount, Sane;
    PlanesOf(q);
    AlignDivides(SuperblockCount(q, p) * 16, AfbcGrain(q.at.tiled));
  }

  // ----- header tiles -----

  /** Superblocks along the side of a header tile: eight where 64 superblocks of pixels fit in 64 KiB, else four. */
  function TileBlocks(q: Request, p: nat): nat
    requires p < 3
  {
    if !q.at.tiled then 1 else if 64 * 256 * q.f.bppAfbc.At(p) <= 8 * 65536 then 8 else 4
  }

  /** What a plane's width is counted in, in pixels: header tiles, and four superblocks for padded RGB. */
  function AcrossUnit(q: Request, p: nat): nat
    requires p < 3
  {
    Mul(Max(TileBlocks(q, p), if q.at.padded && !q.f.isYuv then 4 else 1), SbWidth(q.at, p))
  }

  /** What its height is counted in: header tiles, and pairs of untiled wide superblocks. */
  function DownUnit(q: Request, p: nat): nat
    requires p < 3
  {
    Mul(if q.at.scheme == AfbcWide && !q.at.tiled then 2 else TileBlocks(q, p), SbHeight(q.at, p))
  }

  /**
   * A plane is the least size that covers its sample sites in whole header tiles; padded RGB has at least four
   * superblocks across, and untiled wide blocks come in pairs downwards.
   */
  lemma PlaneIsLeast(q: Request, p: nat)
    requires AfbcRequest(q) && p < q.f.npln
    ensures Shape(q.f)
    ensures var across, down := AcrossUnit(q, p), DownUnit(q, p);
      var sitesX := Sites(q.width, q.f.alignW, q.f.hsub, p);
      var sitesY := Sites(q.height, q.f.alignH, q.f.vsub, p);
      && Divides(across, PlaneWidth(q, p)) && sitesX <= PlaneWidth(q, p) < sitesX + across
      && Divides(down, PlaneHeight(q, p)) && sitesY <= PlaneHeight(q, p) < sitesY + down
  {
    hide Mul, Div, Align, Divides, Sites, AcrossUnit, DownUnit, WidthUnit, HeightUnit, Sane;
    PlanesOf(q);
    PlaneUnits(q, p);
    AlignDivides(Sites(q.width, q.f.alignW, q.f.hsub, p), WidthUnit(q, p));
    AlignDivides(Sites(q.height, q.f.alignH, q.f.vsub, p), HeightUnit(q, p));
  }

  lemma PlaneUnits(q: Request, p: nat)
    requires AfbcRequest(q) && p < q.f.npln
    ensures Shape(q.f)
    ensures WidthUnit(q, p) == AcrossUnit(q, p) && HeightUnit(q, p) == DownUnit(q, p)
  {
    hide Mul, Div, Align, Divides, LinearRow, AfrcRow, BlockLinearRow, NamedRows;
    SuperblockShape(q, p);
    SmallMultiples(SbWidth(q.at, p));
    SmallMultiples(SbHeight(q.at, p));
  }

  // ----- AFRC coding units -----

  /** The samples per pixel site that a coding unit reserves room for: three components take the room of four. */
  function SampleRoom(components: nat): nat {
    if components == 3 then 4 else components
  }

  /**
   * Every AFRC coding unit stands for 64 samples, four rows high unless it is a single component in the rotated
   * layout, and its bytes are the size the format asks for: luma's in the first plane, chroma's in the others.
   */
  lemma UnitsHold64Samples(fmt: InternalFormat, usage: bv64, width: nat, height: nat, p: nat)
    requires DeriveOutcome(fmt, usage, width, height).Derived?
    requires var q := DeriveOutcome(fmt, usage, width, height).request; q.at.IsAfrc() && p < q.f.npln
    ensures var q := DeriveOutcome(fmt, usage, width, height).request;
      && p < 3
      && var w, h, c := q.at.afrc.clumpW.At(p), q.at.afrc.clumpH.At(p), q.f.ncmp.At(p);
      && 1 <= c <= 4 && w * h * SampleRoom(c) == 64
      && h == (if c == 1 && fmt.Get(AFRC_ROT_LAYOUT) then 8 else 4)
      && AfrcUnit(q, p) == if p == 0 then fmt.LumaSize().Bytes() else fmt.ChromaSize().Bytes()
  {
    hide Info, ValidFormat, AdjustmentOf, LayoutUsageOf, AdjustedWidth, AdjustedHeight, InternalFormat.Get,
      InternalFormat.IsAfbc, InternalFormat.IsAfrc, InternalFormat.LumaSize, InternalFormat.ChromaSize,
      PlaneAlignment;
    RowShape(fmt.base);
  }

  /** The AFRC body is its samples, 64 to a coding unit. */
  lemma BodyIsItsSamples(fmt: InternalFormat, usage: bv64, width: nat, height: nat, p: nat)
    requires DeriveOutcome(fmt, usage, width, height).Derived?
    requires var q := DeriveOutcome(fmt, usage, width, height).request;
      q.at.IsAfrc() && !q.u.cpu && p < q.f.npln
    ensures var q := DeriveOutcome(fmt, usage, width, height).request;
      && p < 3 && Computable(q)
      && var bytes := if p == 0 then fmt.LumaSize().Bytes() else fmt.ChromaSize().Bytes();
      64 * BodySize(q, p)
        == Mul(Mul(PlaneWidth(q, p), PlaneHeight(q, p)), Mul(SampleRoom(q.f.ncmp.At(p)), bytes))
  {
    UnitsHold64Samples(fmt, usage, width, height, p);
    DerivedIsSane(fmt, usage, width, height);
    hide DeriveOutcome, Mul, Div, Align, PlaneWidth, PlaneHeight, BodySize, Sane, AfrcExtents, CodingSize.Bytes,
      SampleRoom, AfrcUnit;
    var q := DeriveOutcome(fmt, usage, width, height).request;
    var w, h := q.at.afrc.clumpW.At(p), q.at.afrc.clumpH.At(p);
    PlanesOf(q);
    WholeUnits(q, p);
    AfrcBodyIs(q, p);
    SamplesOfUnits(PlaneWidth(q, p), PlaneHeight(q, p), w, h, SampleRoom(q.f.ncmp.At(p)), AfrcUnit(q, p));
  }

  lemma WholeUnits(q: Request, p: nat)
    requires AfrcRequest(q) && p < q.f.npln
    ensures Divides(q.at.afrc.clumpW.At(p), PlaneWidth(q, p)) && Divides(q.at.afrc.clumpH.At(p), PlaneHeight(q, p))
  {
    hide Mul, Div, Align, Divides, Sites, PlaneWidth, PlaneHeight, Sane, AfrcExtents;
    PlanesOf(q);
    var across, down := AfrcTiles(q, p);
    var a := q.at.afrc;
    AfrcPlaneExtents(q, p);
    ExtentsPositive(a.tileW, a.tileH, a.clumpW.At(p), a.clumpH.At(p));
    ProductDivides(a.tileW, a.clumpW.At(p));
    ProductDivides(a.tileH, a.clumpH.At(p));
    DividesProduct(a.clumpW.At(p), Mul(a.tileW, a.clumpW.At(p)), across);
    DividesProduct(a.clumpH.At(p), Mul(a.tileH, a.clumpH.At(p)), down);
  }

  lemma ExtentsPositive(tileW: nat, tileH: nat, clumpW: nat, clumpH: nat)
    requires AfrcExtents(tileW, tileH, clumpW, clumpH)
    ensures clumpW > 0 && clumpH > 0
  {
  }

  lemma AfrcBodyIs(q: Request, p: nat)
    requires Computable(q) && q.at.IsAfrc() && p < q.f.npln
    ensures q.at.afrc.clumpW.At(p) > 0 && q.at.afrc.clumpH.At(p) > 0
    ensures BodySize(q, p) == Mul(Mul(Div(PlaneWidth(q, p), q.at.afrc.clumpW.At(p)),
                                      Div(PlaneHeight(q, p), q.at.afrc.clumpH.At(p))), AfrcUnit(q, p))
  {
    hide Mul, Div, PlaneWidth, PlaneHeight, AfrcUnit;
  }

  lemma SamplesOfUnits(width: nat, height: nat, w: nat, h: nat, room: nat, unit: nat)
    requires w > 0 && h > 0 && w * h * room == 64 && Divides(w, width) && Divides(h, height)
    ensures 64 * Mul(Mul(Div(width, w), Div(height, h)), unit) == Mul(Mul(width, height), Mul(room, unit))
  {
    Quotient(w, width);
    Quotient(h, height);
    var s, t := Div(width, w), Div(height, h);
    assert (s * w) * (t * h) * (room * unit) == (w * h * room) * ((s * t) * unit);
  }
}
