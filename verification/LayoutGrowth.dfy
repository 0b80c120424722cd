/** A larger picture never gets a smaller buffer: every step of the derivation is monotone in width and height. */
module LayoutGrowth {
  import opened Alignment
  import opened Usages
  import opened Formats
  import opened InternalFormats
  import opened AllocTypes
  import opened Layout
  import opened Derive

  /** Two requests that differ only in size, the second at least as large. */
  ghost predicate Grows(q: Request, r: Request) {
    q.at == r.at && q.f == r.f && q.u == r.u && q.width <= r.width && q.height <= r.height
  }

  lemma SitesGrow(a: nat, b: nat, align: nat, sub: nat, p: nat)
    requires align > 0 && (p > 0 ==> sub > 0) && a <= b
    ensures Sites(a, align, sub, p) <= Sites(b, align, sub, p)
  {
    hide Mul, Div, Align;
    AlignMonotone(a, b, align);
    if p > 0 {
      DivMono(Align(a, align), Align(b, align), sub);
    }
  }

  lemma PlanesGrow(q: Request, r: Request, p: nat)
    requires Grows(q, r) && Shape(q.f) && p < q.f.npln
    ensures PlaneWidth(q, p) <= PlaneWidth(r, p)
    ensures PlaneHeight(q, p) <= PlaneHeight(r, p)
  {
    hide Mul, Div, Align, Sites;
    SitesGrow(q.width, r.width, q.f.alignW, q.f.hsub, p);
    SitesGrow(q.height, r.height, q.f.alignH, q.f.vsub, p);
    assert WidthUnit(q, p) == WidthUnit(r, p) && HeightUnit(q, p) == HeightUnit(r, p);
    AlignMonotone(Sites(q.width, q.f.alignW, q.f.hsub, p), Sites(r.width, q.f.alignW, q.f.hsub, p), WidthUnit(q, p));
    AlignMonotone(Sites(q.height, q.f.alignH, q.f.vsub, p), Sites(r.height, q.f.alignH, q.f.vsub, p), HeightUnit(q, p));
  }

  lemma AlignedStrideGrows(q: Request, r: Request, p: nat)
    requires Grows(q, r) && Shape(q.f) && p < q.f.npln
    ensures AlignedStride(q, p) <= AlignedStride(r, p)
  {
    hide Mul, Div, Align, PlaneWidth, StrideAlign;
    PlanesGrow(q, r, p);
    var a, b := Mul(PlaneWidth(q, p), q.f.bpp.At(p)) / 8, Mul(PlaneWidth(r, p), q.f.bpp.At(p)) / 8;
    MulMono(PlaneWidth(q, p), PlaneWidth(r, p), q.f.bpp.At(p), q.f.bpp.At(p));
    assert a <= b;
    var unit, tile := StrideAlign(q, p), q.f.tileSize;
    assert unit == StrideAlign(r, p) by { SameStrideAlign(q, r, p); }
    if unit != 0 {
      MulMono(a, b, tile, tile);
      AlignMonotone(Mul(a, tile), Mul(b, tile), unit);
      DivMono(Align(Mul(a, tile), unit), Align(Mul(b, tile), unit), tile);
    }
  }

  lemma SameStrideAlign(q: Request, r: Request, p: nat)
    requires Grows(q, r) && p < 3
    ensures StrideAlign(q, p) == StrideAlign(r, p)
  {
  }

  lemma RequestRoundingGrows(a: nat, b: nat, s: StrideRequest)
    requires a <= b
    ensures RoundToRequest(a, s) <= RoundToRequest(b, s)
  {
    hide Mul, Div, Align;
    match s {
      case Align16 => AlignMonotone(a, b, 16);
      case Align64 => AlignMonotone(a, b, 64);
      case Align128 => AlignMonotone(a, b, 128);
      case OddTimes256 =>
      case NoRequest =>
      case Conflicting =>
    }
  }

  lemma {:induction false} LinearStrideGrows(q: Request, r: Request, p: nat)
    requires Grows(q, r) && Shape(q.f) && p < q.f.npln
    ensures LinearStride(q, p) <= LinearStride(r, p)
    decreases p
  {
    hide Mul, Div, Align, AlignedStride, StrideAlign, RoundToRequest;
    SameStrideAlign(q, r, 0);
    if q.f.id == NV12 && q.u.stride != NoRequest {
      RequestRoundingGrows(q.width, r.width, q.u.stride);
      var a := if q.u.stride == Conflicting then 0 else RoundToRequest(q.width, q.u.stride);
      var b := if q.u.stride == Conflicting then 0 else RoundToRequest(r.width, q.u.stride);
      MulMono(a, b, q.f.bpp.At(p), q.f.bpp.At(p));
      if p > 0 {
        DivMono(Mul(a, q.f.bpp.At(p)) / 8, Mul(b, q.f.bpp.At(p)) / 8, q.f.hsub);
      }
    } else {
      AlignedStrideGrows(q, r, p);
      AlignedStrideGrows(q, r, 0);
      AlignMonotone(AlignedStride(q, 0), AlignedStride(r, 0), Max(1, 2 * StrideAlign(q, 0)));
      if p > 0 {
        LinearStrideGrows(q, r, 0);
      }
      SharedGrows(q, r, p);
    }
  }

  /** The remaining steps after the shared stride: the request's rounding and NV30's. */
  lemma SharedGrows(q: Request, r: Request, p: nat)
    requires Grows(q, r) && Shape(q.f) && p < q.f.npln
    requires !(q.f.id == NV12 && q.u.stride != NoRequest)
    requires AlignedStride(q, p) <= AlignedStride(r, p)
    requires StrideAlign(q, 0) == StrideAlign(r, 0)
    requires Align(AlignedStride(q, 0), Max(1, 2 * StrideAlign(q, 0))) <=
             Align(AlignedStride(r, 0), Max(1, 2 * StrideAlign(q, 0)))
    requires p > 0 ==> LinearStride(q, 0) <= LinearStride(r, 0)
    ensures LinearStride(q, p) <= LinearStride(r, p)
  {
    hide Mul, Div, Align, AlignedStride, StrideAlign, RoundToRequest;
    var a := if !Yv12Shared(q) then AlignedStride(q, p)
             else if p == 0 then Align(AlignedStride(q, 0), Max(1, 2 * StrideAlign(q, 0)))
             else LinearStride(q, 0) / 2;
    var b := if !Yv12Shared(r) then AlignedStride(r, p)
             else if p == 0 then Align(AlignedStride(r, 0), Max(1, 2 * StrideAlign(r, 0)))
             else LinearStride(r, 0) / 2;
    RequestRoundingGrows(a, b, q.u.stride);
    AlignMonotone(RoundToRequest(a, q.u.stride), RoundToRequest(b, q.u.stride), 64);
  }

  lemma ByteStrideGrows(q: Request, r: Request, p: nat)
    requires Grows(q, r) && Computable(q) && p < q.f.npln
    ensures Computable(r) && ByteStride(q, p) <= ByteStride(r, p)
  {
    hide Mul, Div, LinearStride, PlaneWidth, BlockSide;
    PlanesGrow(q, r, p);
    PlanesGrow(q, r, 0);
    if q.at.IsAfrc() {
      AfrcStrideGrows(q, r, p);
    } else if q.at.IsAfbc() {
      MulMono(PlaneWidth(q, p), PlaneWidth(r, p), q.f.bppAfbc.At(p), q.f.bppAfbc.At(p));
    } else if q.at.IsBlockLinear() {
      BlockLinearStrideGrows(q, r, p);
    } else {
      LinearStrideGrows(q, r, p);
    }
  }

  lemma AfrcStrideGrows(q: Request, r: Request, p: nat)
    requires Grows(q, r) && Computable(q) && q.at.IsAfrc() && p < q.f.npln
    requires PlaneWidth(q, p) <= PlaneWidth(r, p)
    ensures AfrcStride(q, p) <= AfrcStride(r, p)
  {
    hide Mul, Div, PlaneWidth;
    var a := q.at.afrc;
    MulFacts(a.tileH, a.clumpH.At(p));
    DivMono(PlaneWidth(q, p), PlaneWidth(r, p), a.clumpW.At(p));
    var s, t := Div(PlaneWidth(q, p), a.clumpW.At(p)), Div(PlaneWidth(r, p), a.clumpW.At(p));
    DivMono(s, t, a.tileW);
    MulMono(64 * Div(s, a.tileW), 64 * Div(t, a.tileW), AfrcUnit(q, p), AfrcUnit(q, p));
    DivMono(Mul(64 * Div(s, a.tileW), AfrcUnit(q, p)), Mul(64 * Div(t, a.tileW), AfrcUnit(q, p)),
            Mul(a.tileH, a.clumpH.At(p)));
  }

  lemma BlockLinearStrideGrows(q: Request, r: Request, p: nat)
    requires Grows(q, r) && Computable(q) && q.at.IsBlockLinear() && p < q.f.npln
    requires PlaneWidth(q, 0) <= PlaneWidth(r, 0)
    ensures BlockLinearStride(q, p) <= BlockLinearStride(r, p)
  {
    hide Mul, Div, PlaneWidth, BlockSide;
    var h, w := BlockSide(p, q.f.vsub), BlockSide(p, q.f.hsub);
    BlockSidePositive(p, q.f.vsub);
    var bytes := Mul(Mul(h, w), q.f.bpp.At(p)) / 8;
    MulMono(PlaneWidth(q, 0) / 16, PlaneWidth(r, 0) / 16, bytes, bytes);
    DivMono(Mul(PlaneWidth(q, 0) / 16, bytes), Mul(PlaneWidth(r, 0) / 16, bytes), h);
  }

  lemma SuperblocksGrow(q: Request, r: Request, p: nat)
    requires Grows(q, r) && Shape(q.f) && p < q.f.npln
    ensures SuperblockCount(q, p) <= SuperblockCount(r, p)
    ensures HeaderSize(q, p) <= HeaderSize(r, p)
  {
    hide Mul, Div, Align, PlaneWidth, PlaneHeight;
    PlanesGrow(q, r, p);
    MulMono(PlaneWidth(q, p), PlaneWidth(r, p), PlaneHeight(q, p), PlaneHeight(r, p));
    AlignMonotone(SuperblockCount(q, p) * 16, SuperblockCount(r, p) * 16, AfbcGrain(q.at.tiled));
  }

  lemma SingleBodyGrows(q: Request, r: Request, p: nat)
    requires Grows(q, r) && Shape(q.f) && p < q.f.npln
    ensures SingleBody(q, p) <= SingleBody(r, p)
    ensures Align(SingleBody(q, p), AfbcGrain(q.at.tiled)) <= Align(SingleBody(r, p), AfbcGrain(q.at.tiled))
  {
    hide Mul, Div, Align, SuperblockCount;
    SuperblocksGrow(q, r, p);
    var unit := SuperblockBytes(q, p);
    assert unit == SuperblockBytes(r, p);
    MulMono(SuperblockCount(q, p), SuperblockCount(r, p), unit, unit);
    AlignMonotone(Mul(SuperblockCount(q, p), unit), Mul(SuperblockCount(r, p), unit), AfbcGrain(q.at.tiled));
    AlignMonotone(SingleBody(q, p), SingleBody(r, p), AfbcGrain(q.at.tiled));
  }

  lemma ProductGrows(a: nat, a': nat, b: nat, b': nat, c: nat, c': nat)
    requires a <= a' && b <= b' && c <= c'
    ensures Mul(Mul(a, b), c) <= Mul(Mul(a', b'), c')
  {
    hide Mul;
    MulMono(a, a', b, b');
    MulMono(Mul(a, b), Mul(a', b'), c, c');
  }

  lemma {:induction false} EndGrows(q: Request, r: Request, p: nat)
    requires Grows(q, r) && Computable(q) && p < q.f.npln
    ensures Computable(r) && Start(q, p) <= Start(r, p) && End(q, p) <= End(r, p)
    decreases p
  {
    hide Mul, Div, Align, HeaderSize, SingleBody, LinearStride, BlockLinearStride, PlaneWidth, PlaneHeight, BlockSide;
    if p > 0 {
      EndGrows(q, r, p - 1);
    }
    if q.at.IsAfrc() {
      AlignMonotone(if p == 0 then 0 else End(q, p - 1), if p == 0 then 0 else End(r, p - 1), AfrcPlaneAlign(q, p));
    }
    SuperblocksGrow(q, r, p);
    PlanesGrow(q, r, p);
    PlanesGrow(q, r, 0);
    if q.at.IsAfbc() {
      SingleBodyGrows(q, r, p);
    } else if q.at.IsAfrc() {
      var cw, ch, unit := q.at.afrc.clumpW.At(p), q.at.afrc.clumpH.At(p), AfrcUnit(q, p);
      DivMono(PlaneWidth(q, p), PlaneWidth(r, p), cw);
      DivMono(PlaneHeight(q, p), PlaneHeight(r, p), ch);
      ProductGrows(Div(PlaneWidth(q, p), cw), Div(PlaneWidth(r, p), cw), Div(PlaneHeight(q, p), ch),
                   Div(PlaneHeight(r, p), ch), unit, unit);
    } else if q.at.IsBlockLinear() {
      BlockLinearStrideGrows(q, r, p);
      ProductGrows(BlockLinearStride(q, p), BlockLinearStride(r, p), BlockSide(p, q.f.vsub), BlockSide(p, q.f.vsub),
                   PlaneHeight(q, 0) / 16, PlaneHeight(r, 0) / 16);
    } else {
      LinearStrideGrows(q, r, p);
      MulMono(LinearStride(q, p), LinearStride(r, p), PlaneHeight(q, p), PlaneHeight(r, p));
    }
  }

  lemma RkNeedsGrow(f: FormatInfo, s: nat, t: nat, h: nat, k: nat)
    requires f.bpp.p0 > 0 && s <= t && h <= k
    ensures RkVideoNeeds(f, s, h) <= RkVideoNeeds(f, t, k)
  {
    hide Mul, Div;
    DivMono(s * 8, t * 8, f.bpp.p0);
    var a, b := Div(s * 8, f.bpp.p0), Div(t * 8, f.bpp.p0);
    MulMono(2 * a, 2 * b, h, k);
    MulMono(5 * a, 5 * b, h, k);
    MulMono(2 * s, 2 * t, h, k);
    MulMono(3 * s, 3 * t, h, k);
  }

  lemma LayerSizeGrows(q: Request, r: Request)
    requires Grows(q, r) && Computable(q) && (RkEnlarges(q.f, q.u) ==> q.f.bpp.p0 > 0)
    ensures Computable(r) && LayerSize(q) <= LayerSize(r)
  {
    hide Mul, Div, Align, ByteStride, PlaneHeight, End, RkVideoNeeds;
    EndGrows(q, r, q.f.npln - 1);
    if RkEnlarges(q.f, q.u) {
      ByteStrideGrows(q, r, 0);
      PlanesGrow(q, r, 0);
      RkNeedsGrow(q.f, ByteStride(q, 0), ByteStride(r, 0), PlaneHeight(q, 0), PlaneHeight(r, 0));
    }
  }

  lemma AdjustmentGrows(a: Adjustment, w: nat, w': nat, h: nat, h': nat)
    requires a.heightGrain > 0 && w <= w' && h <= h'
    ensures AdjustedWidth(a, w) <= AdjustedWidth(a, w')
    ensures AdjustedHeight(a, h) <= AdjustedHeight(a, h')
  {
    hide Mul, Div, Align;
    AlignMonotone(w, w', 16);
    AlignMonotone(h, h', a.heightGrain);
    var d, d' := if a.doubled then 2 * Align(h, a.heightGrain) else Align(h, a.heightGrain),
                 if a.doubled then 2 * Align(h', a.heightGrain) else Align(h', a.heightGrain);
    AlignMonotone(d, d', 16);
  }

  /** A larger picture is derived too, for the same format, type and usage. */
  lemma LargerIsDerived(fmt: InternalFormat, usage: bv64, w: nat, w': nat, h: nat, h': nat)
    requires w <= w' && h <= h' && (fmt.base == BLOB ==> h' == 1)
    requires DeriveOutcome(fmt, usage, w, h).Derived?
    ensures DeriveOutcome(fmt, usage, w', h').Derived?
    ensures Grows(DeriveOutcome(fmt, usage, w, h).request, DeriveOutcome(fmt, usage, w', h').request)
  {
    hide Mul, Div, Align, Info, AllocTypeOf, AdjustmentOf, AdjustedWidth, AdjustedHeight, LayoutUsageOf;
    RowShape(fmt.base);
    AdjustmentGrows(AdjustmentOf(fmt, usage), w, w', h, h');
  }

  /**
   * The growth theorem: for one selected format, usage and layer count, a request at least as wide and as high
   * is derived too, and its allocation is at least as large. BLOB stays derivable as long as its height is one.
   */
  lemma LargerPictureLargerBuffer(fmt: InternalFormat, usage: bv64, w: nat, w': nat, h: nat, h': nat, layers: nat)
    requires w <= w' && h <= h' && (fmt.base == BLOB ==> h' == 1)
    requires DeriveOutcome(fmt, usage, w, h).Derived?
    ensures DeriveOutcome(fmt, usage, w', h').Derived?
    ensures var q, r := DeriveOutcome(fmt, usage, w, h).request, DeriveOutcome(fmt, usage, w', h').request;
      && Computable(q) && Computable(r) && (RkEnlarges(q.f, q.u) ==> q.f.bpp.p0 > 0) && q.f == r.f && q.u == r.u
      && AllocationSize(q, layers) <= AllocationSize(r, layers)
  {
    hide Mul, Div, Align, Info, Computable, DeriveOutcome, LayerSize, LayerGrain, RkEnlarges, Sane;
    LargerIsDerived(fmt, usage, w, w', h, h');
    DerivedIsSane(fmt, usage, w, h);
    var q, r := DeriveOutcome(fmt, usage, w, h).request, DeriveOutcome(fmt, usage, w', h').request;
    LayerSizeGrows(q, r);
    AlignMonotone(LayerSize(q), LayerSize(r), LayerGrain(q.at));
    MulMono(LayerStep(q, layers), LayerStep(r, layers), layers, layers);
  }
}
