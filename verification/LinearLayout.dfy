/** The uncompressed layout: exactly when the rows of the requested picture fit their strides and planes. */
module LinearLayout {
  import opened Alignment
  import opened Euclid
  import opened Usages
  import opened Formats
  import opened AllocTypes
  import opened Layout

  ghost predicate LinearRequest(q: Request) {
    Sane(q) && q.at.IsLinear()
  }

  function SubW(f: FormatInfo, p: nat): nat { if p > 0 then f.hsub else 1 }
  function SubH(f: FormatInfo, p: nat): nat { if p > 0 then f.vsub else 1 }

  /** Sample sites of the requested picture in plane p. */
  function PictureW(q: Request, p: nat): nat
    requires Shape(q.f) && p < q.f.npln
  {
    CeilDiv(q.width, SubW(q.f, p))
  }

  function PictureH(q: Request, p: nat): nat
    requires Shape(q.f) && p < q.f.npln
  {
    CeilDiv(q.height, SubH(q.f, p))
  }

  /** Every row of the requested picture fits in its stride, and all the rows fit in the plane. */
  ghost predicate RowsFit(q: Request, p: nat)
    requires Computable(q) && q.at.IsLinear() && p < q.f.npln
  {
    && Mul(PictureW(q, p), q.f.bpp.At(p)) <= 8 * LinearStride(q, p)
    && PictureH(q, p) <= PlaneHeight(q, p)
  }

  /** The source asserts that an aligned row is a whole number of bytes. */
  ghost predicate WholeBytes(q: Request, p: nat)
    requires Shape(q.f) && p < q.f.npln
  {
    Mul(PlaneWidth(q, p), q.f.bpp.At(p)) % 8 == 0
  }

  lemma SitesCover(size: nat, align: nat, sub: nat, p: nat)
    requires align > 0 && (p > 0 ==> Divides(sub, align))
    ensures CeilDiv(size, if p > 0 then sub else 1) <= Sites(size, align, sub, p)
  {
    hide Mul, Div, Align;
    if p > 0 {
      SubsampleCovers(size, align, sub);
    } else {
      MulFacts(size, 1);
      CeilDivAtMost(size, size, 1);
    }
  }

  lemma PictureCovered(q: Request, p: nat)
    requires Shape(q.f) && p < q.f.npln
    ensures PictureW(q, p) <= Sites(q.width, q.f.alignW, q.f.hsub, p) <= PlaneWidth(q, p)
    ensures PictureH(q, p) <= Sites(q.height, q.f.alignH, q.f.vsub, p) <= PlaneHeight(q, p)
  {
    hide Mul, Div, Align, Divides, Sites, WidthUnit, HeightUnit, CeilDiv;
    SitesCover(q.width, q.f.alignW, q.f.hsub, p);
    SitesCover(q.height, q.f.alignH, q.f.vsub, p);
  }

  lemma AlignedStrideHoldsRaw(q: Request, p: nat)
    requires Shape(q.f) && p < q.f.npln
    ensures Mul(PlaneWidth(q, p), q.f.bpp.At(p)) / 8 <= AlignedStride(q, p)
  {
    hide Mul, Div, Align, Lcm, PlaneWidth;
    var raw := Mul(PlaneWidth(q, p), q.f.bpp.At(p)) / 8;
    var unit := StrideAlign(q, p);
    if unit != 0 {
      DivOfProduct(raw, q.f.tileSize);
      DivMono(Mul(raw, q.f.tileSize), Align(Mul(raw, q.f.tileSize), unit), q.f.tileSize);
    }
  }

  lemma RoundToRequestGrows(x: nat, r: StrideRequest)
    ensures x <= RoundToRequest(x, r)
  {
    hide Mul, Div;
  }

  /** Formats whose stride comes from their own plane width. */
  lemma OwnStrideFits(q: Request, p: nat)
    requires LinearRequest(q) && p < q.f.npln && WholeBytes(q, p)
    requires !(q.f.id == NV12 && q.u.stride != NoRequest) && !(p > 0 && Yv12Shared(q))
    ensures Mul(PictureW(q, p), q.f.bpp.At(p)) <= Mul(PlaneWidth(q, p), q.f.bpp.At(p)) <= 8 * LinearStride(q, p)
  {
    hide Mul, Div, Align, PlaneWidth, AlignedStride, PictureW, Lcm, RoundToRequest, LinearRow, AfbcRow, AfrcRow;
    PictureCovered(q, p);
    MulMono(PictureW(q, p), PlaneWidth(q, p), q.f.bpp.At(p), q.f.bpp.At(p));
    AlignedStrideHoldsRaw(q, p);
    var shared := if Yv12Shared(q) then Align(AlignedStride(q, 0), Max(1, 2 * StrideAlign(q, 0)))
                  else AlignedStride(q, p);
    RoundToRequestGrows(shared, q.u.stride);
  }

  /** YV12 for CPU and hardware: half the luma stride still covers the chroma row. */
  lemma HalfStrideFits(q: Request, p: nat)
    requires LinearRequest(q) && Yv12Shared(q) && 0 < p < 3 && WholeBytes(q, 0)
    ensures PictureW(q, p) <= LinearStride(q, 0) / 2 <= LinearStride(q, p)
  {
    hide Mul, Div, Align, Divides, PlaneWidth, AlignedStride, Lcm, RoundToRequest, LinearRow;
    PictureCovered(q, 0);
    MulFacts(PictureW(q, 0), 8);
    var luma := Align(q.width, 2);
    assert luma <= PlaneWidth(q, 0);
    AlignedStrideHoldsRaw(q, 0);
    Mul8(PlaneWidth(q, 0));
    var shared0 := Align(AlignedStride(q, 0), Max(1, 2 * StrideAlign(q, 0)));
    RoundToRequestGrows(shared0, q.u.stride);
    assert luma <= LinearStride(q, 0);
    EvenHalves(q.width);
    RoundToRequestGrows(LinearStride(q, 0) / 2, q.u.stride);
  }

  lemma Mul8(x: nat)
    ensures Mul(x, 8) == 8 * x && Mul(x, 16) == 16 * x
  {
  }

  lemma CeilDivOne(w: nat)
    ensures CeilDiv(w, 1) == w
  {
  }

  lemma EvenHalves(w: nat)
    ensures Align(w, 2) == 2 * ((w + 1) / 2) && CeilDiv(w, 2) == (w + 1) / 2
  {
  }

  /** NV12 with a single stride request: both planes use the requested pixel stride. */
  lemma Nv12Stride(q: Request, p: nat)
    requires LinearRequest(q) && q.f.id == NV12 && q.u.stride != NoRequest && p < 2
    ensures LinearStride(q, p) == if q.u.stride == Conflicting then 0 else RoundToRequest(q.width, q.u.stride)
  {
    hide Align, RoundToRequest, LinearRow, PlaneWidth, AlignedStride;
    var pixels := if q.u.stride == Conflicting then 0 else RoundToRequest(q.width, q.u.stride);
    Mul8(pixels);
  }

  lemma RequestIsEven(w: nat, r: StrideRequest)
    requires r != NoRequest && r != Conflicting
    ensures RoundToRequest(w, r) % 2 == 0
  {
    hide Mul, Div, Align, OddMultipleOf256;
    match r {
      case Align16 => AlignIsEven(w, 16);
      case Align64 => AlignIsEven(w, 64);
      case Align128 => AlignIsEven(w, 128);
      case OddTimes256 => OddMultipleIsEven(w);
    }
  }

  lemma AlignIsEven(w: nat, base: nat)
    requires base > 0 && base % 2 == 0
    ensures Align(w, base) % 2 == 0
  {
    hide Mul, Div, Align;
    AlignDivides(w, base);
    DividesTransitive(2, base, Align(w, base));
  }

  lemma OddMultipleIsEven(w: nat)
    ensures OddMultipleOf256(w) % 2 == 0
  {
  }

  lemma EvenCover(w: nat, pixels: nat)
    requires pixels % 2 == 0 && w <= pixels
    ensures 2 * ((w + 1) / 2) <= pixels
  {
  }

  lemma Nv12RowsFit(q: Request, p: nat)
    requires LinearRequest(q) && q.f.id == NV12 && q.u.stride != NoRequest && p < 2
    ensures Mul(PictureW(q, p), q.f.bpp.At(p)) <= 8 * LinearStride(q, p) <==>
            (q.u.stride != Conflicting || q.width == 0)
  {
    hide Align, Mul, Div, RoundToRequest, LinearStride, CeilDiv, Divides, LinearRow, AfbcRow, AfrcRow, BlockLinearRow;
    Nv12Stride(q, p);
    EvenHalves(q.width);
    MulFacts(q.width, 1);
    CeilDivOne(q.width);
    Mul8(PictureW(q, p));
    assert PictureW(q, p) == if p == 0 then q.width else (q.width + 1) / 2;
    hide PictureW, Shape, Fits;
    if q.u.stride != Conflicting {
      RoundToRequestGrows(q.width, q.u.stride);
      RequestIsEven(q.width, q.u.stride);
      EvenCover(q.width, RoundToRequest(q.width, q.u.stride));
    }
  }

  // ----- when the whole-bytes assertion holds -----

  lemma WholeBytesWhenPacked(q: Request, p: nat)
    requires LinearRequest(q) && p < q.f.npln && q.f.id != NV15 && q.f.id != NV30
    ensures WholeBytes(q, p)
  {
    hide Align, AfbcRow, AfrcRow, BlockLinearRow, PlaneWidth;
    var w := PlaneWidth(q, p);
    if BytePacked(q.f) {
      ByteMultiple(w, q.f.bpp.At(p));
    } else {
      WordWidth(q);
      WordMultiple(w, q.f.bpp.p0);
    }
  }

  lemma ByteMultiple(w: nat, bits: nat)
    requires bits % 8 == 0
    ensures Mul(w, bits) % 8 == 0
  {
    assert bits == 8 * (bits / 8);
    assert w * bits == 8 * (w * (bits / 8));
  }

  lemma WordMultiple(w: nat, bits: nat)
    requires w % 4 == 0 && bits % 2 == 0
    ensures Mul(w, bits) % 8 == 0
  {
    assert w == 4 * (w / 4) && bits == 2 * (bits / 2);
    assert w * bits == 8 * ((w / 4) * (bits / 2));
  }

  lemma WordWidth(q: Request)
    requires LinearRequest(q) && WordPacked(q.f)
    ensures PlaneWidth(q, 0) % 4 == 0
  {
    hide Align, LinearRow, AfbcRow, AfrcRow, BlockLinearRow, NamedRows, Fits;
    AlignDivides(q.width, 4);
    AlignDivides(Align(q.width, 4), WidthUnit(q, 0));
    AlignFixed(Align(q.width, 4), 1) by { assert Divides(1, Align(q.width, 4)); }
  }

  /** NV15 and NV30 planes of 10-bit or 20-bit pixels whose rows end inside a byte for some widths. */
  predicate TenBitRow(f: FormatInfo, p: nat) {
    (f.id == NV15 && p < 2) || (f.id == NV30 && p == 0)
  }

  lemma TenBitFacts(q: Request)
    requires LinearRequest(q) && (q.f.id == NV15 || q.f.id == NV30)
    ensures Shape(q.f) && TenBitPacked(q.f)
  {
    hide LinearRow, AfbcRow, AfrcRow, BlockLinearRow, Fits, Shape, TenBitPacked;
  }

  lemma TenBitWidth(q: Request, p: nat)
    requires Shape(q.f) && TenBitPacked(q.f) && p < q.f.npln && q.at.IsLinear()
    ensures PlaneWidth(q, p) == if p > 0 && q.f.hsub == 2 then (q.width + 1) / 2 else 2 * ((q.width + 1) / 2)
    ensures PictureW(q, p) == if p > 0 && q.f.hsub == 2 then (q.width + 1) / 2 else q.width
  {
    EvenHalves(q.width);
    CeilDivOne(q.width);
    hide Align, Mul, Div, CeilDiv, Divides;
    var sites := Sites(q.width, 2, q.f.hsub, p);
    assert WidthUnit(q, p) == 1;
    OneDivides(sites);
    AlignFixed(sites, 1);
    Halve((q.width + 1) / 2);
  }

  lemma OneDivides(x: nat)
    ensures Divides(1, x)
  {
  }

  lemma Halve(k: nat)
    ensures Div(2 * k, 1) == 2 * k && Div(2 * k, 2) == k
  {
  }

  /** The bits of a row of 20-bit pixel pairs. */
  lemma TenBitArithmetic(w: nat)
    ensures var bits := 20 * ((w + 1) / 2);
      && (w % 4 == 1 || w % 4 == 2 ==> bits == 8 * (5 * (w / 4) + 2) + 4)
      && (w % 4 == 0 ==> bits == 8 * (5 * (w / 4)))
      && (w % 4 == 3 ==> bits == 8 * (5 * (w / 4) + 5))
  {
    HalfUp(w / 4, w % 4);
    assert w == 4 * (w / 4) + w % 4;
  }

  lemma HalfUp(m: nat, r: nat)
    requires r < 4
    ensures (4 * m + r + 1) / 2 == 2 * m + if r == 0 then 0 else if r == 3 then 2 else 1
  {
    match r {
      case 0 => case 1 => case 2 => case 3 =>
    }
  }

  lemma TenBitWhole(w: nat)
    ensures var k := (w + 1) / 2;
      ((20 * k) % 8 == 0 <==> w % 4 == 0 || w % 4 == 3) && (20 * (2 * k)) % 8 == 0 && (10 * (2 * k)) == 20 * k
  {
    TenBitArithmetic(w);
    var k, m := (w + 1) / 2, w / 4;
    Rest(20 * (2 * k), 8, 5 * k, 0);
    if w % 4 == 0 {
      Rest(20 * k, 8, 5 * m, 0);
    } else if w % 4 == 3 {
      Rest(20 * k, 8, 5 * m + 5, 0);
    } else {
      Rest(20 * k, 8, 5 * m + 2, 4);
    }
  }

  lemma TenBitProducts(w: nat)
    ensures Mul(w, 10) == 10 * w && Mul(w, 20) == 20 * w && Mul(w, 0) == 0
  {
  }

  lemma TenBitPlane(q: Request, p: nat)
    requires LinearRequest(q) && p < q.f.npln && (q.f.id == NV15 || q.f.id == NV30)
    ensures WholeBytes(q, p) <==> (TenBitRow(q.f, p) ==> q.width % 4 == 0 || q.width % 4 == 3)
  {
    hide Mul, Div, PlaneWidth, PictureW, Sane;
    TenBitFacts(q);
    TenBitWidth(q, p);
    TenBitProducts(PlaneWidth(q, p));
    TenBitWhole(q.width);
  }

  /** The assertion on every plane fails exactly for NV15 and NV30 whose even width is not a multiple of four. */
  lemma WholeBytesExactlyWhen(q: Request)
    requires LinearRequest(q)
    ensures (forall p: nat :: p < q.f.npln ==> WholeBytes(q, p)) <==>
            (q.f.id == NV15 || q.f.id == NV30 ==> q.width % 4 == 0 || q.width % 4 == 3)
  {
    assert Shape(q.f);
    hide WholeBytes, Sane;
    if q.f.id == NV15 || q.f.id == NV30 {
      TenBitFacts(q);
      forall p: nat | p < q.f.npln
        ensures WholeBytes(q, p) <==> (TenBitRow(q.f, p) ==> q.width % 4 == 0 || q.width % 4 == 3)
      {
        TenBitPlane(q, p);
      }
      assert TenBitRow(q.f, 0);
    } else {
      forall p: nat | p < q.f.npln
        ensures WholeBytes(q, p)
      {
        WholeBytesWhenPacked(q, p);
      }
    }
  }

  // ----- the rounding of a truncated row -----

  /** Every rounding this request applies to a ten-bit stride leaves the given one as it is. */
  predicate OnGrid(q: Request, p: nat, stride: nat) {
    && (q.u.hw && !q.u.strideSpecified && q.u.stride == NoRequest ==> stride % 128 == 0)
    && (q.u.cpu && p == 1 ==> stride % 2 == 0)
    && RequestKeeps(stride, q.u.stride)
    && (q.f.id == NV30 ==> stride % 64 == 0)
  }

  predicate RequestKeeps(stride: nat, r: StrideRequest) {
    match r
    case Align16 => stride % 16 == 0
    case Align64 => stride % 64 == 0
    case Align128 => stride % 128 == 0
    case OddTimes256 => stride % 512 == 256
    case NoRequest => true
    case Conflicting => true
  }

  lemma AlignKeeps(x: nat, base: nat)
    requires base > 0
    ensures Align(x, base) == x <==> x % base == 0
  {
    hide Align;
    AlignDivides(x, base);
    if x % base == 0 {
      AlignFixed(x, base);
    }
  }

  lemma RoundToRequestKeeps(x: nat, r: StrideRequest)
    ensures RoundToRequest(x, r) == x <==> RequestKeeps(x, r)
  {
    hide Align;
    match r {
      case Align16 => AlignKeeps(x, 16);
      case Align64 => AlignKeeps(x, 64);
      case Align128 => AlignKeeps(x, 128);
      case OddTimes256 => OddMultipleKeeps(x);
      case NoRequest =>
      case Conflicting =>
    }
  }

  lemma OddMultipleKeeps(x: nat)
    ensures OddMultipleOf256(x) == x <==> x % 512 == 256
  {
  }

  lemma SmallLcms()
    ensures Lcm(128, 1) == 128 && Lcm(128, 2) == 128 && Lcm(1, 1) == 1 && Lcm(1, 2) == 2
    ensures forall x: nat :: Lcm(x, 0) == x && Lcm(0, x) == x
  {
    assert Gcd(1, 0) == 1 && Gcd(2, 0) == 2 && Gcd(2, 1) == Gcd(1, 0);
    assert Gcd(128, 1) == 1 && Gcd(128, 2) == 2 && Gcd(1, 1) == 1 && Gcd(1, 2) == 1;
  }

  /** The unit a ten-bit stride is rounded to. */
  lemma TenBitUnit(q: Request, p: nat)
    requires TenBitRow(q.f, p) && TenBitPacked(q.f)
    ensures StrideAlign(q, p) ==
      if q.u.hw && !q.u.strideSpecified && q.u.stride == NoRequest then 128
      else if q.u.cpu && p == 1 then 2
      else if q.u.cpu || q.u.hw then 1 else 0
  {
    TenBitProducts(1);
    MulFacts(1, q.f.bpp.At(p));
    SmallLcms();
    hide Lcm, Mul;
  }

  /** A ten-bit stride is never below the truncated row, and equal to it exactly on the grid. */
  lemma TenBitStride(q: Request, p: nat)
    requires LinearRequest(q) && TenBitRow(q.f, p) && p < q.f.npln
    ensures var raw := Mul(PlaneWidth(q, p), q.f.bpp.At(p)) / 8;
      raw <= LinearStride(q, p) && (LinearStride(q, p) == raw <==> OnGrid(q, p, raw))
  {
    hide Mul, Div, Align, RoundToRequest, PlaneWidth, StrideAlign, RequestKeeps, Sane;
    TenBitFacts(q);
    TenBitSteps(q, p);
    var raw := Mul(PlaneWidth(q, p), q.f.bpp.At(p)) / 8;
    var unit := StrideAlign(q, p);
    hide LinearStride, OnGrid, Divides;
    GridOfUnit(q, p, raw);
    RoundingsKeep(raw, unit, q.u.stride, q.f.id == NV30, LinearStride(q, p));
  }

  lemma GridOfUnit(q: Request, p: nat, stride: nat)
    requires TenBitRow(q.f, p) && TenBitPacked(q.f)
    ensures OnGrid(q, p, stride) <==>
      && (StrideAlign(q, p) > 0 ==> Divides(StrideAlign(q, p), stride))
      && RequestKeeps(stride, q.u.stride) && (q.f.id == NV30 ==> stride % 64 == 0)
  {
    hide RequestKeeps, StrideAlign, Divides, TenBitPacked;
    TenBitUnit(q, p);
    SmallDivisors(stride);
  }

  lemma SmallDivisors(x: nat)
    ensures Divides(1, x) && (Divides(2, x) <==> x % 2 == 0) && (Divides(128, x) <==> x % 128 == 0)
    ensures x % 128 == 0 ==> x % 2 == 0
  {
    if x % 128 == 0 {
      Rest(x, 2, 64 * (x / 128), 0);
    }
  }

  /** Three roundings in a row keep a value exactly when each of them does. */
  lemma RoundingsKeep(raw: nat, unit: nat, r: StrideRequest, last: bool, stride: nat)
    requires var requested := RoundToRequest(if unit > 0 then Align(raw, unit) else raw, r);
      stride == if last then Align(requested, 64) else requested
    ensures raw <= stride
    ensures stride == raw <==> (unit > 0 ==> Divides(unit, raw)) && RequestKeeps(raw, r) && (last ==> raw % 64 == 0)
  {
    hide Align, RoundToRequest, RequestKeeps;
    var aligned := if unit > 0 then Align(raw, unit) else raw;
    if unit > 0 {
      AlignKeeps(raw, unit);
    }
    RoundToRequestGrows(aligned, r);
    RoundToRequestKeeps(raw, r);
    AlignKeeps(raw, 64);
  }

  /** The roundings of a ten-bit stride, one after the other. */
  lemma TenBitSteps(q: Request, p: nat)
    requires Shape(q.f) && TenBitPacked(q.f) && p < q.f.npln && (q.f.id == NV15 || q.f.id == NV30)
    ensures var raw, unit := Mul(PlaneWidth(q, p), q.f.bpp.At(p)) / 8, StrideAlign(q, p);
      var requested := RoundToRequest(if unit > 0 then Align(raw, unit) else raw, q.u.stride);
      LinearStride(q, p) == if q.f.id == NV30 then Align(requested, 64) else requested
  {
    hide Mul, Div, Align, RoundToRequest, PlaneWidth, StrideAlign;
    var raw := Mul(PlaneWidth(q, p), q.f.bpp.At(p)) / 8;
    DivideOnce(raw);
    if StrideAlign(q, p) > 0 {
      DivideOnce(Align(raw, StrideAlign(q, p)));
    }
  }

  lemma DivideOnce(x: nat)
    ensures Mul(x, 1) == x && Div(x, 1) == x
  {
  }

  // ----- the row theorem -----

  /**
   * A ten-bit row that loses its last four bits: the even width is not a multiple of four, the row needs all of it
   * (luma of an odd width does not), and the truncated stride is already on the grid, so no rounding makes up for
   * the loss.
   */
  predicate CutShort(q: Request, p: nat) {
    && TenBitRow(q.f, p)
    && (q.width % 4 == 2 || (p == 1 && q.width % 4 == 1))
    && OnGrid(q, p, 5 * (q.width / 4) + 2)
  }

  lemma TenBitRowsFit(q: Request, p: nat)
    requires LinearRequest(q) && TenBitRow(q.f, p) && p < q.f.npln
    ensures Mul(PictureW(q, p), q.f.bpp.At(p)) <= 8 * LinearStride(q, p) <==> !CutShort(q, p)
  {
    hide Mul, LinearStride, OnGrid, Sane, PlaneWidth, PictureW;
    TenBitFacts(q);
    TenBitWidth(q, p);
    TenBitStride(q, p);
    TenBitProducts(PlaneWidth(q, p));
    TenBitProducts(PictureW(q, p));
    var raw := Mul(PlaneWidth(q, p), q.f.bpp.At(p)) / 8;
    TenBitDecision(q.width, p == 1, raw, LinearStride(q, p), OnGrid(q, p, raw));
  }

  /** Four bits are missing from a truncated stride; only luma of an odd width can spare them. */
  lemma TenBitDecision(w: nat, chroma: bool, raw: nat, stride: nat, kept: bool)
    requires raw == 20 * ((w + 1) / 2) / 8 && raw <= stride && (stride == raw <==> kept)
    ensures (if chroma then 20 * ((w + 1) / 2) else 10 * w) <= 8 * stride
       <==> !((w % 4 == 2 || (chroma && w % 4 == 1)) && kept)
    ensures w % 4 == 1 || w % 4 == 2 ==> raw == 5 * (w / 4) + 2
  {
    TenBitArithmetic(w);
    var m, bits := w / 4, 20 * ((w + 1) / 2);
    assert w == 4 * m + w % 4;
    if w % 4 == 1 || w % 4 == 2 {
      EighthOf(5 * m + 2, 4);
    } else {
      EighthOf(if w % 4 == 0 then 5 * m else 5 * m + 5, 0);
    }
  }

  lemma EighthOf(q: nat, r: nat)
    requires r < 8
    ensures (8 * q + r) / 8 == q
  {
  }

  /**
   * Every row of every plane fits, exactly unless the request is an NV12 one with two stride flags at once, which
   * gets a zero stride, or the plane's ten-bit rows are cut short.
   */
  lemma RowsFitExactlyWhen(q: Request, p: nat)
    requires LinearRequest(q) && p < q.f.npln
    ensures Computable(q)
    ensures RowsFit(q, p) <==> !(q.f.id == NV12 && q.u.stride == Conflicting && q.width > 0) && !CutShort(q, p)
  {
    SaneIsComputable(q);
    hide Mul, Div, Align, LinearStride, PlaneHeight, PlaneWidth, PictureW, PictureH, LinearRow, AfbcRow, AfrcRow,
      OnGrid, WholeBytes;
    PictureCovered(q, p);
    if q.f.id == NV12 && q.u.stride != NoRequest {
      Nv12RowsFit(q, p);
    } else if TenBitRow(q.f, p) {
      TenBitRowsFit(q, p);
    } else if p > 0 && Yv12Shared(q) {
      WholeBytesWhenPacked(q, 0);
      HalfStrideFits(q, p);
      Mul8(PictureW(q, p));
    } else {
      WholeRows(q, p);
      OwnStrideFits(q, p);
    }
  }

  lemma WholeRows(q: Request, p: nat)
    requires LinearRequest(q) && p < q.f.npln && !TenBitRow(q.f, p)
    ensures WholeBytes(q, p)
  {
    hide WholeBytes, Sane;
    if q.f.id == NV15 || q.f.id == NV30 {
      TenBitPlane(q, p);
    } else {
      WholeBytesWhenPacked(q, p);
    }
  }
}
