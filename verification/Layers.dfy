/** Layers of a multi-layer buffer, and the plane metadata read back from a fresh allocation. */
module Layers {
  import opened Alignment
  import opened Euclid
  import opened Formats
  import opened AllocTypes
  import opened Layout
  import opened PlaneOrder
  import opened LinearLayout
  import opened AfbcLayout
  import opened TiledLayout
  import opened AfbcHeaders
  import opened Derive

  /** A request the derivation went through with. */
  ghost predicate Derivable(q: Request) {
    Sane(q) && Computable(q) && (RkEnlarges(q.f, q.u) ==> q.f.bpp.p0 > 0)
  }

  lemma StepHoldsLayer(q: Request, layers: nat)
    requires Derivable(q)
    ensures TotalSize(q) <= LayerSize(q) <= LayerStep(q, layers)
  {
    hide Mul, Div, Align, RkVideoNeeds, End;
  }

  /**
   * The buffer is `layers` equal steps; every plane of every layer lies inside its own step, so no two layers
   * share a byte and none reaches past the end.
   */
  lemma LayersPartitionTheBuffer(q: Request, layers: nat, i: nat, p: nat)
    requires Derivable(q) && layers > 0 && i < layers && p < q.f.npln
    ensures var step := LayerStep(q, layers);
      && AllocationSize(q, layers) == Mul(layers, step)
      && Mul(i, step) + End(q, p) <= Mul(i + 1, step) <= AllocationSize(q, layers)
      && forall j: nat :: i < j ==> Mul(i, step) + TotalSize(q) <= Mul(j, step)
  {
    hide Mul, Div, Align, LayerStep, AllocationSize, TotalSize, End, Sane, Computable;
    var step := LayerStep(q, layers);
    StepHoldsLayer(q, layers);
    AllocationIsSteps(q, layers);
    EndWithinTotal(q, p);
    MulFacts(i, step);
    MulMono(i + 1, layers, step, step);
    forall j: nat | i < j
      ensures Mul(i, step) + TotalSize(q) <= Mul(j, step)
    {
      MulMono(i + 1, j, step, step);
    }
  }

  lemma AllocationIsSteps(q: Request, layers: nat)
    requires Derivable(q) && layers > 0
    ensures AllocationSize(q, layers) == Mul(layers, LayerStep(q, layers))
  {
    hide Mul, Align, LayerSize, Sane, Computable;
    MulFacts(layers, LayerStep(q, layers));
    MulFacts(1, LayerStep(q, layers));
  }

  lemma EndWithinTotal(q: Request, p: nat)
    requires Computable(q) && p < q.f.npln
    ensures End(q, p) <= TotalSize(q)
  {
    hide Mul, Div, Align, HeaderSize, BodySize, Computable, Start;
    if p < q.f.npln - 1 {
      PlanesInOrder(q, p, q.f.npln - 1);
    }
  }

  lemma SmallGrainDivides()
    ensures Divides(128, 1024) && Divides(128, 4096) && Divides(4096, 4096)
  {
  }

  /** Layers are no further apart than needed: 4096 bytes for tiled headers, 128 for other AFBC, else nothing. */
  lemma StepIsLeast(q: Request, layers: nat)
    requires Derivable(q)
    ensures var grain := if !q.at.IsAfbc() then 1 else if q.at.tiled then 4096 else 128;
      && LayerSize(q) <= LayerStep(q, layers) < LayerSize(q) + grain
      && (layers > 1 ==> Divides(grain, LayerStep(q, layers)))
  {
    hide Mul, Div, Align, Divides, LayerSize, Sane, Computable, RkEnlarges;
    AlignDivides(LayerSize(q), LayerGrain(q.at));
  }

  /** In every layer every AFBC header starts on 128 bytes, and on 4096 with tiled headers. */
  lemma LayerHeadersAreAligned(q: Request, layers: nat, i: nat, p: nat)
    requires AfbcAllocation(q) && Derivable(q) && i < layers && p < q.f.npln
    ensures Divides(if q.at.tiled then 4096 else 128, Mul(i, LayerStep(q, layers)) + Start(q, p))
  {
    hide Start, LayerStep, AfbcGrain, Divides, Mul, AfbcAllocation, Sane, Shape, RkEnlarges;
    HeadersAndBodiesAreAligned(q, p);
    GrainDividesStep(q, layers);
    HeaderOfLayer(q.at.tiled, Start(q, p), LayerStep(q, layers), layers, i);
  }

  lemma HeaderOfLayer(tiled: bool, start: nat, step: nat, layers: nat, i: nat)
    requires i < layers && Divides(if tiled then 4096 else 1024, start)
    requires layers > 1 ==> Divides(if tiled then 4096 else 128, step)
    ensures Divides(if tiled then 4096 else 128, Mul(i, step) + start)
  {
    hide Mul, Div;
    var grain: nat := if tiled then 4096 else 128;
    SmallGrainDivides();
    hide Divides;
    DividesTransitive(grain, if tiled then 4096 else 1024, start);
    if layers > 1 {
      DividesProduct(grain, step, i);
    } else {
      SelfAndZero(grain);
      MulFacts(0, step);
    }
    DividesSum(grain, Mul(i, step), start);
  }

  lemma GrainDividesStep(q: Request, layers: nat)
    requires AfbcAllocation(q) && Derivable(q)
    ensures layers > 1 ==> Divides(if q.at.tiled then 4096 else 128, LayerStep(q, layers))
    ensures AfbcGrain(q.at.tiled) == if q.at.tiled then 4096 else 1024
  {
    hide Mul, Div, Align, Divides, LayerSize, Sane, Computable;
    AlignDivides(LayerSize(q), LayerGrain(q.at));
  }

  // ----- number of planes -----

  /** is_multi_plane: the second plane has a width. */
  predicate IsMultiPlane(planes: seq<PlaneInfo>)
    requires |planes| == 3
  {
    planes[1].allocWidth != 0
  }

  function NumPlanes(planes: seq<PlaneInfo>): nat
    requires |planes| == 3
  {
    if IsMultiPlane(planes) then (if planes[2].offset == 0 then 2 else 3) else 1
  }

  lemma CeilDivPositive(x: nat, d: nat)
    requires x > 0 && d > 0
    ensures CeilDiv(x, d) > 0
  {
    hide Mul, Div;
    MulFacts(1, d);
    DivOfProduct(1, d);
    DivMono(Mul(1, d), x + d - 1, d);
  }

  lemma PlanesHaveArea(q: Request, p: nat)
    requires Shape(q.f) && p < q.f.npln && q.width > 0 && q.height > 0
    ensures PlaneWidth(q, p) > 0 && PlaneHeight(q, p) > 0
  {
    hide Mul, Div, Align, PlaneWidth, PlaneHeight, CeilDiv;
    PictureCovered(q, p);
    CeilDivPositive(q.width, SubW(q.f, p));
    CeilDivPositive(q.height, SubH(q.f, p));
  }

  lemma LinearPlaneHasBytes(q: Request)
    requires LinearRequest(q) && q.f.npln == 3 && PlaneWidth(q, 0) > 0
    ensures LinearStride(q, 0) > 0
  {
    hide Mul, Div, Align, PlaneWidth, StrideAlign, RoundToRequest, AlignedStride, AfbcRow, AfrcRow, BlockLinearRow;
    MulMono(1, PlaneWidth(q, 0), 8, q.f.bpp.p0);
    MulFacts(1, 8);
    AlignedStrideHoldsRaw(q, 0);
    var shared := if Yv12Shared(q) then Align(AlignedStride(q, 0), Max(1, 2 * StrideAlign(q,
        0))) else AlignedStride(q, 0);
    RoundToRequestGrows(shared, q.u.stride);
  }

  lemma AfbcPlaneHasBytes(q: Request)
    requires AfbcRequest(q) && PlaneWidth(q, 0) > 0 && PlaneHeight(q, 0) > 0
    ensures HeaderSize(q, 0) > 0
  {
    SuperblockCountIsExact(q, 0);
    HeaderIsAligned(q, 0);
    hide PlaneWidth, PlaneHeight, HeaderSize, SuperblockCount, SbWidth, SbHeight;
    MulFacts(PlaneWidth(q, 0), PlaneHeight(q, 0));
  }

  lemma AfrcPlaneHasBytes(q: Request)
    requires AfrcRequest(q) && PlaneWidth(q, 0) > 0 && PlaneHeight(q, 0) > 0
    ensures Computable(q) && BodySize(q, 0) > 0
  {
    SaneIsComputable(q);
    AfrcPlaneExtents(q, 0);
    var across, down := AfrcTiles(q, 0);
    var a := q.at.afrc;
    assert UnitFits(a.lumaUnit, a.lumaAlign);
    var unit := AfrcUnit(q, 0);
    assert BodySize(q, 0) == Mul(Mul(Div(PlaneWidth(q, 0), a.clumpW.At(0)), Div(PlaneHeight(q, 0),
        a.clumpH.At(0))), unit);
    assert unit > 0;
    hide BodySize, PlaneWidth, PlaneHeight, Mul, Div, AfrcUnit, Divides, Align, AfrcRequest, Computable;
    AfrcArithmetic(across, down, a.tileW, a.tileH, a.clumpW.At(0), a.clumpH.At(0), unit);
    AfrcBodyPositive(across, down, a.tileW, a.tileH, a.clumpW.At(0), a.clumpH.At(0), unit);
  }

  lemma AfrcBodyPositive(across: nat, down: nat, tileW: nat, tileH: nat, clumpW: nat, clumpH: nat, unit: nat)
    requires tileW > 0 && tileH > 0 && unit > 0
    requires Mul(across, Mul(tileW, clumpW)) > 0 && Mul(down, Mul(tileH, clumpH)) > 0
    ensures Mul(Mul(Mul(across, tileW), Mul(down, tileH)), unit) > 0
  {
    hide Mul, Div;
    MulFacts(0, Mul(tileW, clumpW));
    MulFacts(0, Mul(tileH, clumpH));
    MulFacts(across, tileW);
    MulFacts(down, tileH);
    MulFacts(Mul(across, tileW), Mul(down, tileH));
    MulFacts(Mul(Mul(across, tileW), Mul(down, tileH)), unit);
  }

  /** Requests whose planes are aligned for their own layout family. */
  ghost predicate FamilyAligned(q: Request) {
    q.at.IsLinear() || !q.u.cpu
  }

  lemma ThirdPlaneStartsLater(q: Request)
    requires Derivable(q) && FamilyAligned(q) && q.width > 0 && q.height > 0 && q.f.npln == 3
    ensures 0 < Start(q, 1) <= Start(q, 2)
  {
    PlanesHaveArea(q, 0);
    assert !q.at.IsBlockLinear();
    assert HeaderSize(q, 0) + BodySize(q, 0) > 0 by {
      if q.at.IsLinear() {
        LinearPlaneHasBytes(q);
        hide PlaneWidth, PlaneHeight, LinearStride, Mul;
        MulFacts(LinearStride(q, 0), PlaneHeight(q, 0));
      } else if q.at.IsAfbc() {
        AfbcPlaneHasBytes(q);
      } else {
        AfrcPlaneHasBytes(q);
      }
    }
    PlanesInOrder(q, 0, 1);
    PlanesInOrder(q, 1, 2);
    hide PlaneWidth, PlaneHeight, BodySize, HeaderSize, Mul, Align, Sane;
  }

  /**
   * get_num_planes only looks at the second plane's width and the third plane's offset. On a fresh allocation of a
   * non-empty picture it recovers the number of planes, exactly unless there are three and the first two are empty;
   * that takes a compressed layout with CPU usage.
   */
  lemma NumPlanesRecovered(q: Request, planes: seq<PlaneInfo>)
    requires Derivable(q) && q.width > 0 && q.height > 0 && Filled(q, planes)
    ensures NumPlanes(planes) == q.f.npln <==> (q.f.npln == 3 ==> End(q, 1) > 0)
    ensures FamilyAligned(q) ==> NumPlanes(planes) == q.f.npln
  {
    assert 1 <= q.f.npln <= 3;
    if q.f.npln > 1 {
      PlanesHaveArea(q, 1);
    }
    if q.f.npln == 3 {
      ThirdPlaneStart(q);
      if FamilyAligned(q) {
        ThirdPlaneStartsLater(q);
      }
    }
    hide PlaneWidth, PlaneHeight, ByteStride, Start, End, Sane, Computable, RkEnlarges, FamilyAligned;
  }

  /** The third plane starts at zero only where nothing lies before it. */
  lemma ThirdPlaneStart(q: Request)
    requires Computable(q) && q.f.npln == 3
    ensures Start(q, 2) > 0 <==> End(q, 1) > 0
  {
    hide Mul, Div, HeaderSize, BodySize, Align, Start;
    assert Start(q, 2) == if q.at.IsAfrc() then Align(End(q, 1), AfrcPlaneAlign(q, 2)) else End(q, 1) by {
      StartIs(q, 2);
    }
    if q.at.IsAfrc() && End(q, 1) == 0 {
      MultiplesOfZero(AfrcPlaneAlign(q, 2));
    }
  }

  lemma StartIs(q: Request, p: nat)
    requires Computable(q) && 0 < p < q.f.npln
    ensures Start(q, p) == if q.at.IsAfrc() then Align(End(q, p - 1), AfrcPlaneAlign(q, p)) else End(q, p - 1)
  {
    hide Mul, Div, HeaderSize, BodySize, Align, End;
  }

  // ----- reported plane sizes -----

  /** The size get_plane_layouts reports for plane i. */
  function ReportedSize(planes: seq<PlaneInfo>, layerSize: int, i: nat): int
    requires |planes| == 3 && i < NumPlanes(planes)
  {
    if i < NumPlanes(planes) - 1 then planes[i + 1].offset else layerSize - planes[i].offset
  }

  function Sum(s: seq<int>): int {
    if s == [] then 0 else s[0] + Sum(s[1..])
  }

  method GetPlaneSizes(planes: seq<PlaneInfo>, size: nat, layerCount: nat) returns (sizes: seq<int>)
    requires |planes| == 3 && layerCount > 0
    ensures |sizes| == NumPlanes(planes)
    ensures forall i :: 0 <= i < |sizes| ==> sizes[i] == ReportedSize(planes, Div(size, layerCount), i)
  {
    hide Div;
    var numPlanes := NumPlanes(planes);
    sizes := [];
    for i := 0 to numPlanes
      invariant |sizes| == i
      invariant forall k :: 0 <= k < i ==> sizes[k] == ReportedSize(planes, Div(size, layerCount), k)
    {
      var planeSize;
      if i < numPlanes - 1 {
        planeSize := planes[i + 1].offset;
      } else {
        var layerSize := Div(size, layerCount);
        planeSize := layerSize - planes[i].offset;
      }
      sizes := sizes + [planeSize];
    }
  }

  lemma LayerSizeRecovered(q: Request, layers: nat)
    requires Derivable(q) && layers > 0
    ensures Div(AllocationSize(q, layers), layers) == LayerStep(q, layers)
  {
    hide Mul, Div, LayerSize;
    DivOfProduct(LayerStep(q, layers), layers);
    MulFacts(1, LayerStep(q, layers));
    if layers == 1 {
      DivOfProduct(LayerSize(q), 1);
      MulFacts(1, LayerSize(q));
    }
  }

  /**
   * The reported sizes of a fresh allocation: each plane's bytes lie inside what is reported for it, and the sizes
   * add up to the layer exactly for one- and two-plane formats. With three planes the middle plane is reported as
   * the offset of the third, so the sum is too large by the offset of the second.
   */
  lemma ReportedSizesOfFreshLayout(q: Request, planes: seq<PlaneInfo>, layers: nat, sizes: seq<int>)
    requires Derivable(q) && FamilyAligned(q) && q.width > 0 && q.height > 0 && layers > 0 && Filled(q, planes)
    requires |sizes| == NumPlanes(planes)
    requires forall i :: 0 <= i < |sizes| ==>
      sizes[i] == ReportedSize(planes, Div(AllocationSize(q, layers), layers), i)
    ensures |sizes| == q.f.npln
    ensures forall p: nat :: p < q.f.npln ==> End(q, p) <= planes[p].offset + sizes[p]
    ensures Sum(sizes) == LayerStep(q, layers) + if q.f.npln == 3 then Start(q, 1) else 0
    ensures Sum(sizes) == LayerStep(q, layers) <==> q.f.npln <= 2
  {
    hide PlaneWidth, PlaneHeight, ByteStride, Start, End, Computable, RkEnlarges, Mul, Div, AllocationSize,
      LayerStep, LayerSize, NamedRows, LinearRow, AfbcRow, AfrcRow, BlockLinearRow, Fits;
    NumPlanesRecovered(q, planes);
    LayerSizeRecovered(q, layers);
    StepHoldsLayer(q, layers);
    FirstPlaneStartsAtZero(q);
    if q.f.npln == 3 {
      ThirdPlaneStartsLater(q);
      PlanesInOrder(q, 1, 2);
    }
    if q.f.npln >= 2 {
      PlanesInOrder(q, 0, 1);
    }
    SumOfThree(sizes);
  }

  lemma SumOfThree(s: seq<int>)
    requires 1 <= |s| <= 3
    ensures Sum(s) == s[0] + (if |s| > 1 then s[1] else 0) + (if |s| > 2 then s[2] else 0)
  {
    if |s| > 1 {
      assert s[1..][1..] == s[2..];
    }
    if |s| > 2 {
      assert s[2..][1..] == [];
    }
  }
}
