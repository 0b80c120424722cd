/**
 * The samples a lock hands out lie inside the allocation and do not overlap, for every format a lock handles and
 * every region it accepts.
 */
module SampleSafety {
  import opened Alignment
  import opened Euclid
  import opened Usages
  import opened Formats
  import opened InternalFormats
  import opened AllocTypes
  import opened Layout
  import opened PlaneOrder
  import opened LinearLayout
  import opened AfbcLayout
  import opened AfbcHeaders
  import opened Derive
  import opened Layers
  import opened Access

  // ----- the channel tables against the format table -----

  /** A channel that agrees with its format's row. */
  ghost predicate Agrees(f: FormatInfo, c: Channel) {
    && c.plane < f.npln && c.stridePlane < f.npln && f.npln <= 3
    && 0 < c.bytes && c.vSub == SubH(f, c.plane) && c.hSub > 0 && c.vSub > 0
    && c.offset + c.bytes <= c.step
    && ((c.hSub == SubW(f, c.plane) && 8 * c.step <= f.bpp.At(c.plane))
        || (c.plane == 0 && c.hSub == 2 && f.npln == 1 && f.alignW == 2 && 8 * c.step == 2 * f.bpp.p0))
    && (c.plane != c.stridePlane ==>
          c.plane > 0 && c.stridePlane > 0 && f.bpp.At(c.plane) == f.bpp.At(c.stridePlane))
  }

  function Least(a: nat, b: nat): nat { if a <= b then a else b }

  /** Two channels of one memory plane that never meet: apart within the smaller of their steps. */
  ghost predicate Apart(a: Channel, b: Channel) {
    var d := Least(a.step, b.step);
    && (a.step == d || a.step == 2 * d) && (b.step == d || b.step == 2 * d) && d > 0
    && a.vSub == b.vSub && a.stridePlane == b.stridePlane
    && Residue(a, d) + a.bytes <= d && Residue(b, d) + b.bytes <= d
    && (Residue(a, d) + a.bytes <= Residue(b, d) || Residue(b, d) + b.bytes <= Residue(a, d))
  }

  /** The offset within a step of d, for offsets below two steps. */
  function Residue(c: Channel, d: nat): nat {
    if c.offset < d then c.offset else c.offset - d
  }

  ghost predicate Consistent(f: FormatInfo, channels: seq<Channel>) {
    && (forall k :: 0 <= k < |channels| ==> Agrees(f, channels[k]))
    && (forall j, k :: 0 <= j < k < |channels| && channels[j].plane == channels[k].plane ==>
                         Apart(channels[j], channels[k]))
  }

  lemma OneLumaConsistent(f: FormatInfo, bytes: nat, bits: nat)
    requires f.npln == 1 && 0 < 8 * bytes <= f.bpp.p0
    ensures Consistent(f, [Luma(bytes, bits)])
  {
  }

  lemma ThreeConsistent(f: FormatInfo, a: Channel, b: Channel, c: Channel)
    requires Agrees(f, a) && Agrees(f, b) && Agrees(f, c)
    requires Apart(a, b) && Apart(a, c) && Apart(b, c)
    ensures Consistent(f, [a, b, c])
  {
    hide Agrees, Apart;
  }

  lemma SemiPlanarConsistent(f: FormatInfo, bytes: nat, bits: nat, cb: nat, cr: nat)
    requires f.npln == 2 && f.hsub == 2 && f.vsub > 0 && bytes > 0
    requires f.bpp.p0 == 8 * bytes && f.bpp.p1 == 16 * bytes
    requires (cb == 0 && cr == bytes) || (cr == 0 && cb == bytes)
    ensures Consistent(f, [Luma(bytes, bits), Interleaved(CompCb, cb, bytes, bits, f.vsub),
                           Interleaved(CompCr, cr, bytes, bits, f.vsub)])
  {
  }

  lemma PackedConsistent(f: FormatInfo, bytes: nat, bits: nat)
    requires f.npln == 1 && f.alignW == 2 && bytes > 0 && f.bpp.p0 == 16 * bytes
    ensures Consistent(f, [PackedLuma(bytes, bits), PackedChroma(CompCb, bytes, bytes, bits),
                           PackedChroma(CompCr, 3 * bytes, bytes, bits)])
  {
    ThreeConsistent(f, PackedLuma(bytes, bits), PackedChroma(CompCb, bytes, bytes, bits),
                    PackedChroma(CompCr, 3 * bytes, bytes, bits));
  }

  lemma PlanarConsistent(f: FormatInfo, cb: nat, cbStride: nat, cr: nat, crStride: nat)
    requires f.npln == 3 && f.hsub == 2 && f.vsub == 2 && f.bpp == Triple(8, 8, 8)
    requires (cb == 1 && cr == 2) || (cb == 2 && cr == 1)
    requires 1 <= cbStride <= 2 && 1 <= crStride <= 2
    ensures Consistent(f, [Luma(1, 8), OwnPlane(CompCb, cb, cbStride), OwnPlane(CompCr, cr, crStride)])
  {
  }

  lemma RgbConsistent(f: FormatInfo, bytes: nat, step: nat, red: nat, blue: nat)
    requires f.npln == 1 && bytes > 0 && f.bpp.p0 == 8 * step && step >= 3 * bytes
    requires (red == 0 && blue == 2 * bytes) || (blue == 0 && red == 2 * bytes)
    ensures Consistent(f, [Whole(CompR, red, bytes, step), Whole(CompG, bytes, bytes, step),
                           Whole(CompB, blue, bytes, step)])
  {
    ThreeConsistent(f, Whole(CompR, red, bytes, step), Whole(CompG, bytes, bytes, step),
                    Whole(CompB, blue, bytes, step));
  }

  lemma PairwiseConsistent(f: FormatInfo, a: Channel, b: Channel, c: Channel, d: Channel)
    requires Agrees(f, a) && Agrees(f, b) && Agrees(f, c) && Agrees(f, d)
    requires Apart(a, b) && Apart(a, c) && Apart(a, d) && Apart(b, c) && Apart(b, d) && Apart(c, d)
    ensures Consistent(f, [a, b, c, d])
  {
    hide Agrees, Apart;
  }

  lemma RgbaConsistent(f: FormatInfo, bytes: nat, red: nat, blue: nat)
    requires f.npln == 1 && bytes > 0 && f.bpp.p0 == 32 * bytes
    requires (red == 0 && blue == 2 * bytes) || (blue == 0 && red == 2 * bytes)
    ensures Consistent(f, [Whole(CompR, red, bytes, 4 * bytes), Whole(CompG, bytes, bytes, 4 * bytes),
                           Whole(CompB, blue, bytes, 4 * bytes), Whole(CompA, 3 * bytes, bytes, 4 * bytes)])
  {
    PairwiseConsistent(f, Whole(CompR, red, bytes, 4 * bytes), Whole(CompG, bytes, bytes, 4 * bytes),
                       Whole(CompB, blue, bytes, 4 * bytes), Whole(CompA, 3 * bytes, bytes, 4 * bytes));
  }

  lemma FlexTableIsConsistent(id: BaseFormat)
    requires FlexChannels(id).Some?
    ensures HasInfo(id) && Info(id).linear && Consistent(Info(id), FlexChannels(id).value)
  {
    hide Consistent;
    match id {
      case Y8 => OneLumaConsistent(Info(id), 1, 8);
      case Y16 => OneLumaConsistent(Info(id), 2, 16);
      case NV12 => SemiPlanarConsistent(Info(id), 1, 8, 0, 1);
      case NV21 => SemiPlanarConsistent(Info(id), 1, 8, 1, 0);
      case YV12 => PlanarConsistent(Info(id), 2, 2, 1, 1);
      case YU12 => PlanarConsistent(Info(id), 1, 2, 2, 1);
      case P010 => SemiPlanarConsistent(Info(id), 2, 10, 0, 2);
      case P210 => SemiPlanarConsistent(Info(id), 2, 10, 0, 2);
      case YUV422_8BIT => PackedConsistent(Info(id), 1, 8);
      case NV16 => SemiPlanarConsistent(Info(id), 1, 8, 0, 1);
      case Y210 => PackedConsistent(Info(id), 2, 10);
      case RGBA_16161616 => RgbaConsistent(Info(id), 2, 0, 4);
      case RGBA_8888 => RgbaConsistent(Info(id), 1, 0, 2);
      case RGBX_8888 => RgbConsistent(Info(id), 1, 4, 0, 2);
      case RGB_888 => RgbConsistent(Info(id), 1, 3, 0, 2);
      case BGRA_8888 => RgbaConsistent(Info(id), 1, 2, 0);
    }
  }

  lemma YcbcrTableIsConsistent(id: BaseFormat)
    requires YcbcrChannels(id).Some?
    ensures HasInfo(id) && Info(id).linear && Consistent(Info(id), YcbcrChannels(id).value)
  {
    hide Consistent;
    match id {
      case Y8 => OneLumaConsistent(Info(id), 1, 8);
      case Y16 => OneLumaConsistent(Info(id), 1, 8);
      case NV12 => SemiPlanarConsistent(Info(id), 1, 8, 0, 1);
      case NV21 => SemiPlanarConsistent(Info(id), 1, 8, 1, 0);
      case YV12 => PlanarConsistent(Info(id), 2, 1, 1, 1);
      case YU12 => PlanarConsistent(Info(id), 1, 1, 2, 1);
    }
  }

  // ----- samples -----

  /** Requests whose rows fit: no ten-bit packing, and no NV12 with two stride flags. */
  ghost predicate Addressable(q: Request) {
    LinearRequest(q) && q.f.id != NV15 && q.f.id != NV30 && !(q.f.id == NV12 && q.u.stride == Conflicting)
  }

  /** (sx, sy) is a sample site of the channel in the requested picture. */
  ghost predicate IsSite(q: Request, c: Channel, sx: nat, sy: nat)
    requires Agrees(q.f, c)
  {
    sx < CeilDiv(q.width, c.hSub) && sy < CeilDiv(q.height, c.vSub)
  }

  /** The first byte of a sample, from the pointer, increments and stride handed out for its channel. */
  function Address(q: Request, c: Channel, sx: nat, sy: nat): nat
    requires Computable(q) && Agrees(q.f, c)
  {
    Start(q, c.plane) + c.offset + Mul(sx, c.step) + Mul(sy, LinearStride(q, c.stridePlane))
  }

  lemma SameStride(q: Request, p: nat, r: nat)
    requires Computable(q) && q.at.IsLinear() && 0 < p < q.f.npln && 0 < r < q.f.npln
    requires q.f.bpp.At(p) == q.f.bpp.At(r)
    ensures LinearStride(q, p) == LinearStride(q, r)
  {
    hide Mul, Div, Align, Lcm, RoundToRequest;
    assert PlaneWidth(q, p) == PlaneWidth(q, r);
    assert AlignedStride(q, p) == AlignedStride(q, r) by { hide PlaneWidth; }
    hide PlaneWidth, AlignedStride;
  }

  lemma ScaledRow(sx: nat, sites: nat, step: nat, bits: nat, stride: nat)
    requires sx < sites && 8 * step <= bits && Mul(sites, bits) <= 8 * stride
    ensures Mul(sx, step) + step <= stride
  {
    hide Mul;
    MulMono(sx + 1, sites, bits, bits);
    MulFacts(sx, step);
    TimesEight(sx + 1, step);
    MulMono(sx + 1, sx + 1, 8 * step, bits);
  }

  lemma TimesEight(a: nat, b: nat)
    ensures Mul(a, 8 * b) == 8 * Mul(a, b) && Mul(2 * a, b) == 2 * Mul(a, b)
  {
  }

  /** A chroma sample of a packed format covers two pixels, and widths are even. */
  lemma PackedRow(sx: nat, width: nat, planeWidth: nat, step: nat, bits: nat, stride: nat)
    requires sx < CeilDiv(width, 2) && Align(width, 2) <= planeWidth
    requires 8 * step == 2 * bits && Mul(planeWidth, bits) <= 8 * stride
    ensures Mul(sx, step) + step <= stride
  {
    EvenHalves(width);
    hide Mul, Align, CeilDiv;
    MulMono(2 * (sx + 1), planeWidth, bits, bits);
    TimesEight(sx + 1, bits);
    Doubled(sx + 1, bits);
    TimesEight(sx + 1, step);
    MulFacts(sx, step);
  }

  lemma Doubled(a: nat, b: nat)
    ensures Mul(a, 2 * b) == 2 * Mul(a, b)
  {
  }

  lemma SampleInRow(q: Request, c: Channel, sx: nat)
    requires Addressable(q) && Agrees(q.f, c) && sx < CeilDiv(q.width, c.hSub)
    ensures Mul(sx, c.step) + c.step <= LinearStride(q, c.plane)
  {
    hide Mul, Div, Align, LinearStride, PlaneWidth, LinearRow, AfbcRow, AfrcRow, BlockLinearRow, Fits, CeilDiv;
    WholeBytesWhenPacked(q, c.plane);
    WholeBytesWhenPacked(q, 0);
    SomeWidth(q.width, c.hSub, sx);
    if c.hSub == SubW(q.f, c.plane) && 8 * c.step <= q.f.bpp.At(c.plane) {
      RowsFitExactlyWhen(q, c.plane);
      ScaledRow(sx, PictureW(q, c.plane), c.step, q.f.bpp.At(c.plane), LinearStride(q, c.plane));
    } else {
      OwnStrideFits(q, 0);
      PictureCovered(q, 0);
      PackedRow(sx, q.width, PlaneWidth(q, 0), c.step, q.f.bpp.p0, LinearStride(q, 0));
    }
  }

  lemma SomeWidth(width: nat, d: nat, sx: nat)
    requires d > 0 && sx < CeilDiv(width, d)
    ensures width > 0
  {
    hide Mul, Div;
    if width == 0 {
      MulFacts(0, d);
      CeilDivAtMost(0, 0, d);
    }
  }

  /** Every sample of the picture lies in its own memory plane, hence inside the allocation. */
  lemma SampleInside(q: Request, c: Channel, sx: nat, sy: nat)
    requires Addressable(q) && Agrees(q.f, c) && IsSite(q, c, sx, sy)
    ensures Computable(q)
    ensures Start(q, c.plane) <= Address(q, c, sx, sy)
    ensures Address(q, c, sx, sy) + c.bytes <= End(q, c.plane) <= TotalSize(q)
  {
    SaneIsComputable(q);
    hide Mul, Div, Align, LinearStride, PlaneWidth, PlaneHeight, WellFormed, Fits, CeilDiv, Start, End, TotalSize,
      AlignedStride;
    SampleInRow(q, c, sx);
    if c.plane != c.stridePlane {
      SameStride(q, c.plane, c.stridePlane);
    }
    PictureCovered(q, c.plane);
    SampleInPlane(q, c, sx, sy);
    EndWithinTotal(q, c.plane);
  }

  lemma SampleInPlane(q: Request, c: Channel, sx: nat, sy: nat)
    requires Computable(q) && q.at.IsLinear() && Agrees(q.f, c)
    requires Mul(sx, c.step) + c.step <= LinearStride(q, c.plane) == LinearStride(q, c.stridePlane)
    requires sy < PlaneHeight(q, c.plane)
    ensures Start(q, c.plane) <= Address(q, c, sx, sy)
    ensures Address(q, c, sx, sy) + c.bytes <= End(q, c.plane)
  {
    hide Mul, Div, LinearStride, PlaneHeight, Start, Shape;
    var stride := LinearStride(q, c.plane);
    MulMono(sy + 1, PlaneHeight(q, c.plane), stride, stride);
    MulFacts(sy, stride);
    MulFacts(stride, PlaneHeight(q, c.plane));
  }

  // ----- distinct samples -----

  /** A position within steps of d: k d + r. */
  lemma OffsetInSteps(sx: nat, offset: nat, step: nat, d: nat, r: nat) returns (k: nat)
    requires d > 0 && (step == d || step == 2 * d)
    requires (offset == r || offset == d + r)
    ensures offset + Mul(sx, step) == Mul(k, d) + r
    ensures offset == r && step == d ==> k == sx
  {
    k := (if step == d then sx else 2 * sx) + if offset == r then 0 else 1;
    TimesEight(sx, d);
    Doubled(sx, d);
    hide Mul;
    MulFacts(sx, d);
    MulFacts(2 * sx, d);
  }

  /** Ranges with disjoint residues modulo d never meet. */
  lemma ResiduesKeepApart(k: nat, r: nat, m: nat, l: nat, s: nat, n: nat, d: nat)
    requires d > 0 && r + m <= s && s + n <= d
    ensures Mul(k, d) + r + m <= Mul(l, d) + s || Mul(l, d) + s + n <= Mul(k, d) + r
  {
    hide Mul;
    if k <= l {
      MulMono(k, l, d, d);
    } else {
      MulStrict(l, k, d);
    }
  }

  /** Two byte ranges without a common byte. */
  predicate DisjointRanges(a: nat, m: nat, b: nat, n: nat) {
    a + m <= b || b + n <= a
  }

  lemma ApartInRow(a: Channel, b: Channel, sx: nat, tx: nat)
    requires Apart(a, b) && a.offset + a.bytes <= a.step && b.offset + b.bytes <= b.step
    ensures DisjointRanges(a.offset + Mul(sx, a.step), a.bytes, b.offset + Mul(tx, b.step), b.bytes)
  {
    hide Mul;
    var d := Least(a.step, b.step);
    var k := OffsetInSteps(sx, a.offset, a.step, d, Residue(a, d));
    var l := OffsetInSteps(tx, b.offset, b.step, d, Residue(b, d));
    if Residue(a, d) + a.bytes <= Residue(b, d) {
      ResiduesKeepApart(k, Residue(a, d), a.bytes, l, Residue(b, d), b.bytes, d);
    } else {
      ResiduesKeepApart(l, Residue(b, d), b.bytes, k, Residue(a, d), a.bytes, d);
    }
  }

  lemma SameChannelInRow(c: Channel, sx: nat, tx: nat)
    requires c.offset + c.bytes <= c.step && sx != tx
    ensures DisjointRanges(c.offset + Mul(sx, c.step), c.bytes, c.offset + Mul(tx, c.step), c.bytes)
  {
    hide Mul;
    if sx < tx {
      MulMono(sx + 1, tx, c.step, c.step);
      MulFacts(sx, c.step);
    } else {
      MulMono(tx + 1, sx, c.step, c.step);
      MulFacts(tx, c.step);
    }
  }

  /** Samples of different rows of one plane: each stays within its row's stride. */
  lemma DifferentRows(x: nat, m: nat, y: nat, n: nat, stride: nat, sy: nat, ty: nat)
    requires x + m <= stride && y + n <= stride && sy != ty
    ensures DisjointRanges(x + Mul(sy, stride), m, y + Mul(ty, stride), n)
  {
    hide Mul;
    if sy < ty {
      MulMono(sy + 1, ty, stride, stride);
      MulFacts(sy, stride);
    } else {
      MulMono(ty + 1, sy, stride, stride);
      MulFacts(ty, stride);
    }
  }

  /** Two distinct samples of consistent channels share no byte. */
  lemma DistinctSamplesAreDisjoint(q: Request, channels: seq<Channel>, j: nat, k: nat,
                                   sx: nat, sy: nat, tx: nat, ty: nat)
    requires Addressable(q) && Consistent(q.f, channels) && j <= k < |channels|
    requires IsSite(q, channels[j], sx, sy) && IsSite(q, channels[k], tx, ty)
    requires (j, sx, sy) != (k, tx, ty)
    ensures Computable(q)
    ensures DisjointRanges(Address(q, channels[j], sx, sy), channels[j].bytes,
                           Address(q, channels[k], tx, ty), channels[k].bytes)
  {
    var a, b := channels[j], channels[k];
    SaneIsComputable(q);
    hide Mul, Div, Address, Start, End, LinearStride, TotalSize, Addressable, IsSite, CeilDiv, Computable, Shape,
      Apart, Agrees;
    assert Agrees(q.f, a) && Agrees(q.f, b) && (j < k && a.plane == b.plane ==> Apart(a, b));
    hide Consistent;
    SampleInside(q, a, sx, sy);
    SampleInside(q, b, tx, ty);
    if a.plane != b.plane {
      DifferentPlanes(q, a, b);
    } else {
      RowsOfSites(q, a, b, sx, sy, tx, ty);
      if j < k {
        NotApartFromItself(q.f, a, b);
      }
      SamePlane(q, a, b, sx, sy, tx, ty);
    }
  }

  lemma NotApartFromItself(f: FormatInfo, a: Channel, b: Channel)
    requires Agrees(f, a) && Apart(a, b)
    ensures a != b && a.stridePlane == b.stridePlane
  {
  }

  lemma RowsOfSites(q: Request, a: Channel, b: Channel, sx: nat, sy: nat, tx: nat, ty: nat)
    requires Addressable(q) && Computable(q) && Agrees(q.f, a) && Agrees(q.f, b) && a.plane == b.plane
    requires IsSite(q, a, sx, sy) && IsSite(q, b, tx, ty)
    ensures LinearStride(q, a.plane) == LinearStride(q, a.stridePlane)
    ensures Mul(sx, a.step) + a.step <= LinearStride(q, a.plane)
    ensures Mul(tx, b.step) + b.step <= LinearStride(q, a.plane)
  {
    hide Mul, Div, LinearStride, CeilDiv, WellFormed, Fits, SubW, SubH;
    SampleInRow(q, a, sx);
    SampleInRow(q, b, tx);
    if a.plane != a.stridePlane {
      SameStride(q, a.plane, a.stridePlane);
    }
  }

  lemma DifferentPlanes(q: Request, a: Channel, b: Channel)
    requires Computable(q) && Agrees(q.f, a) && Agrees(q.f, b) && a.plane != b.plane
    ensures End(q, a.plane) <= Start(q, b.plane) || End(q, b.plane) <= Start(q, a.plane)
  {
    if a.plane < b.plane {
      PlanesInOrder(q, a.plane, b.plane);
    } else {
      PlanesInOrder(q, b.plane, a.plane);
    }
  }

  lemma SamePlane(q: Request, a: Channel, b: Channel, sx: nat, sy: nat, tx: nat, ty: nat)
    requires Computable(q) && Agrees(q.f, a) && Agrees(q.f, b) && a.plane == b.plane
    requires a.stridePlane == b.stridePlane
    requires LinearStride(q, a.plane) == LinearStride(q, a.stridePlane)
    requires Mul(sx, a.step) + a.step <= LinearStride(q, a.plane)
    requires Mul(tx, b.step) + b.step <= LinearStride(q, a.plane)
    requires if a == b then (sx, sy) != (tx, ty) else Apart(a, b)
    ensures DisjointRanges(Address(q, a, sx, sy), a.bytes, Address(q, b, tx, ty), b.bytes)
  {
    hide Mul, LinearStride, Start;
    var stride := LinearStride(q, a.plane);
    if sy != ty {
      DifferentRows(a.offset + Mul(sx, a.step), a.bytes, b.offset + Mul(tx, b.step), b.bytes, stride, sy, ty);
    } else if a == b {
      SameChannelInRow(a, sx, tx);
    } else {
      ApartInRow(a, b, sx, tx);
    }
  }

  /**
   * The two locks agree: for every format with three channels in both, they put every Y, Cb and Cr sample at the same
   * byte, although lock_flex takes YU12's chroma strides from the other plane.
   */
  lemma LocksAgree(q: Request, k: nat, sx: nat, sy: nat)
    requires Computable(q) && q.at.IsLinear() && HasInfo(q.f.id) && q.f == Info(q.f.id)
    requires q.f.id == NV12 || q.f.id == NV21 || q.f.id == YV12 || q.f.id == YU12
    requires k < 3
    ensures var flex, ycbcr := FlexChannels(q.f.id).value, YcbcrChannels(q.f.id).value;
      && |flex| == 3 && |ycbcr| == 3 && Agrees(q.f, flex[k]) && Agrees(q.f, ycbcr[k])
      && flex[k].component == ycbcr[k].component
      && Address(q, flex[k], sx, sy) == Address(q, ycbcr[k], sx, sy)
  {
    var flex, ycbcr := FlexChannels(q.f.id).value, YcbcrChannels(q.f.id).value;
    FlexTableIsConsistent(q.f.id);
    YcbcrTableIsConsistent(q.f.id);
    assert Agrees(q.f, flex[k]) && Agrees(q.f, ycbcr[k]);
    hide Agrees, Apart, Mul, LinearStride, Start;
    if q.f.id == YU12 || q.f.id == YV12 {
      assert q.f.npln == 3 && q.f.bpp == Triple(8, 8, 8);
      SameStride(q, 1, 2);
    }
  }

  // ----- from the request to the lock -----

  lemma ModifierFreeIsLinear(fmt: InternalFormat, usage: bv64, width: nat, height: nat)
    requires fmt.mods == 0 && DeriveOutcome(fmt, usage, width, height).Derived?
    ensures var q := DeriveOutcome(fmt, usage, width, height).request;
      && LinearRequest(q) && Derivable(q) && q.f.id == fmt.base && q.f == Info(fmt.base)
      && q.width == width && q.height >= height && q.u.stride == StrideRequestOf(usage)
  {
    DerivedIsSane(fmt, usage, width, height);
    hide Info, AfbcTypeOf, AfrcTypeOf, StrideRequestOf, WellFormed, Align, Mul, Div, AfrcFits, HeightGrain;
  }

  lemma QuotientIsSite(x: nat, size: nat, d: nat)
    requires d > 0 && x < size
    ensures Div(x, d) < CeilDiv(size, d)
  {
    hide Mul, Div;
    DivBounds(x, d);
    DivBounds(size + d - 1, d);
    if CeilDiv(size, d) <= Div(x, d) {
      MulMono(CeilDiv(size, d), Div(x, d), d, d);
    }
  }

  lemma CeilDivMono(a: nat, b: nat, d: nat)
    requires a <= b && d > 0
    ensures CeilDiv(a, d) <= CeilDiv(b, d)
  {
    DivMono(a + d - 1, b + d - 1, d);
  }

  /** The byte a client computes for pixel (x, y) from one flex plane. */
  function FlexByte(f: FlexPlane, x: nat, y: nat): nat
    requires f.hSubsampling > 0 && f.vSubsampling > 0
  {
    f.topLeft + Mul(Div(x, f.hSubsampling), f.hIncrement) + Mul(Div(y, f.vSubsampling), f.vIncrement)
  }

  /** Every sample of an accepted region, read through the flex planes, lies inside the allocation. */
  ghost predicate RegionSafe(planes: seq<PlaneInfo>, channels: seq<Channel>, size: nat, l: int, t: int, w: int, h: int)
    requires |planes| == 3
  {
    forall k: nat, x: nat, y: nat :: k < |channels| && l <= x < l + w && t <= y < t + h ==>
      var c := channels[k];
      && c.plane < 3 && c.stridePlane < 3 && c.hSub > 0 && c.vSub > 0
      && FlexByte(FlexPlaneOf(c, planes), x, y) + c.bytes <= size
  }

  lemma FlexByteIsAddress(q: Request, planes: seq<PlaneInfo>, c: Channel, x: nat, y: nat)
    requires Computable(q) && q.at.IsLinear() && Filled(q, planes) && Agrees(q.f, c)
    ensures FlexByte(FlexPlaneOf(c, planes), x, y) == Address(q, c, Div(x, c.hSub), Div(y, c.vSub))
  {
    assert planes[c.plane] == Plane(q, c.plane) && planes[c.stridePlane] == Plane(q, c.stridePlane);
    FirstPlaneStartsAtZero(q);
    hide Mul, Div, LinearStride, PlaneWidth, PlaneHeight, Start, Computable;
  }

  lemma PixelInside(q: Request, planes: seq<PlaneInfo>, c: Channel, width: nat, height: nat, x: nat, y: nat)
    requires Addressable(q) && Computable(q) && Filled(q, planes) && Agrees(q.f, c)
    requires width <= q.width && height <= q.height && x < width && y < height
    ensures FlexByte(FlexPlaneOf(c, planes), x, y) + c.bytes <= TotalSize(q)
  {
    hide Mul, Div, LinearStride, PlaneWidth, PlaneHeight, Start, CeilDiv, FlexByte, Filled, WellFormed, Fits;
    QuotientIsSite(x, width, c.hSub);
    QuotientIsSite(y, height, c.vSub);
    CeilDivMono(width, q.width, c.hSub);
    CeilDivMono(height, q.height, c.vSub);
    SampleInside(q, c, Div(x, c.hSub), Div(y, c.vSub));
    FlexByteIsAddress(q, planes, c, x, y);
  }

  /** With two stride flags NV12 gets zero strides, an empty buffer, and nothing to enlarge. */
  lemma ConflictingNv12IsEmpty(q: Request, layers: nat)
    requires LinearRequest(q) && Derivable(q) && q.f.id == NV12 && q.u.stride == Conflicting
    ensures AllocationSize(q, layers) == 0
  {
    hide Mul, Div, Align, LinearRow, AfbcRow, AfrcRow, BlockLinearRow, LinearStride, PlaneHeight, PlaneWidth;
    Nv12Stride(q, 0);
    Nv12Stride(q, 1);
    MulFacts(0, PlaneHeight(q, 0));
    MulFacts(0, PlaneHeight(q, 1));
    FirstPlaneStartsAtZero(q);
    DivOfZero(q.f.bpp.p0);
    MultiplesOfZero(LayerGrain(q.at));
    MulFacts(0, layers);
  }

  lemma DivOfZero(d: nat)
    requires d > 0
    ensures Div(0, d) == 0
  {
    MulFacts(0, d);
    DivOfProduct(0, d);
  }

  /** The channels either lock hands out for a format. */
  ghost predicate HandedOut(id: BaseFormat, channels: seq<Channel>) {
    FlexChannels(id) == Some(channels) || YcbcrChannels(id) == Some(channels)
  }

  lemma HandedOutAgrees(id: BaseFormat, channels: seq<Channel>)
    requires HandedOut(id, channels)
    ensures HasInfo(id) && Consistent(Info(id), channels) && id != NV15 && id != NV30
    ensures channels != [] && channels[0].plane == 0
  {
    hide Consistent, Info;
    if FlexChannels(id) == Some(channels) {
      FlexTableIsConsistent(id);
    } else {
      YcbcrTableIsConsistent(id);
    }
  }

  /**
   * The access theorem: for a buffer selected without modifiers, a lock of any accepted region stays inside the
   * allocation through every pointer it hands out, exactly unless the buffer is NV12 with two stride flags at once.
   */
  lemma AcceptedRegionsAreSafe(fmt: InternalFormat, usage: bv64, width: nat, height: nat, layers: nat,
                               planes: seq<PlaneInfo>, channels: seq<Channel>, l: int, t: int, w: int, h: int)
    requires fmt.mods == 0 && DeriveOutcome(fmt, usage, width, height).Derived? && layers > 0
    requires HandedOut(fmt.base, channels)
    requires IsInt(l) && IsInt(t) && IsInt(w) && IsInt(h) && IsInt(width) && IsInt(height)
    requires ValidateLock(l, t, w, h, width, height, true) == Locked && w > 0 && h > 0
    requires var q := DeriveOutcome(fmt, usage, width, height).request; Computable(q) && Filled(q, planes)
    ensures var q := DeriveOutcome(fmt, usage, width, height).request;
      && Derivable(q)
      && (RegionSafe(planes, channels, AllocationSize(q, layers), l, t, w, h) <==>
          !(fmt.base == NV12 && StrideRequestOf(usage) == Conflicting))
  {
    var q := DeriveOutcome(fmt, usage, width, height).request;
    hide Info, AllocTypeOf, DeriveOutcome, Filled, Computable, AllocationSize, WellFormed, Fits, Mul, Div,
      FlexByte, FlexPlaneOf, StrideRequestOf, ValidateLock, Agrees, HandedOut, Derivable;
    ModifierFreeIsLinear(fmt, usage, width, height);
    HandedOutAgrees(fmt.base, channels);
    RegionAcceptedExactlyWhenInside(l, t, w, h, width, height, true);
    if fmt.base == NV12 && StrideRequestOf(usage) == Conflicting {
      ConflictingNv12IsEmpty(q, layers);
      FirstSampleOutside(q, planes, channels, l, t, w, h);
    } else {
      EveryPixelInside(q, planes, channels, width, height, layers, l, t, w, h);
    }
  }

  lemma FirstSampleOutside(q: Request, planes: seq<PlaneInfo>, channels: seq<Channel>, l: int, t: int, w: int, h: int)
    requires |planes| == 3 && channels != [] && Consistent(q.f, channels) && 0 <= l && 0 <= t && w > 0 && h > 0
    ensures !RegionSafe(planes, channels, 0, l, t, w, h)
  {
    hide FlexByte;
    var x: nat, y: nat, k: nat := l, t, 0;
    assert Agrees(q.f, channels[k]);
    assert FlexByte(FlexPlaneOf(channels[k], planes), x, y) + channels[k].bytes > 0;
  }

  lemma EveryPixelInside(q: Request, planes: seq<PlaneInfo>, channels: seq<Channel>, width: nat, height: nat,
      layers: nat,
                         l: int, t: int, w: int, h: int)
    requires Addressable(q) && Derivable(q) && Filled(q, planes) && Consistent(q.f, channels) && layers > 0
    requires width <= q.width && height <= q.height
    requires 0 <= l && 0 <= t && l + w <= width && t + h <= height
    ensures RegionSafe(planes, channels, AllocationSize(q, layers), l, t, w, h)
  {
    hide FlexByte, Addressable, TotalSize, AllocationSize, Mul, Div, Derivable, Apart, Plane;
    DerivableIsComputable(q);
    LayerFitsInAllocation(q, layers);
    assert |planes| == 3;
    hide Computable, Filled;
    forall k: nat, x: nat, y: nat | k < |channels| && l <= x < l + w && t <= y < t + h
      ensures var c := channels[k];
        && c.plane < 3 && c.stridePlane < 3 && c.hSub > 0 && c.vSub > 0
        && FlexByte(FlexPlaneOf(c, planes), x, y) + c.bytes <= AllocationSize(q, layers)
    {
      assert Agrees(q.f, channels[k]);
      PixelInside(q, planes, channels[k], width, height, x, y);
    }
  }

  lemma DerivableIsComputable(q: Request)
    requires Derivable(q)
    ensures Computable(q) && (RkEnlarges(q.f, q.u) ==> q.f.bpp.p0 > 0)
  {
  }

  lemma LayerFitsInAllocation(q: Request, layers: nat)
    requires Derivable(q) && layers > 0
    ensures TotalSize(q) <= AllocationSize(q, layers)
  {
    hide Mul, Div, Align, LayerStep, TotalSize, LayerSize, AllocationSize;
    StepHoldsLayer(q, layers);
    AllocationIsSteps(q, layers);
    MulMono(1, layers, LayerStep(q, layers), LayerStep(q, layers));
    MulFacts(1, LayerStep(q, layers));
  }
}
