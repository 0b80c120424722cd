/** The modifier word read as a set of flags, and setters that change exactly one of them. */
module ModifierFlags {
  import opened Formats
  import opened InternalFormats

  datatype Flag =
    | BasicAfbc | BasicAfrc | BasicBlockLinear | SplitBlock | WideBlock | TiledHeaders | ExtraWideBlock | DoubleBody
    | ContentHints | YuvTransform | Sparse | Usm

  const NAMED: bv32 := 0x0fff_0000

  /** The getters of internal_format_t, one per flag. */
  predicate Is(f: InternalFormat, g: Flag) {
    match g
    case BasicAfbc => f.Get(AFBC_BASIC)
    case BasicAfrc => f.Get(AFRC_BASIC)
    case BasicBlockLinear => f.Get(BLOCK_LINEAR_BASIC)
    case SplitBlock => f.Get(AFBC_SPLIT)
    case WideBlock => f.Get(AFBC_WIDE)
    case TiledHeaders => f.Get(AFBC_TILED)
    case ExtraWideBlock => f.Get(AFBC_EXTRA_WIDE)
    case DoubleBody => f.Get(AFBC_DOUBLE_BODY)
    case ContentHints => f.Get(AFBC_BCH)
    case YuvTransform => f.Get(AFBC_YUV_TRANSFORM)
    case Sparse => f.Get(AFBC_SPARSE)
    case Usm => f.Get(AFBC_USM)
  }

  function FlagsOf(f: InternalFormat): set<Flag> {
    set g: Flag | Is(f, g)
  }

  /** No bit is set that no flag names. */
  predicate NothingElse(f: InternalFormat) {
    f.mods & !NAMED == 0
  }

  /** The setters, one per flag. */
  function Put(f: InternalFormat, g: Flag, v: bool): InternalFormat {
    match g
    case BasicAfbc => f.Set(AFBC_BASIC, v)
    case BasicAfrc => f.Set(AFRC_BASIC, v)
    case BasicBlockLinear => f.Set(BLOCK_LINEAR_BASIC, v)
    case SplitBlock => f.Set(AFBC_SPLIT, v)
    case WideBlock => f.Set(AFBC_WIDE, v)
    case TiledHeaders => f.Set(AFBC_TILED, v)
    case ExtraWideBlock => f.Set(AFBC_EXTRA_WIDE, v)
    case DoubleBody => f.Set(AFBC_DOUBLE_BODY, v)
    case ContentHints => f.Set(AFBC_BCH, v)
    case YuvTransform => f.Set(AFBC_YUV_TRANSFORM, v)
    case Sparse => f.Set(AFBC_SPARSE, v)
    case Usm => f.Set(AFBC_USM, v)
  }

  /** A setter changes its own flag and nothing else. */
  lemma PutIsLocal(f: InternalFormat, g: Flag, h: Flag, v: bool)
    ensures Is(Put(f, g, v), h) == if h == g then v else Is(f, h)
  {
    match g {
      case BasicAfbc => case BasicAfrc => case BasicBlockLinear => case SplitBlock => case WideBlock =>
      case TiledHeaders => case ExtraWideBlock => case DoubleBody => case ContentHints => case YuvTransform =>
      case Sparse => case Usm =>
    }
    match h {
      case BasicAfbc => case BasicAfrc => case BasicBlockLinear => case SplitBlock => case WideBlock =>
      case TiledHeaders => case ExtraWideBlock => case DoubleBody => case ContentHints => case YuvTransform =>
      case Sparse => case Usm =>
    }
  }

  lemma StaysNamed(m: bv32, bit: bv32, v: bool)
    requires m & !NAMED == 0 && bit & !NAMED == 0
    ensures (if v then m | bit else m & !bit) & !NAMED == 0
  {
  }

  lemma SetAddsNothingElse(f: InternalFormat, bit: bv32, v: bool)
    requires bit & !NAMED == 0
    ensures f.Set(bit, v).base == f.base
    ensures NothingElse(f) ==> NothingElse(f.Set(bit, v))
  {
    if NothingElse(f) {
      StaysNamed(f.mods, bit, v);
    }
  }

  lemma PutAddsNothingElse(f: InternalFormat, g: Flag, v: bool)
    ensures Put(f, g, v).base == f.base
    ensures NothingElse(f) ==> NothingElse(Put(f, g, v))
  {
    hide NothingElse, InternalFormat.Set;
    match g {
      case BasicAfbc => SetAddsNothingElse(f, AFBC_BASIC, v);
      case BasicAfrc => SetAddsNothingElse(f, AFRC_BASIC, v);
      case BasicBlockLinear => SetAddsNothingElse(f, BLOCK_LINEAR_BASIC, v);
      case SplitBlock => SetAddsNothingElse(f, AFBC_SPLIT, v);
      case WideBlock => SetAddsNothingElse(f, AFBC_WIDE, v);
      case TiledHeaders => SetAddsNothingElse(f, AFBC_TILED, v);
      case ExtraWideBlock => SetAddsNothingElse(f, AFBC_EXTRA_WIDE, v);
      case DoubleBody => SetAddsNothingElse(f, AFBC_DOUBLE_BODY, v);
      case ContentHints => SetAddsNothingElse(f, AFBC_BCH, v);
      case YuvTransform => SetAddsNothingElse(f, AFBC_YUV_TRANSFORM, v);
      case Sparse => SetAddsNothingElse(f, AFBC_SPARSE, v);
      case Usm => SetAddsNothingElse(f, AFBC_USM, v);
    }
  }

  lemma FlagsAreFaithful(f: InternalFormat, g: InternalFormat)
    requires f.base == g.base && NothingElse(f) && NothingElse(g) && FlagsOf(f) == FlagsOf(g)
    ensures f == g
  {
    forall h: Flag
      ensures Is(f, h) == Is(g, h)
    {
      assert h in FlagsOf(f) <==> h in FlagsOf(g);
    }
    assert Is(f, BasicAfbc) == Is(g, BasicAfbc);
    assert Is(f, BasicAfrc) == Is(g, BasicAfrc);
    assert Is(f, BasicBlockLinear) == Is(g, BasicBlockLinear);
    assert Is(f, SplitBlock) == Is(g, SplitBlock);
    assert Is(f, WideBlock) == Is(g, WideBlock);
    assert Is(f, TiledHeaders) == Is(g, TiledHeaders);
    assert Is(f, ExtraWideBlock) == Is(g, ExtraWideBlock);
    assert Is(f, DoubleBody) == Is(g, DoubleBody);
    assert Is(f, ContentHints) == Is(g, ContentHints);
    assert Is(f, YuvTransform) == Is(g, YuvTransform);
    assert Is(f, Sparse) == Is(g, Sparse);
    assert Is(f, Usm) == Is(g, Usm);
  }

  function SetFlag(f: InternalFormat, g: Flag, v: bool): (r: InternalFormat)
    ensures r.base == f.base && (NothingElse(f) ==> NothingElse(r))
    ensures forall h: Flag :: h in FlagsOf(r) <==> if h == g then v else h in FlagsOf(f)
  {
    SetFlagIsLocal(f, g, v);
    Put(f, g, v)
  }

  lemma SetFlagIsLocal(f: InternalFormat, g: Flag, v: bool)
    ensures Put(f, g, v).base == f.base && (NothingElse(f) ==> NothingElse(Put(f, g, v)))
    ensures forall h: Flag :: h in FlagsOf(Put(f, g, v)) <==> if h == g then v else h in FlagsOf(f)
  {
    hide Put, Is, NothingElse;
    PutAddsNothingElse(f, g, v);
    forall h: Flag
      ensures h in FlagsOf(Put(f, g, v)) <==> if h == g then v else h in FlagsOf(f)
    {
      PutIsLocal(f, g, h, v);
    }
  }

  lemma NoModifiers(f: InternalFormat)
    requires f.mods == 0
    ensures FlagsOf(f) == {} && NothingElse(f)
  {
  }

  const ALL_FLAGS: seq<Flag> :=
    [BasicAfbc, BasicAfrc, BasicBlockLinear, SplitBlock, WideBlock, TiledHeaders, ExtraWideBlock, DoubleBody,
     ContentHints, YuvTransform, Sparse, Usm]

  /** The format with those of the first n flags that are in the set. */
  function BuildFrom(base: BaseFormat, flags: set<Flag>, n: nat): (r: InternalFormat)
    requires n <= |ALL_FLAGS|
    ensures r.base == base && NothingElse(r)
    ensures forall h: Flag :: h in FlagsOf(r) <==> h in flags && h in ALL_FLAGS[..n]
  {
    if n == 0 then
      NoModifiers(InternalFormat(base, 0));
      InternalFormat(base, 0)
    else
      assert ALL_FLAGS[..n] == ALL_FLAGS[..n - 1] + [ALL_FLAGS[n - 1]];
      var g := ALL_FLAGS[n - 1];
      SetFlag(BuildFrom(base, flags, n - 1), g, g in flags)
  }

  /** The inverse of FlagsOf. */
  function Build(base: BaseFormat, flags: set<Flag>): (r: InternalFormat)
    ensures r.base == base && NothingElse(r) && FlagsOf(r) == flags
  {
    AllFlagsListed();
    BuildFrom(base, flags, |ALL_FLAGS|)
  }

  lemma AllFlagsListed()
    ensures forall h: Flag :: h in ALL_FLAGS[..|ALL_FLAGS|]
  {
    forall h: Flag
      ensures h in ALL_FLAGS[..|ALL_FLAGS|]
    {
      assert ALL_FLAGS[..|ALL_FLAGS|] == ALL_FLAGS;
      match h {
        case BasicAfbc => assert ALL_FLAGS[0] == h;
        case BasicAfrc => assert ALL_FLAGS[1] == h;
        case BasicBlockLinear => assert ALL_FLAGS[2] == h;
        case SplitBlock => assert ALL_FLAGS[3] == h;
        case WideBlock => assert ALL_FLAGS[4] == h;
        case TiledHeaders => assert ALL_FLAGS[5] == h;
        case ExtraWideBlock => assert ALL_FLAGS[6] == h;
        case DoubleBody => assert ALL_FLAGS[7] == h;
        case ContentHints => assert ALL_FLAGS[8] == h;
        case YuvTransform => assert ALL_FLAGS[9] == h;
        case Sparse => assert ALL_FLAGS[10] == h;
        case Usm => assert ALL_FLAGS[11] == h;
      }
    }
  }
}
