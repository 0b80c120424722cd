/**
 * get_afbc_format and validate_afbc_format: the largest supported AFBC feature set, then repaired until it is
 * legal.
 */
module AfbcSelection {
  import opened Bits
  import opened Usages
  import opened Formats
  import opened InternalFormats
  import opened ModifierFlags
  import opened Ips
  import opened Capabilities

  /** Everything the selection knows about the hardware blocks involved. */
  datatype Parties = Parties(caps: Caps, producers: IpSet, consumers: IpSet) {
    predicate Both(f: Feature) { Supports(caps, producers, consumers, f) }
    predicate ProducersDo(f: Feature) { Supports(caps, producers, {}, f) }
    predicate ConsumersDo(f: Feature) { Supports(caps, {}, consumers, f) }

    /** Some producer cannot write a non-sparse body, or there is none to ask. */
    predicate MustBeSparse() { producers == {} || !ProducersDo(AFBC_WRITE_NON_SPARSE) }
  }

  // ----- specification -----

  /** Wide blocks that have to come with split blocks and do not. */
  predicate NeedsSplit(v: set<Flag>, id: BaseFormat, subsampled: bool) {
    WideBlock in v && DoubleBody !in v && SplitBlock !in v && !subsampled && id != RGB_565
  }

  /** Whether a flag is set once the rules of the AFBC specification have been applied. */
  predicate AfterRepair(ips: Parties, v: set<Flag>, id: BaseFormat, subsampled: bool, g: Flag) {
    match g
    case WideBlock => WideBlock in v && DoubleBody !in v && (NeedsSplit(v, id,
        subsampled) ==> ips.Both(AFBC_BLOCK_SPLIT))
    case SplitBlock =>
      && id != RGB_565
      && ((SplitBlock in v && !(WideBlock in v && DoubleBody !in v && subsampled))
          || (NeedsSplit(v, id, subsampled) && ips.Both(AFBC_BLOCK_SPLIT)))
    case ExtraWideBlock => ExtraWideBlock in v && DoubleBody !in v
    case _ => g in v
  }

  /** What the hardware makes of one flag. */
  predicate HardwareKeeps(ips: Parties, kept: bool, g: Flag) {
    match g
    case SplitBlock => kept && ips.Both(AFBC_BLOCK_SPLIT)
    case WideBlock => kept && ips.Both(AFBC_32X8)
    case TiledHeaders => kept && ips.Both(AFBC_TILED_HEADERS)
    case Sparse => kept || ips.MustBeSparse()
    case _ => kept
  }

  /** Whether a flag is set once the hardware has had its say. */
  predicate AfterDrop(ips: Parties, v: set<Flag>, g: Flag) {
    HardwareKeeps(ips, g in v && (BasicAfbc in v ==> ips.Both(AFBC_16X16)), g)
  }

  function Repaired(ips: Parties, v: set<Flag>, id: BaseFormat, subsampled: bool): set<Flag> {
    set g: Flag | AfterRepair(ips, v, id, subsampled, g)
  }

  function Dropped(ips: Parties, v: set<Flag>): set<Flag> {
    set g: Flag | AfterDrop(ips, v, g)
  }

  /** The flags validate_afbc_format leaves. */
  function Validated(ips: Parties, v: set<Flag>, id: BaseFormat, subsampled: bool): set<Flag> {
    Dropped(ips, Repaired(ips, v, id, subsampled))
  }

  /** AFBC is not attempted at all. */
  predicate Refused(ips: Parties, f: FormatInfo) {
    || (f.isYuv && ((ips.consumers != {} && !ips.ConsumersDo(AFBC_YUV)) || !ips.ProducersDo(AFBC_YUV)))
    || (VPU in ips.producers && VPU in ips.consumers)
    || !ips.Both(AFBC_16X16)
  }

  /** GPU to DPU benefits from wide blocks and split blocks. */
  predicate GpuToDpu(ips: Parties) {
    GPU in ips.producers && DPU in ips.consumers && Present(ips.caps, {DPU})
  }

  predicate SplitWanted(ips: Parties, f: FormatInfo) {
    && !(f.isYuv && GPU in ips.producers)
    && !((!f.isRgb || f.bpp.p0 < 24) && (DPU_AEU in ips.producers || DPU in ips.consumers))
  }

  /** Whether get_afbc_format asks for a flag before validating. */
  predicate Wanted(ips: Parties, f: FormatInfo, frontBuffer: bool, g: Flag) {
    match g
    case BasicAfbc => true
    case YuvTransform => f.yuvTransform
    case Sparse => ips.MustBeSparse()
    case TiledHeaders => ips.Both(AFBC_TILED_HEADERS)
    case DoubleBody => ips.Both(AFBC_TILED_HEADERS) && frontBuffer && ips.Both(AFBC_DOUBLE_BODY)
    case WideBlock => GpuToDpu(ips) && ips.Both(AFBC_32X8) && !f.isYuv
    case SplitBlock => GpuToDpu(ips) && ips.Both(AFBC_BLOCK_SPLIT) && SplitWanted(ips, f)
    case _ => false
  }

  function Desired(ips: Parties, f: FormatInfo, frontBuffer: bool): set<Flag> {
    set g: Flag | Wanted(ips, f, frontBuffer, g)
  }

  function AfbcFlags(ips: Parties, f: FormatInfo, usage: bv64): set<Flag> {
    if Refused(ips, f) then {}
    else Validated(ips, Desired(ips, f, IsFrontBuffer(usage)), f.id, f.SubsampledYuv())
  }

  function AfbcFormat(ips: Parties, f: FormatInfo, usage: bv64): InternalFormat {
    Build(f.id, AfbcFlags(ips, f, usage))
  }

  // ----- the source's procedures -----

  /** The first half of validate_afbc_format. */
  method RepairBlocks(ips: Parties, given: InternalFormat, subsampled: bool) returns (fmt: InternalFormat)
    ensures fmt.base == given.base && (NothingElse(given) ==> NothingElse(fmt))
    ensures FlagsOf(fmt) == Repaired(ips, FlagsOf(given), given.base, subsampled)
  {
    hide FlagsOf, Is, NothingElse, Parties.Both, SetFlag;
    fmt := given;
    if DoubleBody in FlagsOf(fmt) {
      fmt := SetFlag(fmt, WideBlock, false);
      fmt := SetFlag(fmt, ExtraWideBlock, false);
    }
    if WideBlock in FlagsOf(fmt) && SplitBlock in FlagsOf(fmt) && subsampled {
      fmt := SetFlag(fmt, SplitBlock, false);
    }
    if WideBlock in FlagsOf(fmt) && SplitBlock !in FlagsOf(fmt) && !subsampled && fmt.base != RGB_565 {
      if ips.Both(AFBC_BLOCK_SPLIT) {
        fmt := SetFlag(fmt, SplitBlock, true);
      } else {
        fmt := SetFlag(fmt, WideBlock, false);
      }
    }
    if fmt.base == RGB_565 {
      fmt := SetFlag(fmt, SplitBlock, false);
    }
  }

  /** The second half of validate_afbc_format. */
  method DropUnsupported(ips: Parties, given: InternalFormat) returns (fmt: InternalFormat)
    ensures fmt.base == given.base
    ensures FlagsOf(fmt) == Dropped(ips, FlagsOf(given))
    ensures NothingElse(given) ==> NothingElse(fmt)
  {
    hide FlagsOf, Is, NothingElse, Parties.Both, Parties.MustBeSparse, SetFlag;
    fmt := given;
    if BasicAfbc in FlagsOf(fmt) && !ips.Both(AFBC_16X16) {
      fmt := InternalFormat(fmt.base, 0);
      NoModifiers(fmt);
    }
    if SplitBlock in FlagsOf(fmt) && !ips.Both(AFBC_BLOCK_SPLIT) {
      fmt := SetFlag(fmt, SplitBlock, false);
    }
    if WideBlock in FlagsOf(fmt) && !ips.Both(AFBC_32X8) {
      fmt := SetFlag(fmt, WideBlock, false);
    }
    if TiledHeaders in FlagsOf(fmt) && !ips.Both(AFBC_TILED_HEADERS) {
      fmt := SetFlag(fmt, TiledHeaders, false);
    }
    if Sparse !in FlagsOf(fmt) && ips.MustBeSparse() {
      fmt := SetFlag(fmt, Sparse, true);
    }
  }

  method ValidateAfbcFormat(ips: Parties, given: InternalFormat, subsampled: bool) returns (fmt: InternalFormat)
    ensures fmt.base == given.base
    ensures FlagsOf(fmt) == Validated(ips, FlagsOf(given), given.base, subsampled)
    ensures NothingElse(given) ==> NothingElse(fmt)
  {
    hide FlagsOf, Is, NothingElse, Repaired, Dropped;
    fmt := RepairBlocks(ips, given, subsampled);
    fmt := DropUnsupported(ips, fmt);
  }

  /** The block flags get_afbc_format asks for on the way from GPU to DPU. */
  method WantBlocks(ips: Parties, f: FormatInfo, given: InternalFormat) returns (fmt: InternalFormat)
    requires WideBlock !in FlagsOf(given) && SplitBlock !in FlagsOf(given)
    ensures fmt.base == given.base && (NothingElse(given) ==> NothingElse(fmt))
    ensures forall g: Flag :: g in FlagsOf(fmt) <==>
      if g == WideBlock then GpuToDpu(ips) && ips.Both(AFBC_32X8) && !f.isYuv
      else if g == SplitBlock then GpuToDpu(ips) && ips.Both(AFBC_BLOCK_SPLIT) && SplitWanted(ips, f)
      else g in FlagsOf(given)
  {
    hide FlagsOf, Is, NothingElse, Parties.Both, Present, SetFlag;
    fmt := given;
    var gpuToDpu := GPU in ips.producers && DPU in ips.consumers;
    if gpuToDpu {
      DpuMask();
      var present := IsPresent(ips.caps, 4);
      // Where the question aborts there is no process left to answer to; the value given for it does not matter.
      gpuToDpu := match present case Says(answer) => answer case Aborts => Present(ips.caps, {DPU});
    }
    if gpuToDpu {
      if ips.Both(AFBC_32X8) && !f.isYuv {
        fmt := SetFlag(fmt, WideBlock, true);
      }
      if ips.Both(AFBC_BLOCK_SPLIT) {
        var enable := true;
        if f.isYuv && GPU in ips.producers {
          enable := false;
        }
        if !f.isRgb || f.bpp.p0 < 24 {
          if DPU_AEU in ips.producers || DPU in ips.consumers {
            enable := false;
          }
        }
        fmt := SetFlag(fmt, SplitBlock, enable);
      }
    }
  }

  /** Tiled headers, and double bodies for front buffers. */
  method WantHeaders(ips: Parties, frontBuffer: bool, given: InternalFormat) returns (fmt: InternalFormat)
    requires TiledHeaders !in FlagsOf(given) && DoubleBody !in FlagsOf(given)
    ensures fmt.base == given.base && (NothingElse(given) ==> NothingElse(fmt))
    ensures forall g: Flag :: g in FlagsOf(fmt) <==>
      if g == TiledHeaders then ips.Both(AFBC_TILED_HEADERS)
      else if g == DoubleBody then ips.Both(AFBC_TILED_HEADERS) && frontBuffer && ips.Both(AFBC_DOUBLE_BODY)
      else g in FlagsOf(given)
  {
    hide FlagsOf, Is, NothingElse, Parties.Both, SetFlag;
    fmt := given;
    if ips.Both(AFBC_TILED_HEADERS) {
      fmt := SetFlag(fmt, TiledHeaders, true);
      if frontBuffer && ips.Both(AFBC_DOUBLE_BODY) {
        fmt := SetFlag(fmt, DoubleBody, true);
      }
    }
  }

  method GetAfbcFormat(ips: Parties, f: FormatInfo, usage: bv64) returns (fmt: InternalFormat)
    ensures fmt == AfbcFormat(ips, f, usage)
  {
    hide FlagsOf, Is, NothingElse, Parties.Both, Parties.MustBeSparse, Refused, Build, Validated, GpuToDpu,
      SplitWanted, IsFrontBuffer, SetFlag;
    fmt := InternalFormat(f.id, 0);
    NoModifiers(fmt);
    if Refused(ips, f) {
      FlagsAreFaithful(fmt, AfbcFormat(ips, f, usage));
      return;
    }
    fmt := SetFlag(fmt, BasicAfbc, true);
    fmt := SetFlag(fmt, YuvTransform, f.yuvTransform);
    if ips.MustBeSparse() {
      fmt := SetFlag(fmt, Sparse, true);
    }
    fmt := WantHeaders(ips, IsFrontBuffer(usage), fmt);
    fmt := WantBlocks(ips, f, fmt);
    assert FlagsOf(fmt) == Desired(ips, f, IsFrontBuffer(usage)) by {
      forall g: Flag
        ensures g in FlagsOf(fmt) <==> Wanted(ips, f, IsFrontBuffer(usage), g)
      {
      }
    }
    fmt := ValidateAfbcFormat(ips, fmt, f.SubsampledYuv());
    FlagsAreFaithful(fmt, AfbcFormat(ips, f, usage));
  }

  lemma DpuMask()
    ensures IpsOf(4) == {DPU}
  {
    forall k: nat | k < 32
      ensures Bit(4, k) <==> k == 2
    {
      if k >= 3 {
        NoBitsAbove(4, 3, k);
      }
    }
  }

  // ----- properties -----

  /** The rules of the AFBC specification and of the hardware, all at once. */
  ghost predicate AfbcRules(ips: Parties, f: FormatInfo, v: set<Flag>) {
    && (DoubleBody in v ==> WideBlock !in v && ExtraWideBlock !in v && TiledHeaders in v)
    && (WideBlock in v && f.SubsampledYuv() ==> SplitBlock !in v)
    && (WideBlock in v && !f.SubsampledYuv() && f.id != RGB_565 ==> SplitBlock in v)
    && (f.id == RGB_565 ==> SplitBlock !in v)
    && ips.Both(AFBC_16X16)
    && (SplitBlock in v ==> ips.Both(AFBC_BLOCK_SPLIT))
    && (WideBlock in v ==> ips.Both(AFBC_32X8))
    && (TiledHeaders in v ==> ips.Both(AFBC_TILED_HEADERS))
    && (DoubleBody in v ==> ips.Both(AFBC_DOUBLE_BODY))
    && (Sparse !in v ==> ips.producers != {} && ips.ProducersDo(AFBC_WRITE_NON_SPARSE))
    && (f.isYuv ==> ips.ProducersDo(AFBC_YUV) && (ips.consumers != {} ==> ips.ConsumersDo(AFBC_YUV)))
  }

  /**
   * For any capabilities get_afbc_format returns the bare base format, exactly when it refuses, or an AFBC format
   * that satisfies every rule. It never asks for extra-wide blocks, so never for the multi-plane variant.
   */
  lemma AfbcFormatsAreLegal(ips: Parties, f: FormatInfo, usage: bv64)
    ensures var fmt, v := AfbcFormat(ips, f, usage), AfbcFlags(ips, f, usage);
      && fmt.base == f.id && FlagsOf(fmt) == v && NothingElse(fmt)
      && (if Refused(ips, f) then fmt.mods == 0 else BasicAfbc in v && AfbcRules(ips, f, v))
      && v <= {BasicAfbc, SplitBlock, WideBlock, TiledHeaders, DoubleBody, YuvTransform, Sparse}
  {
    hide FlagsOf, Is, NothingElse, Build, IsFrontBuffer, Supports, Present;
    if Refused(ips, f) {
      NoModifiers(InternalFormat(f.id, 0));
      FlagsAreFaithful(InternalFormat(f.id, 0), AfbcFormat(ips, f, usage));
    }
  }

  /**
   * Flags on which validation gets stuck: wide and split on a format that needs both, where the hardware has wide
   * blocks but no split blocks. The split flag is dropped after the rule that would have dropped the wide one.
   */
  predicate Stuck(ips: Parties, v: set<Flag>, id: BaseFormat, subsampled: bool) {
    && WideBlock in v && SplitBlock in v && DoubleBody !in v && !subsampled && id != RGB_565
    && !ips.Both(AFBC_BLOCK_SPLIT) && ips.Both(AFBC_32X8) && (BasicAfbc in v ==> ips.Both(AFBC_16X16))
  }

  /** A validated set holds the split rule exactly when validation did not get stuck. */
  lemma SplitRuleExactlyWhen(ips: Parties, v: set<Flag>, id: BaseFormat, subsampled: bool)
    ensures var once := Validated(ips, v, id, subsampled);
      (WideBlock in once && !subsampled && id != RGB_565 ==> SplitBlock in once) <==> !Stuck(ips, v, id, subsampled)
  {
    hide Parties.Both, Parties.MustBeSparse;
  }

  lemma StuckChangesAgain(ips: Parties, v: set<Flag>, id: BaseFormat, subsampled: bool)
    requires Stuck(ips, v, id, subsampled)
    ensures var once := Validated(ips, v, id, subsampled);
      WideBlock in once && WideBlock !in Validated(ips, once, id, subsampled)
  {
    hide Parties.Both, Parties.MustBeSparse;
    var once := Validated(ips, v, id, subsampled);
    assert WideBlock in once && SplitBlock !in once;
  }

  /** Whether a flag is set once both halves of the validation are done. */
  predicate AfterBoth(ips: Parties, v: set<Flag>, id: BaseFormat, subsampled: bool, g: Flag) {
    HardwareKeeps(ips, AfterRepair(ips, v, id, subsampled, g) && (BasicAfbc in v ==> ips.Both(AFBC_16X16)), g)
  }

  lemma ValidatedAt(ips: Parties, v: set<Flag>, id: BaseFormat, subsampled: bool, g: Flag)
    ensures g in Validated(ips, v, id, subsampled) <==> AfterBoth(ips, v, id, subsampled, g)
  {
    hide Parties.Both, Parties.MustBeSparse, NeedsSplit, HardwareKeeps;
    assert g in Validated(ips, v, id, subsampled) <==> AfterDrop(ips, Repaired(ips, v, id, subsampled), g);
    assert g in Repaired(ips, v, id, subsampled) <==> AfterRepair(ips, v, id, subsampled, g);
    assert BasicAfbc in Repaired(ips, v, id, subsampled) <==> AfterRepair(ips, v, id, subsampled, BasicAfbc);
  }

  lemma KeepsTwice(ips: Parties, kept: bool, g: Flag)
    ensures HardwareKeeps(ips, HardwareKeeps(ips, kept, g), g) == HardwareKeeps(ips, kept, g)
  {
    hide Parties.Both, Parties.MustBeSparse;
  }

  /** After one validation AFBC is only left where it is supported. */
  lemma BasicSettles(ips: Parties, v: set<Flag>, id: BaseFormat, subsampled: bool)
    ensures BasicAfbc in Validated(ips, v, id, subsampled) <==> BasicAfbc in v && ips.Both(AFBC_16X16)
  {
    hide Parties.Both, Parties.MustBeSparse, Validated;
    ValidatedAt(ips, v, id, subsampled, BasicAfbc);
  }

  /** The repairs find nothing more to do once the hardware has had its say, unless it got stuck. */
  lemma RepairSettles(ips: Parties, v: set<Flag>, id: BaseFormat, subsampled: bool, g: Flag)
    requires !Stuck(ips, v, id, subsampled) && (g == WideBlock || g == SplitBlock || g == ExtraWideBlock)
    ensures var once := Validated(ips, v, id, subsampled);
      AfterRepair(ips, once, id, subsampled, g) <==> g in once
  {
    hide Parties.Both, Parties.MustBeSparse, Validated;
    ValidatedAt(ips, v, id, subsampled, ExtraWideBlock);
    ValidatedAt(ips, v, id, subsampled, DoubleBody);
    ValidatedAt(ips, v, id, subsampled, WideBlock);
    ValidatedAt(ips, v, id, subsampled, SplitBlock);
  }

  lemma FlagSettles(ips: Parties, v: set<Flag>, id: BaseFormat, subsampled: bool, g: Flag)
    requires !Stuck(ips, v, id, subsampled)
    ensures var once := Validated(ips, v, id, subsampled);
      g in Validated(ips, once, id, subsampled) <==> g in once
  {
    hide Parties.Both, Parties.MustBeSparse, Validated, HardwareKeeps, NeedsSplit, Stuck;
    var once := Validated(ips, v, id, subsampled);
    ValidatedAt(ips, v, id, subsampled, g);
    ValidatedAt(ips, once, id, subsampled, g);
    BasicSettles(ips, v, id, subsampled);
    KeepsTwice(ips, AfterRepair(ips, v, id, subsampled, g) && (BasicAfbc in v ==> ips.Both(AFBC_16X16)), g);
    if g == WideBlock || g == SplitBlock || g == ExtraWideBlock {
      RepairSettles(ips, v, id, subsampled, g);
    }
  }

  /** Validation is idempotent, and establishes the split rule, exactly on flags where it does not get stuck. */
  lemma ValidationSettlesExactlyWhen(ips: Parties, v: set<Flag>, id: BaseFormat, subsampled: bool)
    ensures var once := Validated(ips, v, id, subsampled);
      && (Validated(ips, once, id, subsampled) == once <==> !Stuck(ips, v, id, subsampled))
      && ((WideBlock in once && !subsampled && id != RGB_565 ==> SplitBlock in once) <==> !Stuck(ips, v, id,
          subsampled))
  {
    hide Stuck, Validated;
    SplitRuleExactlyWhen(ips, v, id, subsampled);
    if Stuck(ips, v, id, subsampled) {
      StuckChangesAgain(ips, v, id, subsampled);
    } else {
      var once := Validated(ips, v, id, subsampled);
      forall g: Flag
        ensures g in Validated(ips, once, id, subsampled) <==> g in once
      {
        FlagSettles(ips, v, id, subsampled, g);
      }
    }
  }

  /** What get_afbc_format builds is never stuck, so validating it again changes nothing. */
  lemma BuiltFormatsStayValid(ips: Parties, f: FormatInfo, usage: bv64)
    requires !Refused(ips, f)
    ensures Validated(ips, AfbcFlags(ips, f, usage), f.id, f.SubsampledYuv()) == AfbcFlags(ips, f, usage)
  {
    hide Parties.MustBeSparse, Supports, Present, IsFrontBuffer, Validated;
    ValidationSettlesExactlyWhen(ips, Desired(ips, f, IsFrontBuffer(usage)), f.id, f.SubsampledYuv());
  }

  // ----- which flags a built format has -----

  /** The GPU renders for a display unit that is there. */
  predicate RendersForDisplay(ips: Parties) {
    GPU in ips.producers && DPU in ips.consumers && !Supports(ips.caps, {DPU}, {DPU}, DISABLED)
  }

  /**
   * AFBC is built if and only if everybody handles it, the decoder does not feed the encoder, and YUV is handled on
   * both sides. It then has every flag the hardware takes: tiled headers, double bodies for front buffers, the format's
   * colour transform; wide blocks for RGB that the GPU renders for a display, where split blocks can come with them or
   * need not; split blocks for deep RGB there, and wherever blocks are wide.
   */
  lemma BuiltFlagsAre(ips: Parties, f: FormatInfo, usage: bv64)
    ensures var v := AfbcFlags(ips, f, usage);
      var display := RendersForDisplay(ips);
      && (BasicAfbc in v <==>
            && ips.Both(AFBC_16X16) && !(VPU in ips.producers && VPU in ips.consumers)
            && (f.isYuv ==> ips.ProducersDo(AFBC_YUV) && (ips.consumers == {} || ips.ConsumersDo(AFBC_YUV))))
      && (BasicAfbc !in v ==> v == {})
      && (BasicAfbc in v ==>
            && (TiledHeaders in v <==> ips.Both(AFBC_TILED_HEADERS))
            && (DoubleBody in v <==>
                  IsFrontBuffer(usage) && ips.Both(AFBC_TILED_HEADERS) && ips.Both(AFBC_DOUBLE_BODY))
            && (YuvTransform in v <==> f.yuvTransform)
            && (Sparse in v <==> ips.producers == {} || !ips.ProducersDo(AFBC_WRITE_NON_SPARSE))
            && (WideBlock in v <==>
                  && display && ips.Both(AFBC_32X8) && !f.isYuv && DoubleBody !in v
                  && (ips.Both(AFBC_BLOCK_SPLIT) || f.id == RGB_565))
            && (SplitBlock in v <==>
                  && display && ips.Both(AFBC_BLOCK_SPLIT) && f.id != RGB_565
                  && (WideBlock in v || (f.isRgb && !f.isYuv && f.bpp.p0 >= 24)))
            && ExtraWideBlock !in v && ContentHints !in v && Usm !in v)
  {
    hide Supports, IsFrontBuffer;
    if !Refused(ips, f) {
      DisplayIs(ips);
    }
  }

  lemma DisplayIs(ips: Parties)
    ensures GpuToDpu(ips) <==> RendersForDisplay(ips)
  {
    hide Supports;
  }
}
